# Verification of the binding generator

This project models, in Dafny, the logic of a repository that derives a schema from OpenDB's public
header, generates a Rust and C++ binding from it, and builds that binding against a pinned source
tree. It proves what the parts promise to each other.

| file | what it models |
|---|---|
| `LogicalLines.dfy` | the joiner that makes every declaration one line |
| `LineRules.dfy` | the joiner by the characters of its lines, and where a text has its line ends |
| `ClassParse.dfy`, `MethodPattern.dfy` | the class parser on top of it, and the method pattern with its parameters |
| `WrapGaps.dfy`, `Signatures.dfy` | the wrappings that they read alike, and those they do not |
| `Declarations.dfy` | how a text that declares a method is spelled, and a parameter |
| `HeaderClass.dfy` | the whole parser of a class body, filters and kinds included |
| `ClassBodies.dfy` | the two brace matchers that cut class bodies out of the header |
| `ParamSplit.dfy` | the splitter of parameter lists |
| `Targets.dfy`, `TargetKeys.dfy` | the table of bound classes, row by row, and its keys |
| `Names.dfy` | snake case and the names of generated functions |
| `Bindings.dfy`, `EmitLaws.dfy`, `EmitRuns.dfy` | what each read emitter adds, what is always true of it, and whole runs |
| `TypeTexts.dfy`, `Readers.dfy` | which readers a method must be given, by the text of its return type |
| `Readings.dfy`, `OutReadings.dfy` | what each generated reader answers, from its field to its definition |
| `Registry.dfy` | the registry of readable fields and the list of what is not implemented |
| `CppTypes.dfy` | the C++ type of a parameter as a header spells it |
| `Setters.dfy`, `SetterTypes.dfy`, `SetterLaws.dfy` | the setter compiler, what its arguments can initialise, its marshalling round trip, and runs of it |
| `SetterRules.dfy` | which setters must be bound, and how each parameter is passed and named |
| `QueryRules.dfy`, `QueryScope.dfy` | which parameterised reads must be bound, and their parameter names |
| `Emitter.dfy`, `Passes.dfy` | class `Emit` itself, with the buffers updated in place, the driving loop, and the calls that it makes |
| `WholeRun.dfy`, `ApiSurface.dfy` | the run over the real table, for any headers, and the methods of the generated `Db` |
| `MarkedRegion.dfy` | the rewriter of a marked region in a file |
| `Coverage.dfy` | the method classifier and the coverage counts |
| `FlatTable.dfy` | the flat encoding of a ragged table of pairs, and the readers of the maps beside it |
| `Listing.dfy` | the count, element and list readers of a collection, and index walks |
| `MarkerPath.dfy` | the slash-path resolver over two category forests |
| `SourceCache.dfy` | the cache of the pinned source tree, as a step system with aborted fetches |
| `EcoFixture.dfy` | the fixture that is written once as a database and once as a netlist |
| `Text.dfy`, `Options.dfy` | Python's string operations, with the facts about them that the other files need, and the optional value |

Text is `seq<char>` and a file is a sequence of lines. A regular expression whose result alone
matters is a given function or a field of a record: a method is a record with its name, return type,
kind and parameters, and what an out-parameter pattern says of a type is a field beside it. The method
pattern, the parameter pattern and the pointer pattern are functions of the text. A generated function is
a record too (name, typed parameters, result, body form), not source text; two sides of the bridge
agree when the Rust types are those the C++ types map to.

Code that the repository writes as a loop over changing variables is a method with a loop here, and
an object updated in place is a class; each is proved equal to a function, and the laws are proved of
that function. Where a promised property does not hold of every input, the model keeps the code as it
is and states exactly when the property holds:

- names shared by cousin classes: `GeneratedSurface`, `TargetsSurface`; what headers can see to is
  `TargetsUnique`, and a failing table is `TargetsShareName`;
- registry fields entered twice: `FieldsExactly`; `FieldsDistinct`; `DoubledByName` and its neighbours;
- breaks that leave more than one blank: `WordsExactly`, `GapExactly`, `UntidyExactly`; `BlankDecides`,
  `BlankUnbinds`;
- parameter names of a setter that meet or are reserved: `SetterNamesExactly`, `SetterDelivers`;
  `SetterNamesDistinct`; `SetterNamesCollide`, `SetterNameIsObject`, `SetterNameReserved`;
- parameter types that are marshalled and cannot be initialised: `ParamTakes`, `SetterDelivers`;
  `StringRefMarshalled`, `PointMistaken`;
- parameter names of a read that meet: `QueryNamesExactly`; `QueryNamesDistinct`; `QueryRepeatsKey`;
- a reader and a setter of one name: `DbMethodsExactly`; `TargetsDbUnique`; `RelationMeetsSetter`;
- checkouts killed half way: `FilesExactly`, `CachedFilesAtPin`, `AlwaysHeals`; `TornTreeUsed`;
- sizes beyond 32 bits: `DecodeEncode`; `SizeWraps`;
- names that are not camel case: `SnakeExactly`; `SnakeCollision`;
- bodies that hold a marker: `RewritableAgain`;
- pins given two nets: `FormsAgreeExactly`;
- text that ends inside a class: `IterClassBodies`.

In four places the code and its own words differ, and the model follows the code. The comment on
`is_impl` speaks of every method the generator did not bind, but a parameterised read is bound and
registers nothing, so it is listed as unimplemented unless another field covers it
(`QueryListedUnimplemented`). The joiner's comment says that nothing that parsed before it existed
parses differently now; a line that starts a declaration without ending one, such as a macro call
with no semicolon, is joined to the declaration after it (`WrappingExactly` says which lines stand
alone). Its comment that clang-format must not decide what is bound does not reach a break that leaves
more than one blank inside the type of a parameter (`UntidyExactly`, `BlankUnbinds`), nor one after a
`static` that ends its line in a tab (`TabNotSkipped`). And the comment in `parse_params` takes the last
identifier of a parameter for its name, but of a parameter that is one word the first letter is its type
and the rest its name (`LoneWordCut`).

## Model

| member | source | states |
|---|---|---|
| LogicalLines.LogicalLinesOf | scripts/derive-schema.py:178-190 | the imperative joiner, with its `buf`, `depth` and early yields, computes the scanner function the laws below are about |
| LogicalLines.WrapInvariance | scripts/derive-schema.py:157-190 | clang-format must not decide what is bound: complete passing lines and wrapped declarations, in any number, yield one line each, and leave the scanner so that whatever follows is read as if it stood alone |
| LogicalLines.WrapNormalised | scripts/derive-schema.py:157-190 | anywhere in a body a declaration in any wrapping yields exactly one line, whose white-space-normalised text is the normalised text of the declaration; no proviso on indentation or trailing blanks |
| LogicalLines.JoinedIsTheText | scripts/derive-schema.py:184 | stripped, the yielded line is the lines' own texts joined by single blanks if and only if the first line carries no trailing blank or is the only one |
| LogicalLines.WrappingExactly | scripts/derive-schema.py:181-188 | a block that starts a declaration scans to one whole line with nothing left over if and only if its last line, and no earlier one, is balanced and ends in `;`, `{` or `}` |
| LogicalLines.Decompose | scripts/derive-schema.py:172-190 | a reading of any body without a scanner: passing lines and wrapped declarations, then at most one unfinished declaration, and one yielded line for each |
| LogicalLines.LinesConserveText | scripts/derive-schema.py:178-190 | for any lines, the yielded lines hold the same non-blank characters in the same order |
| LogicalLines.BodyTextConserved | scripts/derive-schema.py:178-190 | the same for a class body as one text, line splitting included |
| LogicalLines.LogicalIdempotent | scripts/derive-schema.py:178-190 | joining the lines that were already joined changes nothing, for any text |
| LineRules.StandsAlone | scripts/derive-schema.py:181-188 | a line that others follow is yielded as it is, and leaves them alone, if and only if it is blank, starts with `//` or `#`, ends in `:`, or has no more `(` than `)` and ends in `;`, `{` or `}` |
| LineRules.FirstRead | scripts/derive-schema.py:172-190 | the joiner by the characters of its lines, for every text: from the first line on it yields that line alone, or the fewest lines in which no more parens open than close and the last of which ends in `;`, `{` or `}`, or all that is left, joined as first line, blank, next line stripped |
| LineRules.SplitFirst | scripts/derive-schema.py:179 | what `splitlines` takes for the end of a line, character by character, a carriage return with its line feed being one |
| ClassParse.ParseClass | scripts/derive-schema.py:193-226 | the loop over the logical lines with its access sections and its skipped `static` and `struct` members computes the parse of the joined lines |
| ClassParse.ParseExactly | scripts/derive-schema.py:195-209 | what is parsed of a class is, in order, what is recognised in exactly the lines that have a `public:` before them and no label of any kind in between, and start with none of `//`, `friend`, `typedef`, `using`, `enum`, `static ` and `struct ` |
| ClassParse.WrapsParseAlike | scripts/derive-schema.py:157-167 | two bodies whose items pairwise have the same lines, stripped and joined by blanks, in any wrapping, parse to the same methods for every recogniser of a line |
| ClassParse.TabNotSkipped | scripts/derive-schema.py:204 | the skip test reads a blank after `static` and no other white space: after a tab a static member is not skipped |
| Signatures.SpelledMethod | scripts/derive-schema.py:39-50 | of a declaration spelled with any white space, or none, around its parens and around every parameter, `(void)` included, the method pattern reads one method: its return type and name, the parameters of `parse_params`, its `const` |
| Signatures.BrokenAtParen | scripts/derive-schema.py:157-167 | a declaration broken right after its open paren, where the unbroken text has no blank, is such a spelling of the same declaration |
| Signatures.DeclarationsParseAlike | scripts/derive-schema.py:157-167 | so where clang-format breaks a declaration, at blanks, next to a paren or around a parameter, does not decide what is bound: two bodies whose items are pairwise read as the same declarations parse to the same methods, with the method pattern and whatever the filters keep |
| Signatures.TidyDeclarations | scripts/derive-schema.py:157-190 | items whose first lines leave no blanks at their ends are read as what they say, so for them it is enough to spell the same declaration |
| MethodPattern.WordsExactly | scripts/derive-schema.py:39-50 | two lines with the same words, whatever the amounts of white space, declare the same method if and only if they declare none or their parameters are the same |
| WrapGaps.ParamGapExactly | scripts/derive-schema.py:123-130 | the amount of white space at one place of a parameter is read if and only if the place is inside its type: what follows could not complete the parameter before it |
| WrapGaps.GapExactly | scripts/derive-schema.py:39-50 | a line with two amounts of white space at one place declares the same method if and only if it declares none or the place is not inside the type of a parameter |
| Signatures.UntidyExactly | scripts/derive-schema.py:178-190 | a declaration whose first line ends in blanks is read as its own text if and only if no method is read of it or the break is not inside the type of a parameter |
| Signatures.WordsParseAlike | scripts/derive-schema.py:193-210 | two bodies whose items pairwise say the same words, blank lines and trailing blanks anywhere, with a blank after a leading `static` or `struct`, parse to the same methods if the parameters of the lines agree |
| Signatures.BlankDecides | scripts/derive-schema.py:123-130 | inside a type every blank is kept: a break after `const char` that leaves two blanks gives the type `const char  *` |
| Signatures.BlankUnbinds | scripts/generate-bindings.py:546-565 | and with that type a parameterised read is not bound, which it is with one blank |
| MethodPattern.LoneWordCut | scripts/derive-schema.py:126-130 | a parameter without a name whose type is one word is read as a type of one letter and a name |
| Declarations.DeclaresExactly | scripts/derive-schema.py:39-50 | a line declares a method if and only if it is spelled as one: a return type of a letter or underscore and then letters, digits, `_`, `:`, `*`, `&`, `<`, `>`, `,` and white space, a name, parens that no `;` or `{` interrupts, `const` or not, `= 0` or not, and `;` or `{`; it declares that type with single blanks, that name, those parameters, and `const` when the word is there |
| Declarations.ParameterExactly | scripts/derive-schema.py:126-130 | the type of a parameter is the shortest start of its text that a name or none and a default or none can follow, and its name is the identifier that does |
| Declarations.ParamSpelled | scripts/derive-schema.py:126-130 | and of a text spelled so these are the type and the name that are read |
| HeaderClass.ParseHeaderClass | scripts/derive-schema.py:193-231 | the whole class parser, with its name filters and kinds, over the lines of a body |
| HeaderClass.ClassExactly | scripts/derive-schema.py:193-231 | what it yields, for every body: in order, one entry for each joined line that stands in a public section, starts with none of the seven texts and is spelled as a method, unless its name is `operator`, `dbObject` or that of the class, or its type is `class` or `struct`; with the single-spaced type, the parameters, `const` and the kind of that spelling |
| ClassBodies.IterClassBodies | scripts/derive-schema.py:85-101 | the branching brace matcher yields for every header the slice that the reference matcher cuts; where the text ends inside the class, that is the rest of the text without its last character |
| ClassBodies.NameableBody | scripts/generate-bindings.py:348-354 | the second, arithmetic brace matcher returns that same slice on every input, unterminated text included |
| ClassBodies.BodyExactly | scripts/derive-schema.py:91-101 | a header is closed at a position if and only if the text up to there is brace-balanced and a closing brace stands there |
| ClassBodies.TerminatedBody | scripts/derive-schema.py:91-101 | the extracted body of a terminated header is balanced and its matching brace comes right after it |
| ClassBodies.NestedOrDisjoint | scripts/derive-schema.py:88-101 | the bodies of two headers never cross: the later one is closed inside the first body, or the first is closed before the later one opens |
| ClassBodies.NestedBodyInside | scripts/derive-schema.py:88-101 | a nested body is a stretch of the outer body, with its braces around it |
| ParamSplit.SplitTop | scripts/derive-schema.py:108-122 | the loop over depth and current piece computes the pieces, a blank last one dropped |
| ParamSplit.ParseParams | scripts/derive-schema.py:104-125 | the whole splitter: blank text and `void` have no parameters, else the stripped pieces |
| ParamSplit.SplitJoinExactly | scripts/derive-schema.py:109-120 | splitting the comma-join of a list gives the list back if and only if no piece hides a comma at depth zero and every piece but the last is closed |
| ParamSplit.JoinSplit | scripts/derive-schema.py:109-122 | for any text at all, joining its pieces gives the text back; after the blank-last rule it still does when the last piece is not blank |
| ParamSplit.ParamsOfJoin | scripts/derive-schema.py:104-125 | through the outer strip, the `void` rule and the blank-last rule, a splittable list comes back stripped |
| ParamSplit.SplitExactly | scripts/derive-schema.py:109-120 | the pieces are the one list that joined with commas is the text, in which a comma inside a piece has more of `<`, `(`, `[` than of `>`, `)`, `]` before it, or fewer, and every piece but the last has as many |
| ParamSplit.ParamsExactly | scripts/derive-schema.py:104-125 | the parameters of any text: none when it is blank or `void`, else those pieces stripped, without the last one when it is blank |
| Names.SnakeExactly | scripts/generate-bindings.py:309-310 | the translation to snake case can be undone by the given inverse for exactly the names that do not start with a capital and have no underscore before a small letter |
| Names.SnakeInjective | scripts/generate-bindings.py:309-310 | two such method names never collide after translation |
| Names.SnakeCollision | scripts/generate-bindings.py:309-310 | outside that spelling two names do collide |
| TargetKeys.KeysOk | scripts/generate-bindings.py:38-180 | every key of the real table is one word, none of them `num`, `nth`, `all`, or one of five compounds |
| Names.NamesCollide | scripts/generate-bindings.py:737 | two generated names of different classes, list prefixes included, are equal if and only if the forms agree, the keys are marker/marker_cat or via/via_params, and the shorter key's field starts with what the longer key adds |
| TargetKeys.KeysDistinct | scripts/generate-bindings.py:38-180 | no two rows of the real table have the same key |
| EmitLaws.DecideOk | scripts/generate-bindings.py:531-964 | whatever one call of a read emitter binds: types agree across the bridge and with the body of the definition, names are new, distinct, unreserved and made of the class key and a field of the method, every wrapper calls an emitted function with that function's own parameters and returns its result, and a registering emitter registers a field that describes that result |
| EmitRuns.AllOrNothing | scripts/generate-bindings.py:531-964 | a call binds at least one new name or leaves every buffer and the seen names untouched, at most counting a skip |
| EmitRuns.RunCounts | scripts/generate-bindings.py:786 | over any sequence of calls the class counts the calls that bound, the skip counter those that were skipped, and with the ones that declined these are all the calls |
| EmitRuns.RunSound | scripts/generate-bindings.py:531-964 | over any sequence of calls, declarations, definitions, bridge entries and re-exports name the same functions in the same order with matching types and well-typed bodies, every wrapper reaches a re-exported function of its parameters and result, and every registry entry a wrapper whose parameters are the entry's keys, kind by kind and in order, and whose result is its value type |
| EmitRuns.NewNamesFresh | scripts/generate-bindings.py:737-739 | over any sequence of calls for a class no function and no wrapper is emitted twice, each carries a field of one of the methods offered, and its plain form avoids both reserved sets |
| EmitRuns.GeneratedSurface | scripts/generate-bindings.py:1000-1018 | the buffers of a whole run are in step and linked; although the seen names are reset for each class, no function is emitted twice, and no wrapper, if and only if in no cousin pair does the shorter key have a field that is the added word and then a field of the longer key, in the same form |
| EmitRuns.SharedExactly | scripts/generate-bindings.py:737 | two classes with different keys have a generated name in common if and only if they are cousins that share a field in that way |
| EmitRuns.ClearHeadersUnique | scripts/generate-bindings.py:1000-1018 | if no method offered for the marker class translates to `cat` or to `cat_` and more, and none for the via class to `params` or to `params_` and more, every function and wrapper of the run is emitted once |
| Registry.BoundIsImplemented | scripts/generate-bindings.py:1376-1382 | what a registering read emitter binds, at any point of any run, is implemented in the end, whatever the write registry holds |
| Registry.UnimplementedDisjoint | scripts/generate-bindings.py:1399-1402 | no unimplemented entry coincides with a registered (class, field) |
| Registry.UnimplementedExactly | scripts/generate-bindings.py:1376-1402 | a method is listed as unimplemented if and only if no registered field of its class is its snake name or extends it by an underscore |
| Registry.ListedExactly | scripts/generate-bindings.py:1376-1402 | what is listed as unimplemented: the class and the snake name of each method of which the class has no entry of that name, nor of that name, an underscore and more |
| Registry.QueryListedUnimplemented | scripts/generate-bindings.py:531-582 | the parameterised reads at the end of any run add nothing to the registry, so such a method is listed as unimplemented if and only if a field of another pass does not cover its name |
| Registry.NewRegsFresh | scripts/generate-bindings.py:909-912 | within a class no two registry entries call the same wrapper, and each wrapper carries its field's name or that of its counter |
| Registry.FieldsExactly | scripts/generate-bindings.py:894-913 | within a class no two registry entries have one field, which would leave the second dispatch arm without effect, if and only if no bound counter of a set meets another bound reader in the field named after the set |
| Registry.FieldsDistinct | scripts/generate-bindings.py:894-913 | what a header can see to: it holds when no set that is counted translates to a field of another method offered |
| Registry.DoubledByName | scripts/generate-bindings.py:894-913 | it fails for a counted set beside a relation of the same name, because the counter does not reserve the method's own name |
| Registry.DoubledByComponent | scripts/generate-bindings.py:841-868 | it fails for a counted set whose name is that of the `x` of a point getter |
| Registry.DoubledByOutParam | scripts/generate-bindings.py:705-731 | it fails for a counted set whose name is that of an out-parameter of another reader |
| WholeRun.EveryMethodOffered | scripts/generate-bindings.py:1003-1023 | each method that `classify` labelled is offered to exactly one of the plain readers, the parameterised reads and the setters; the setters of a read-only class, and nothing else, are offered to none |
| Passes.PassesExactly | scripts/generate-bindings.py:1001-1018 | the calls made for a class, exactly: first the plain readers without parameters, then the `get` methods that are setters or are questions with parameters, then every other method with parameters, each pass in the order of the header, and a question is told whether another method has its name |
| Passes.SettersExactly | scripts/generate-bindings.py:1019-1023 | the setters offered are exactly the methods of that kind, in the order of the header |
| WholeRun.TargetsSurface | scripts/generate-bindings.py:1000-1018 | for the real table and any headers the read buffers are in step and linked, and hold every function and every wrapper once if and only if the marker and via pairs share none |
| WholeRun.TargetsUnique | scripts/generate-bindings.py:1000-1018 | for the real table and any headers in which no method of dbMarker translates to `cat` or starts `cat_` and none of dbVia to `params` or starts `params_`, every function and every wrapper is emitted once |
| WholeRun.CousinsMeet | scripts/generate-bindings.py:1000-1018 | a getter `catId` of dbMarker and a getter `id` of dbMarkerCategory are both emitted as `marker_cat_id` |
| WholeRun.TargetsShareName | scripts/generate-bindings.py:1000-1018 | so there are headers for which the real table emits a name twice |
| WholeRun.SettersUnique | scripts/generate-bindings.py:1019-1023 | over any classes with distinct sound keys the setters stay in step and no setter name is emitted twice, with no exception for the cousin pairs |
| WholeRun.TargetsSetters | scripts/generate-bindings.py:1019-1023 | the same for the real table and any headers |
| WholeRun.SetterIsImplemented | scripts/generate-bindings.py:1376-1382 | a bound setter is implemented in the end, whatever the read registry holds |
| Setters.SetterNamesDistinct | scripts/generate-bindings.py:420-457 | a header none of whose parameter names has the fallback form keeps to that guard for whatever names are to be stayed off and are not offered; with none to stay off, its names are still pairwise different and off the keys |
| Setters.SetterNamesExactly | scripts/generate-bindings.py:420-457 | the flattened parameter names are pairwise different and differ from the keys and from any names they are to stay off if and only if a guard the code lacks would have passed at each parameter: where it falls back, the fallback is not in use yet; where it takes the header's name, that name is not to be stayed off |
| Setters.SetterNamesCollide | scripts/generate-bindings.py:453-454 | they can collide, in every class: parameters `a1` and `type` are emitted as two parameters `a1` |
| Setters.SetterNameIsObject | scripts/generate-bindings.py:469-473 | and a parameter called `p` stands beside the definition's own `p` |
| Setters.SetterNameReserved | scripts/generate-bindings.py:284-287 | and a parameter called `abstract`, which the keyword list lacks, is declared so in Rust |
| SetterTypes.ParamTakes | scripts/generate-bindings.py:290-302 | the argument that a marshalled parameter is given can initialise it if and only if its type has a name the generator knows, is no reference to a variable and no pointer to characters to write to |
| SetterTypes.StringRefMarshalled | scripts/generate-bindings.py:296-297 | a `std::string&` is marshalled although nothing the setter has can initialise it |
| SetterTypes.PointMistaken | scripts/generate-bindings.py:426 | a `tPoint` is marshalled as a point, because the letters of `const` are stripped one by one |
| Setters.CompiledIs | scripts/generate-bindings.py:423-459 | parameter by parameter: the names, types and call arguments of the compiled setter are those of its marshalled parameters, in order |
| SetterRules.SetterExactly | scripts/generate-bindings.py:404-458 | a setter is bound if and only if its name starts with `set` or `clear`, the class does not withhold it, its name is free, and each of its parameters can be passed |
| SetterRules.PassedExactly | scripts/generate-bindings.py:290-302 | a parameter is passed as its type is written: a point as its components, nine scalars and `unsigned` as they are, a string, characters, an enum that is spelled, and an object of a class addressed by one name each as a text; and not at all otherwise |
| SetterRules.StructNameIs | scripts/generate-bindings.py:426-427 | which types are taken for a struct: without blanks, any of the letters of `const`, references, its name, references |
| SetterRules.PointeeIs | scripts/generate-bindings.py:512-515 | which types are taken for a pointer to a database class: the class and one star, with nothing but `const`, references and white space around them |
| SetterRules.NameChosen | scripts/generate-bindings.py:450-455 | the name of a parameter: the header's, in snake case when it is an identifier, unless it is missing, a reserved word of the list, or taken; then `a` and its position |
| SetterRules.PartNameAt | scripts/generate-bindings.py:430-433 | the names of the components of a point: their own, unless taken before; then `a`, the position and the component |
| SetterRules.ChosenAt | scripts/generate-bindings.py:421-455 | every name is chosen with the keys and all the names before it taken |
| SetterRules.DigitsRead | scripts/generate-bindings.py:454 | the position is written in decimal |
| SetterRules.SetterAppends | scripts/generate-bindings.py:469-498 | what a bound setter leaves in the six buffers: one function that returns nothing, its definition on the resolved object, its bridge entry, re-export and wrapper, and an entry under its field |
| SetterLaws.EvalAll | scripts/generate-bindings.py:265-269 | expanding every argument to scalars and rebuilding it at the call site gives back the argument, whatever the parameter list |
| SetterLaws.ArmFeedsInOrder | scripts/generate-bindings.py:485-497 | the arm passes as many arguments as the wrapper, the bridge and the definition take, and after the keys it feeds `values[j]` to the j-th flattened parameter, parsed at the type the bridge gives it |
| SetterLaws.SetterDelivers | scripts/generate-bindings.py:404-498 | end to end: a setter that is bound is legal text in both languages, has no name twice, hides none it calls, initialises every parameter of the method, and, called through the registry, hands it the very arguments the caller meant and the resolver the caller's keys, for exactly the parameter lists at which that guard passes with the text's own names and the reserved words to stay off, and whose types are by value, by constant reference or by pointer |
| SetterLaws.SettersInStep | scripts/generate-bindings.py:469-480 | any sequence of setter calls keeps the six write buffers in step, emits each name once and only unreserved names |
| Emitter.Emit.Add | scripts/generate-bindings.py:733-964 | in place: the buffers, the counters and the seen names become what the plan of a plain reader says, for every kind and return type; and it binds if and only if the method can be read, by the table below |
| Readers.AddExactly | scripts/generate-bindings.py:733-964 | when a zero-argument reader must be bound: its name is free and it returns a value of a type in the table, or a struct with a component whose name is free, or is a list of nameable objects whose three names are free, or one nameable object, or a set of objects of a bound class whose counter is free; of the others it declines those with a taken name and counts the rest as skipped |
| Readers.AddsValue | scripts/generate-bindings.py:804-840 | what is added for a value, by the text of its return type: the type on both sides, the word in the registry and how it is answered, for each scalar, the strings, the characters, the enums that are spelled and the ones a helper spells |
| Readers.AddsTarget | scripts/generate-bindings.py:872-886 | what is added for an object: one reader of its name |
| Readers.AddsList | scripts/generate-bindings.py:758-801 | what is added for a vector or a set of nameable objects: the three functions with their types, one wrapper that gives all the names, and an entry |
| Readers.AddsCount | scripts/generate-bindings.py:888-918 | what is added for a set of objects without a name: the counter alone |
| Readers.AddsComponents | scripts/generate-bindings.py:841-868 | what is added for a struct: for each component, in order, whose name is free, a reader under its suffix with its accessor |
| Readers.Appends | scripts/generate-bindings.py:807-818 | what any plan leaves in the buffers: for each function its declaration with the keys in front, its definition on the resolved object and the method called, its bridge entry and re-export |
| TypeTexts.TargetIs | scripts/generate-bindings.py:748 | which class a pointer type is taken to name |
| TypeTexts.ElemIs | scripts/generate-bindings.py:749 | which class a set type is taken to hold |
| Readings.ValueAnswers | scripts/generate-bindings.py:804-840 | reading the field of a value, through its entry, wrapper and definition, answers what the method returns: a scalar or a text as it is, characters or the empty text, an enum as it or its helper spells it |
| Readings.AbsentAnswers | scripts/generate-bindings.py:804-840 | and zero, false or the empty text when there is no object |
| Readings.TargetAnswers | scripts/generate-bindings.py:872-886 | reading the field of an object answers its name, or the empty text |
| Readings.ListAnswers | scripts/generate-bindings.py:758-801 | reading the field of a list answers all its names in order; the other two functions answer its length and the name at a position |
| Readings.CountAnswers | scripts/generate-bindings.py:888-918 | reading the field of a counted set answers its length |
| Readings.StructAnswers | scripts/generate-bindings.py:841-868 | reading a field and a suffix answers with the accessor of that suffix: `x`, `y` and `z` of points, and the six of a rectangle |
| Emitter.Emit.AddValue | scripts/generate-bindings.py:804-871 | the marshalling branches for values, strings, enums and structs |
| Emitter.Emit.AddStruct | scripts/generate-bindings.py:841-868 | a geometry struct becomes one reader per component whose name is free; none free counts as skipped |
| Emitter.Emit.EmitList | scripts/generate-bindings.py:916-955 | the count, element and list readers of a named collection, or nothing at all if any of the three names is taken |
| Emitter.Emit.EmitCount | scripts/generate-bindings.py:895-913 | the counter alone for a set of unnamed but bound elements |
| Emitter.Emit.EmitSubs | scripts/generate-bindings.py:846-863 | the loop over components binds those with free names, in order, and passes over the others |
| Emitter.Emit.AddQuery | scripts/generate-bindings.py:531-582 | a parameterised read of marshallable parameters |
| QueryRules.QueryExactly | scripts/generate-bindings.py:531-582 | when a parameterised read must be bound: it has parameters, is named `get`, `is` or `has` and a capital, answers a number or a truth value, each parameter is a string, characters, a truth value, a number or an enum of the class that a helper reads, and its name is free |
| QueryRules.QueryAdds | scripts/generate-bindings.py:545-582 | and what is added: its types, and each parameter under its name, with its two types and its conversion, in its place |
| Emitter.Emit.AddVectorOutparamGetter | scripts/generate-bindings.py:584-617 | a vector out-parameter as one list reader |
| Emitter.Emit.AddTableAndMapsGetter | scripts/generate-bindings.py:619-664 | a ragged table and two maps as five readers |
| Emitter.Emit.AddOutparamGetter | scripts/generate-bindings.py:666-731 | the container forms first, then one reader per scalar out-parameter, with a validity reader when the method returns `bool`; it binds if and only if the rule below says so |
| OutReadings.OutExactly | scripts/generate-bindings.py:584-731 | when the reader of what a method writes to its parameters must be bound: the method is a `get` and fills one vector and its name is free, or a table and two maps, or scalars only, and the name of some part is free |
| OutReadings.OutAnswers | scripts/generate-bindings.py:713-731 | reading the field and the name of parameter `i` answers the value that the method writes to that parameter, and zero when there is no object |
| OutReadings.OutTyped | scripts/generate-bindings.py:713-731 | with the types of the scalar that the parameter refers to |
| OutReadings.ValidAnswers | scripts/generate-bindings.py:699-712 | reading the field and `valid` answers what the method returns |
| OutReadings.VectorAnswers | scripts/generate-bindings.py:584-620 | reading the field of a vector answers its numbers, or its pairs flattened, first and second one after the other |
| OutReadings.TableAnswers | scripts/generate-bindings.py:622-664 | reading the five fields of a table and two maps answers the flattened table and the keys and the values of each map, each under its own name |
| OutReadings.TableReadBack | scripts/generate-bindings.py:622-664 | from which the table and the entries of the maps can be read back |
| Emitter.Emit.AddSetter | scripts/generate-bindings.py:404-498 | the write buffers and the seen names after a setter call, bound or refused; it binds if and only if the method can be set, by the rule above |
| Emitter.CompileSetter | scripts/generate-bindings.py:420-459 | the loop that grows `used` and gathers names, types and arguments computes the compiled setter |
| Emitter.Emit.BindClass | scripts/generate-bindings.py:1001-1023 | the three passes of readers and the pass of setters of one class, with their two sets of seen names |
| Emitter.Emit.GenerateAll | scripts/generate-bindings.py:999-1023 | the driving loop over the table produces the whole-run read and write surfaces the laws above speak of |
| QueryScope.QueryNamesExactly | scripts/generate-bindings.py:545-577 | the definition of a parameterised read has no name twice, hides nothing it calls and is legal in both languages if and only if the translated names differ from each other, from the keys, from the text's own names and from the reserved words |
| QueryScope.QueryNamesDistinct | scripts/generate-bindings.py:547-551 | different names in camel case that translate to no keyword stay different |
| QueryScope.QueryRepeatsKey | scripts/generate-bindings.py:545-577 | a parameter called as a key of its class repeats it |
| ApiSurface.DbMethodsExactly | scripts/generate-bindings.py:999-1023 | the wrappers of the readers and those of the setters, which keep separate seen names, form one set of methods without a repetition if and only if no cousin classes share a reader and no reader's field is a setter's, in its own class or, after the added word, in a cousin |
| ApiSurface.TargetsDbUnique | scripts/generate-bindings.py:999-1023 | for the real table that holds when no method offered as a read translates to `set` or `clear` and more, and the marker and via headers keep clear of their cousins |
| ApiSurface.RelationMeetsSetter | scripts/generate-bindings.py:999-1023 | it fails for a relation called as a setter beside that setter |
| MarkedRegion.File.RewriteBlock | scripts/coverage-summary.py:80-89 | a file without exactly one region is refused and left alone; otherwise everything up to and including the begin marker and from the end marker on is kept with the body between, and the file is written only if that differs |
| MarkedRegion.RewritableExactly | scripts/coverage-summary.py:82-83 | a file is rewritten if and only if each of the two marker texts stands in it exactly once and the first one comes first |
| MarkedRegion.RegionOrdered | scripts/coverage-summary.py:82-85 | the guard compares where the markers start, yet it follows that the first ends before the second starts |
| MarkedRegion.WhereMarkers | scripts/coverage-summary.py:86 | no marker occurrence straddles a splice: each lies in the head, in the body or in the tail |
| MarkedRegion.NewRegion | scripts/coverage-summary.py:84-86 | after a rewrite with a marker-free body there is one occurrence of each marker, in order |
| MarkedRegion.RewritableAgain | scripts/coverage-summary.py:82-86 | a rewritten file passes the guard again if and only if the body held neither marker |
| MarkedRegion.LastRewriteWins | scripts/coverage-summary.py:80-89 | a later rewrite fully replaces an earlier one; so rewriting twice with one body is rewriting once |
| Coverage.KindsExactly | scripts/derive-schema.py:134-154 | which kind every method gets, by the text of its type and the start of its name: a set, a pointer to a database class, a change, a question, a getter, or none of these |
| Coverage.Totals | scripts/derive-schema.py:261-262 | the method and bridged totals count every method of every class |
| Coverage.Stats | scripts/coverage-summary.py:39-48 | the counters agree at every kind with the tally of all methods, and the gap list with each class |
| Coverage.Partition | scripts/coverage-summary.py:58-71 | the six kinds partition the methods and the bridged methods, and no kind has more bound than it has |
| Coverage.CoverageConserved | scripts/coverage-summary.py:52-71 | for any schema the read kinds, setters and others sum to the stated totals and the class gaps sum to their difference |
| FlatTable.SpacingTable | src/generated.cc:988 | the emitted loop writes the flat encoding of the table |
| FlatTable.DecodeEncode | scripts/generate-bindings.py:641-643 | decoding an encoding followed by any suffix returns the table and that suffix if and only if every size fits in 32 bits |
| FlatTable.PrefixFree | scripts/generate-bindings.py:641-643 | no encoding is a proper start of another |
| FlatTable.MapNames | src/generated.cc:989 | the names of a map in its own order |
| FlatTable.MapIndexes | src/generated.cc:990 | its values in the same order |
| FlatTable.EverythingRecovered | src/generated.cc:988-992 | the five readers together give back the table and both maps |
| FlatTable.SizeWraps | scripts/generate-bindings.py:642 | a table of 2^32 rows is announced as having none |
| Listing.Num | src/generated.cc:15 | the length, zero without an object |
| Listing.NthOfSet | src/generated.cc:16 | the element at a position, empty from the length on, after visiting one more element than the position |
| Listing.NthOfVector | src/generated.cc:61 | the same over a copied vector, at the cost of the whole vector |
| Listing.All | src/generated.cc:17 | the whole list, each element visited once: the result has the counted length and at each position what the element reader returns |
| Listing.ByElementOfSet | scripts/generate-bindings.py:776-779 | building the list element by element from a set gives the same list after n(n+1)/2 visits |
| Listing.ByElementOfVector | scripts/generate-bindings.py:776-779 | and from a vector after n*n |
| Listing.Walk | src/generated_resolvers.h:72-77 | a counting walk returns the element at the position, or none from the length on |
| Listing.SBox | src/generated_resolvers.h:132-134 | a box is found if and only if the net exists and both positions are in range, and it is the box at those positions |
| MarkerPath.GenMarkerCat | src/generated_resolvers.h:78-97 | the loop terminates on every path and resolves it as the reference does: split at slashes, block then chip for the first component, child lookup from there on; once the block has the first component the chip is never tried |
| MarkerPath.SplitJoin | src/generated_resolvers.h:81-84 | splitting undoes joining for slash-free components, empty ones included |
| MarkerPath.ResolveExactly | src/generated_resolvers.h:78-97 | among well-named categories the slash path of a category resolves to it if and only if the path is not empty and the root is not shadowed by the block |
| SourceCache.Workspace.SourceTree | build.rs:174-212 | the answer and the whole workspace after a build whose fetch may be killed after any command |
| SourceCache.Workspace.FetchOpenroad | build.rs:233-258 | the cached tree after each of the commands that were let run |
| SourceCache.AnswersExactly | build.rs:174-212 | from any state, the answer exactly: the vendor tree if and only if it has its header and is no repository of its own, or one at the pin or without a commit; the cached tree if and only if there is no vendor tree and it is at the pin, or the fetch that is due gets through; otherwise the build stops |
| SourceCache.FreshFromAnywhere | build.rs:174-212 | from any state, a build that succeeds uses a vendor tree that is no checkout root of another commit, or the cached tree with HEAD at the pin; the cache is fetched if and only if no vendor tree stands in and it is not at the pin |
| SourceCache.CachedFilesAtPin | build.rs:174-258 | over every run of pin changes, builds and fetches killed anywhere, a build from the cache compiles exactly the files of the pin if and only if no event of the run killed a checkout half way |
| SourceCache.AlwaysHeals | build.rs:204-258 | after any run a build that is let run ends with the pin's files, the remote having the pin and no vendor tree being in the way, if and only if no event of the run killed a checkout half way |
| SourceCache.FilesExactly | build.rs:204-258 | over every run the cached tree is a mixture of two commits if and only if an event killed a checkout half way, and otherwise has no files or exactly those its HEAD names |
| SourceCache.TornTreeUsed | build.rs:204-211 | and such a mixture can be taken as fresh: HEAD alone does not show it |
| SourceCache.EnclosingIrrelevant | build_support/tree_sha.rs:5-29 | two runs whose enclosing repositories differ in any way, at any time, answer every build alike |
| SourceCache.BareHeadMisleads | build_support/tree_sha.rs:7-11 | the check of the top level changes the outcome exactly for a tree without a repository of its own: a vendor tree under another HEAD, which bare HEAD would refuse, and a cached tree under the pin, which bare HEAD would take as fresh |
| EcoFixture.Database.AddPorts | test/make-eco-fixture.cpp:119-129 | one new net and terminal per port |
| EcoFixture.Database.AddInstances | test/make-eco-fixture.cpp:131-157 | it succeeds if and only if every master and pin is known, blames the first unknown one otherwise, and leaves exactly the nets, placements and connections of the list |
| EcoFixture.Database.ConnectPins | test/make-eco-fixture.cpp:145-156 | one instance: nets found or created, pins connected, stopping at the first unknown pin |
| EcoFixture.WriteVerilog | test/make-eco-fixture.cpp:188-194 | one statement per definition with its connections in order |
| EcoFixture.NetsOnce | test/make-eco-fixture.cpp:145-149 | every net name is created once, and the names are the ports' and the connections' |
| EcoFixture.FormsAgreeExactly | test/make-eco-fixture.cpp:118-194 | database and netlist state the same (instance, pin, net) triples if and only if no pin of an instance is given two nets |
| EcoFixture.DistinctPinsAgree | test/make-eco-fixture.cpp:118-194 | distinct instances with distinct pins are such a list |
| EcoFixture.DesignWires | test/make-eco-fixture.cpp:110-116 | the shipped list agrees, and the nets it adds to the ports are the two wires the netlist declares by hand |

## Left out

- SetterLaws.SetterDelivers: of the names a definition uses, its own parameters, `db`, `h`, `p`, the resolver, the conversion functions and the reserved words; a parameter named like a type of the headers or of the bridge is not modelled. The parse of a value string is a given function, and a db pointer counts as its name; what the resolver does with a name it does not know is the library's.
- SetterTypes.ParamTakes: a type is one name, qualified or not, with `const`, stars and references around it and white space between these; a qualified name with white space inside it is not.
- Regular expressions: the class-header pattern and the out-parameter patterns are given by their results, and header positions are an input; the driver's reading of reserved names from two Rust files is an input too.
- Unicode: letters, digits and capitals are the ASCII ones, so `\w`, `lower` and `isupper` on other letters are not modelled; white space and line breaks are Python's full sets.
- The text of the generated C++ and Rust, banners, discovery strings and the order of files: a function is a record of its name, types and body form.
- The flag on an unimplemented entry that says the hand-written layer has it, and the sorted order of the list.
- A class of the table that the header lacks: the run stops before emitting anything.
- The order in which a Python set or dictionary prints; the table is in its written order.
- SourceCache.AlwaysHeals: git's lock files, a clone killed half way through (rather than before or after), and a missing git are not modelled; every commit has the header and the two directories of the cone.
- SourceCache.FilesExactly: git is taken to refuse a checkout over a half-written tree, so nothing but removing the cache clears a mixture.
- MarkerPath.GenMarkerCat: a name with a NUL character, which the C string would cut, is not modelled.
- EcoFixture.Database.AddPorts: port names are required to be new; the source does not look at the result of a second creation of a net, and what the library returns for one is not in this repository.
- EcoFixture.Database.AddInstances: instance names are required to be distinct; the source does not look at the result of a second creation of an instance, and what the library returns for one is not in this repository.
- The parts of the fixture's netlist that are written by hand (ports, wires, header), clock marking of a port, and the master library's contents beyond pin names.
- The ten largest gaps, percentages and table text of the coverage summary.
- Archive ordering, link flags and pin-file parsing in the build script; file reads and writes; the drivers and probes.
- libodb itself: orientation, the unfolded model, the 3D checker and the `.odb` format are not part of this model.
