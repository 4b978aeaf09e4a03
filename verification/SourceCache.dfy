/** `tree_sha`, `source_tree` and `fetch_openroad`: a source tree cached by identity. */
module SourceCache {
  import opened Options

  type Sha = nat

  // ---- directories and git -------------------------------------------------------------------

  /** A repository: the commit its HEAD names, the commits it has objects for, and whether its
      checkout is restricted to the wanted directories. */
  datatype Repo = Repo(head: Option<Sha>, objects: set<Sha>, sparse: bool)

  /** The files of a working tree: none, those of one commit, or a mixture left by a checkout that was
      killed half way, with or without `db.h` among them. Every commit has `db.h`. */
  datatype Files = NoFiles | FilesAt(sha: Sha) | Mixed(header: bool)

  datatype Dir = Absent | Dir(repo: Option<Repo>, files: Files) {
    predicate HasHeader() {
      Dir? && (files.FilesAt? || (files.Mixed? && files.header))
    }

    predicate HasGit() {
      Dir? && repo.Some?
    }

    function Head(): Option<Sha> {
      if HasGit() then repo.value.head else None
    }
  }

  /** `git -C dir rev-parse --show-toplevel`: git walks up to the nearest repository. */
  datatype Top = NoTop | Itself | Above

  function ShowToplevel(dir: Dir, enclosing: Option<Sha>): Top {
    if dir.Absent? then NoTop else if dir.repo.Some? then Itself else if enclosing.Some? then Above else NoTop
  }

  /** `git -C dir rev-parse HEAD`: the HEAD of that nearest repository, whichever it is. */
  function RevParseHead(dir: Dir, enclosing: Option<Sha>): Option<Sha> {
    match ShowToplevel(dir, enclosing)
    case NoTop => None
    case Itself => dir.repo.value.head
    case Above => enclosing
  }

  /** `tree_sha`: HEAD is believed only when the top level is the directory itself. */
  function TreeSha(dir: Dir, enclosing: Option<Sha>): Option<Sha> {
    if ShowToplevel(dir, enclosing) != Itself then None else RevParseHead(dir, enclosing)
  }

  // ---- fetching ------------------------------------------------------------------------------

  /** What the network offers: the commits of the remote and its default branch. */
  datatype Remote = Remote(commits: set<Sha>, branch: Sha)

  datatype Fetched = Fetched(dest: Dir, ok: bool)

  function Made(dest: Dir): Dir {
    if dest.Absent? then Dir(None, NoFiles) else dest
  }

  /** Fetch the exact commit, restrict the checkout, check it out; `steps` commands are let run. */
  function Update(net: Remote, pin: Sha, dest: Dir, steps: nat): Fetched
    requires dest.HasGit()
  {
    var r := dest.repo.value;
    if steps < 1 || pin !in net.commits then Fetched(dest, false)
    else
      var fetched := r.(objects := r.objects + {pin});
      if steps < 2 then Fetched(dest.(repo := Some(fetched)), false)
      else
        var sparse := fetched.(sparse := true);
        // git refuses to check out over a half-written tree
        if steps < 3 || dest.files.Mixed? then Fetched(dest.(repo := Some(sparse)), false)
        else Fetched(Dir(Some(sparse.(head := Some(pin))), FilesAt(pin)), true)
  }

  /** `fetch_openroad`, let run for `steps` steps: a clone first if there is no repository yet. */
  function Fetch(net: Remote, pin: Sha, dest: Dir, steps: nat): Fetched {
    if dest.HasGit() then Update(net, pin, dest, steps)
    else if steps < 1 then Fetched(dest, false)
    else
      var made := Made(dest);
      // git refuses to clone into a directory that holds files
      if steps < 2 || made.files != NoFiles then Fetched(made, false)
      else Update(net, pin, Dir(Some(Repo(Some(net.branch), {net.branch}, false)), NoFiles), steps - 2)
  }

  // ---- the choice of a tree --------------------------------------------------------------------

  datatype Answer = VendorTree | CachedTree | Panic

  datatype State = State(pin: Sha, vendor: Dir, dest: Dir, enclosing: Option<Sha>, fetches: nat)

  /** The decision, given what is taken for the commits of the vendor tree and of the cached tree. */
  function AnsweredBy(s: State, net: Remote, steps: nat, vendorSha: Option<Sha>, destSha: Option<Sha>)
    : (Answer, State)
  {
    if s.vendor.HasHeader() then
      (if vendorSha.Some? && vendorSha.value != s.pin then Panic else VendorTree, s)
    else if s.dest.HasHeader() && destSha == Some(s.pin) then (CachedTree, s)
    else
      var f := Fetch(net, s.pin, s.dest, steps);
      (if f.ok then CachedTree else Panic, s.(dest := f.dest, fetches := s.fetches + 1))
  }

  function Answered(s: State, net: Remote, steps: nat): (Answer, State) {
    AnsweredBy(s, net, steps, TreeSha(s.vendor, s.enclosing), TreeSha(s.dest, s.enclosing))
  }

  /** A build reaches `fetch_openroad`. */
  predicate Fetches(s: State) {
    !s.vendor.HasHeader() && !(s.dest.HasHeader() && TreeSha(s.dest, s.enclosing) == Some(s.pin))
  }

  class Workspace {
    var pin: Sha
    var vendor: Dir
    var dest: Dir
    var enclosing: Option<Sha>
    var fetches: nat

    function Now(): State
      reads this
    {
      State(pin, vendor, dest, enclosing, fetches)
    }

    constructor (pin: Sha, vendor: Dir, enclosing: Option<Sha>)
      ensures Now() == State(pin, vendor, Absent, enclosing, 0)
    {
      this.pin, this.vendor, this.enclosing := pin, vendor, enclosing;
      dest, fetches := Absent, 0;
    }

    /** `source_tree`. A fetch that is killed after `steps` commands, or that fails, ends the build. */
    method SourceTree(net: Remote, steps: nat) returns (a: Answer)
      modifies this
      ensures (a, Now()) == Answered(old(Now()), net, steps)
    {
      var sha := pin;
      if vendor.HasHeader() {
        var got := TreeSha(vendor, enclosing);
        if got.Some? && got.value != sha {
          return Panic;
        }
        return VendorTree;
      }
      var stale := dest.HasHeader() && TreeSha(dest, enclosing) != Some(sha);
      if !dest.HasHeader() || stale {
        fetches := fetches + 1;
        var ok := FetchOpenroad(net, steps);
        if !ok {
          return Panic;
        }
      }
      return CachedTree;
    }

    /** `fetch_openroad`: every step leaves its mark on the cached tree before the next one runs. */
    method FetchOpenroad(net: Remote, steps: nat) returns (ok: bool)
      modifies this`dest
      ensures Fetched(dest, ok) == Fetch(net, pin, old(dest), steps)
    {
      var left := steps;
      if !dest.HasGit() {
        if left == 0 {
          return false;
        }
        dest := Made(dest);
        left := left - 1;
        if left == 0 || dest.files != NoFiles {
          return false;
        }
        dest := Dir(Some(Repo(Some(net.branch), {net.branch}, false)), NoFiles);
        left := left - 1;
      }
      if left == 0 || pin !in net.commits {
        return false;
      }
      var r := dest.repo.value;
      dest := dest.(repo := Some(r.(objects := r.objects + {pin})));
      left := left - 1;
      if left == 0 {
        return false;
      }
      r := dest.repo.value;
      dest := dest.(repo := Some(r.(sparse := true)));
      left := left - 1;
      if left == 0 || dest.files.Mixed? {
        return false;
      }
      r := dest.repo.value;
      dest := Dir(Some(r.(head := Some(pin))), FilesAt(pin));
      return true;
    }
  }

  // ---- one build -------------------------------------------------------------------------------

  lemma {:induction false} FetchedTree(net: Remote, pin: Sha, dest: Dir, steps: nat)
    requires Fetch(net, pin, dest, steps).ok
    ensures var d := Fetch(net, pin, dest, steps).dest;
            d.Head() == Some(pin) && d.files == FilesAt(pin) && d.repo.value.sparse && pin in d.repo.value.objects
  {
  }

  /** From any state at all, a build that succeeds uses either a vendor tree that is not a checkout
      root of its own or one whose HEAD is the pin, or the cached tree with its HEAD at the pin. The
      cached tree is fetched if and only if there is no vendor tree and it is not at the pin already;
      otherwise nothing changes. */
  lemma {:induction false} FreshFromAnywhere(s: State, net: Remote, steps: nat)
    ensures var (a, t) := Answered(s, net, steps);
            && (a == VendorTree ==>
                  s.vendor.HasHeader() && (!s.vendor.HasGit() || s.vendor.Head() in {None, Some(s.pin)}))
            && (a == CachedTree ==>
                  !s.vendor.HasHeader() && t.dest.HasHeader() && t.dest.HasGit() && t.dest.Head() == Some(t.pin))
            && (t.fetches == s.fetches + 1 <==>
                  !s.vendor.HasHeader() && !(s.dest.HasHeader() && s.dest.HasGit() && s.dest.Head() == Some(s.pin)))
            && (t.fetches == s.fetches ==> t == s)
            && t.pin == s.pin && t.vendor == s.vendor && t.enclosing == s.enclosing
  {
    if Fetches(s) && Fetch(net, s.pin, s.dest, steps).ok {
      FetchedTree(net, s.pin, s.dest, steps);
    }
  }

  /** A fetch let run for that many commands succeeds: the remote has the commit, and a repository that is
      there holds no mixture, or one can be cloned, because no files are in the way. */
  predicate FetchGoes(net: Remote, pin: Sha, dest: Dir, steps: nat) {
    && pin in net.commits
    && match dest
       case Absent => steps >= 5
       case Dir(None, files) => steps >= 5 && files == NoFiles
       case Dir(Some(_), files) => steps >= 3 && !files.Mixed?
  }

  /** The answer of a build, exactly: the vendor tree when it has its header and is no repository, or one
      with no commit, or one at the pin; the cached tree when there is no vendor tree and it is at the pin,
      or the fetch that it is not at the pin calls for succeeds; otherwise the build stops. */
  lemma {:induction false} AnswersExactly(s: State, net: Remote, steps: nat)
    ensures Answered(s, net, steps).0 == VendorTree
       <==> s.vendor.HasHeader() && (s.vendor.repo.None? || s.vendor.repo.value.head in {None, Some(s.pin)})
    ensures Answered(s, net, steps).0 == CachedTree
       <==> && !s.vendor.HasHeader()
            && (|| (s.dest.HasHeader() && s.dest.repo.Some? && s.dest.repo.value.head == Some(s.pin))
                || FetchGoes(net, s.pin, s.dest, steps))
  {
    FetchExactly(net, s.pin, s.dest, steps);
    TreeShaIs(s.vendor, s.enclosing);
    TreeShaIs(s.dest, s.enclosing);
    hide Fetch, FetchGoes, TreeSha;
    assert s.vendor.HasHeader() ==> s.vendor.Dir?;
    assert s.dest.HasHeader() ==> s.dest.Dir?;
  }

  lemma {:induction false} TreeShaIs(d: Dir, enclosing: Option<Sha>)
    ensures TreeSha(d, enclosing) == if d.Dir? && d.repo.Some? then d.repo.value.head else None
  {
  }

  lemma {:induction false} FetchExactly(net: Remote, pin: Sha, dest: Dir, steps: nat)
    ensures Fetch(net, pin, dest, steps).ok <==> FetchGoes(net, pin, dest, steps)
  {
  }

  // ---- runs --------------------------------------------------------------------------------------

  /** What can happen: the pin moves, the vendor tree or the enclosing repository changes, a build runs
      and is killed after `steps` commands, or a build is killed inside a checkout. */
  datatype Event = Repin(pin: Sha) | Vendor(dir: Dir) | Enclose(head: Option<Sha>) | BuildFor(steps: nat)
      | Torn(header: bool)

  function Next(s: State, net: Remote, e: Event): State {
    match e
    case Repin(pin) => s.(pin := pin)
    case Vendor(dir) => s.(vendor := dir)
    case Enclose(head) => s.(enclosing := head)
    case BuildFor(steps) => Answered(s, net, steps).1
    case Torn(header) =>
      if Tears(s, net) then
        s.(dest := Halfway(s, net).(files := Mixed(header)), fetches := s.fetches + 1)
      else Answered(s, net, ALL_STEPS).1
  }

  /** As many commands as a fetch ever runs. */
  const ALL_STEPS := 5

  /** A build here gets as far as the checkout. */
  predicate Tears(s: State, net: Remote) {
    Fetches(s) && Fetch(net, s.pin, s.dest, ALL_STEPS).ok
  }

  /** The cached tree when its checkout starts: every command but the last has run. */
  function Halfway(s: State, net: Remote): (d: Dir)
    requires Tears(s, net)
    ensures d.HasGit()
  {
    Fetch(net, s.pin, s.dest, if s.dest.HasGit() then 2 else 4).dest
  }

  function RunEvents(s: State, net: Remote, es: seq<Event>): State
    decreases |es|
  {
    if es == [] then s else RunEvents(Next(s, net, es[0]), net, es[1..])
  }

  /** Some event of the run tore a checkout. */
  predicate TornIn(s: State, net: Remote, es: seq<Event>)
    decreases |es|
  {
    es != [] && ((es[0].Torn? && Tears(s, net)) || TornIn(Next(s, net, es[0]), net, es[1..]))
  }

  /** The cached tree has no files, or exactly those its HEAD names, restricted as wanted. */
  predicate Tidied(d: Dir) {
    match d
    case Absent => true
    case Dir(repo, NoFiles) => true
    case Dir(repo, FilesAt(sha)) => repo.Some? && repo.value.head == Some(sha) && repo.value.sparse
    case Dir(_, Mixed(_)) => false
  }

  lemma {:induction false} UpdateClean(net: Remote, pin: Sha, dest: Dir, steps: nat)
    requires dest.HasGit() && Tidied(dest)
    ensures Tidied(Update(net, pin, dest, steps).dest)
  {
  }

  lemma {:induction false} FetchClean(net: Remote, pin: Sha, dest: Dir, steps: nat)
    requires Tidied(dest)
    ensures Tidied(Fetch(net, pin, dest, steps).dest)
  {
    if dest.HasGit() {
      UpdateClean(net, pin, dest, steps);
    } else if steps >= 2 && Made(dest).files == NoFiles {
      UpdateClean(net, pin, Dir(Some(Repo(Some(net.branch), {net.branch}, false)), NoFiles), steps - 2);
    }
  }

  predicate Mixture(d: Dir) {
    d.HasGit() && d.files.Mixed?
  }

  lemma {:induction false} MixtureStays(net: Remote, pin: Sha, dest: Dir, steps: nat)
    requires Mixture(dest)
    ensures !Fetch(net, pin, dest, steps).ok && Mixture(Fetch(net, pin, dest, steps).dest)
  {
  }

  lemma {:induction false} NextExactly(s: State, net: Remote, e: Event)
    requires Tidied(s.dest) || Mixture(s.dest)
    ensures var t := Next(s, net, e).dest;
            if Mixture(s.dest) || (e.Torn? && Tears(s, net)) then Mixture(t) else Tidied(t)
    ensures Mixture(s.dest) ==> !Tears(s, net)
  {
    if Mixture(s.dest) {
      MixtureStays(net, s.pin, s.dest, ALL_STEPS);
    }
    if e.BuildFor? || e.Torn? {
      var steps := if e.BuildFor? then e.steps else ALL_STEPS;
      if Mixture(s.dest) {
        MixtureStays(net, s.pin, s.dest, steps);
      } else {
        FetchClean(net, s.pin, s.dest, steps);
      }
    }
  }

  lemma {:induction false} RunExactly(s: State, net: Remote, es: seq<Event>)
    requires Tidied(s.dest) || Mixture(s.dest)
    ensures if Mixture(s.dest)
              || TornIn(s, net, es) then Mixture(RunEvents(s, net, es).dest) else Tidied(RunEvents(s, net, es).dest)
    decreases |es|
  {
    hide Tidied, Mixture, Next, Tears;
    if es != [] {
      NextExactly(s, net, es[0]);
      CleanOrMixed(s.dest);
      CleanOrMixed(Next(s, net, es[0]).dest);
      RunExactly(Next(s, net, es[0]), net, es[1..]);
    }
  }

  lemma {:induction false} CleanOrMixed(d: Dir)
    ensures !(Tidied(d) && Mixture(d))
  {
  }

  predicate Initial(s: State) {
    s.dest.Absent?
  }

  /** Over every run the cached tree is a mixture of two commits if and only if some event of the run
      tore a checkout, and without one its files are those its HEAD names. */
  lemma {:induction false} FilesExactly(s: State, net: Remote, es: seq<Event>)
    requires Initial(s)
    ensures var d := RunEvents(s, net, es).dest; if TornIn(s, net, es) then Mixture(d) else Tidied(d)
    ensures var d := RunEvents(s, net, es).dest; d.Dir? && d.files.Mixed? <==> TornIn(s, net, es)
  {
    hide RunEvents, TornIn;
    RunExactly(s, net, es);
  }

  /** Over every run, with builds killed anywhere, a build that uses the cached tree compiles exactly
      the files of the current pin if and only if no event of the run tore a checkout. */
  lemma {:induction false} CachedFilesAtPin(s: State, net: Remote, es: seq<Event>, steps: nat)
    requires Initial(s)
    ensures var (a, t) := Answered(RunEvents(s, net, es), net, steps);
            a == CachedTree ==>
              (t.dest.files == FilesAt(t.pin) && t.dest.repo.value.sparse <==> !TornIn(s, net, es))
  {
    FilesExactly(s, net, es);
    var u := RunEvents(s, net, es);
    hide RunEvents, TornIn;
    FreshFromAnywhere(u, net, steps);
    if Mixture(u.dest) {
      MixtureStays(net, u.pin, u.dest, steps);
    } else {
      FetchClean(net, u.pin, u.dest, steps);
    }
  }

  /** After any run, when the remote has the pin and no vendor tree is in the way, a build that is let
      run ends with the pin's files if and only if no event of the run tore a checkout: killing a fetch
      between two commands never leaves the cache beyond repair, killing a checkout always does. */
  lemma {:induction false} AlwaysHeals(s: State, net: Remote, es: seq<Event>, steps: nat)
    requires Initial(s) && steps >= ALL_STEPS
    requires RunEvents(s, net, es).pin in net.commits && !RunEvents(s, net, es).vendor.HasHeader()
    ensures var (a, t) := Answered(RunEvents(s, net, es), net, steps);
            a == CachedTree && t.dest.files == FilesAt(t.pin) <==> !TornIn(s, net, es)
  {
    CachedFilesAtPin(s, net, es, steps);
    FilesExactly(s, net, es);
  }

  /** It happens: a checkout of a new pin is killed half way, the pin is moved back, and the mixture is
      used as fresh, because HEAD still names the old pin. */
  lemma {:induction false} TornTreeUsed(net: Remote, first: Sha, second: Sha)
    requires first != second && {first, second} <= net.commits
    ensures var s := State(first, Absent, Absent, None, 0);
            var es := [BuildFor(5), Repin(second), Torn(true), Repin(first)];
            var (a, t) := Answered(RunEvents(s, net, es), net, 0);
            a == CachedTree && t.dest.files == Mixed(true)
  {
    var s := State(first, Absent, Absent, None, 0);
    var es := [BuildFor(5), Repin(second), Torn(true), Repin(first)];
    FetchedTree(net, first, Absent, 5);
    var built := Next(s, net, es[0]);
    assert built.dest == Fetch(net, first, Absent, 5).dest && built.dest.Head() == Some(first);
    var moved := built.(pin := second);
    var torn := Next(moved, net, Torn(true));
    assert Tears(moved, net) && torn.dest.Head() == Some(first) && torn.dest.files == Mixed(true);
    assert es[1..] == [Repin(second), Torn(true), Repin(first)];
    assert es[1..][1..] == [Torn(true), Repin(first)];
    assert es[1..][1..][1..] == [Repin(first)];
    assert [Repin(first)][1..] == [];
    assert RunEvents(torn, net, [Repin(first)]) == torn.(pin := first);
    assert RunEvents(s, net, es) == torn.(pin := first) by {
      assert RunEvents(built, net, es[1..]) == RunEvents(moved, net, es[1..][1..]);
    }
  }

  // ---- the enclosing repository --------------------------------------------------------------------

  predicate SameButEnclosing(s: State, t: State) {
    s.(enclosing := None) == t.(enclosing := None)
  }

  predicate SameEvents(es: seq<Event>, fs: seq<Event>) {
    |es| == |fs| && forall i | 0 <= i < |es| :: es[i] == fs[i] || (es[i].Enclose? && fs[i].Enclose?)
  }

  /** No answer and no tree ever depends on the repository that encloses the build: two runs whose
      enclosing HEADs differ in any way, at any time, answer every build alike. */
  lemma {:induction false} EnclosingIrrelevant(s: State, t: State, net: Remote, es: seq<Event>, fs: seq<Event>,
                                               steps: nat)
    requires SameButEnclosing(s, t) && SameEvents(es, fs)
    ensures SameButEnclosing(RunEvents(s, net, es), RunEvents(t, net, fs))
    ensures Answered(RunEvents(s, net, es), net, steps).0 == Answered(RunEvents(t, net, fs), net, steps).0
    decreases |es|
  {
    assert s == t.(enclosing := s.enclosing);
    if es != [] {
      assert es[0] == fs[0] || (es[0].Enclose? && fs[0].Enclose?);
      assert forall i | 0 <= i < |es| - 1 :: es[1..][i] == es[i + 1] && fs[1..][i] == fs[i + 1];
      var u, v := Next(s, net, es[0]), Next(t, net, fs[0]);
      assert u == v.(enclosing := u.enclosing);
      EnclosingIrrelevant(u, v, net, es[1..], fs[1..], steps);
    }
  }

  /** What a build that believed `rev-parse HEAD` alone would do. */
  function AnsweredBare(s: State, net: Remote, steps: nat): (Answer, State) {
    AnsweredBy(s, net, steps, RevParseHead(s.vendor, s.enclosing), RevParseHead(s.dest, s.enclosing))
  }

  /** Checking the top level changes the outcome in exactly two cases, both of a tree without a
      repository of its own: a vendor tree, which the HEAD of the enclosing repository would have
      refused, and a cached tree, which that HEAD, were it the pin, would have passed as fresh. */
  lemma {:induction false} BareHeadMisleads(s: State, net: Remote, steps: nat)
    ensures AnsweredBare(s, net, steps) != Answered(s, net, steps)
       <==> if s.vendor.HasHeader() then !s.vendor.HasGit() && s.enclosing.Some? && s.enclosing.value != s.pin
            else s.dest.HasHeader() && !s.dest.HasGit() && s.enclosing == Some(s.pin)
  {
    if !s.vendor.HasHeader() && s.dest.HasHeader() && !s.dest.HasGit() {
      assert !Fetch(net, s.pin, s.dest, steps).ok;
    }
  }
}
