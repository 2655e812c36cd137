/**
  The object-class loader of the server adaptor. Classes live in a map that only grows; loading
  one loads its missing dependencies first, recursively. A class library names its own
  dependencies; which libraries can be opened is decided per call, so a load that failed may
  succeed when it is tried again.

  A pointer to class data is modelled by the name of the class, the key of the map.
 */
module ClassLoader {

  const EPERM: int := 1

  datatype Status = Unknown | Missing | MissingDeps | Initializing | Open

  /** `embedded` marks a class that was added without a library. */
  datatype ClassData = ClassData(status: Status, dependencies: set<string>, missingDependencies: set<string>,
                                 embedded: bool)

  type Classes = map<string, ClassData>

  const FRESH := ClassData(Unknown, {}, {}, false)

  /** `deps` is what each library declares; `rank` witnesses that the relation has no cycle. */
  ghost predicate Acyclic(deps: string -> seq<string>, rank: string -> nat) {
    forall n, d :: d in deps(n) ==> rank(d) < rank(n)
  }

  function DataOf(cs: Classes, n: string): ClassData {
    if n in cs then cs[n] else FRESH
  }

  /** What every state between two operations satisfies. */
  ghost predicate Inv(cs: Classes, deps: string -> seq<string>) {
    forall n :: n in cs ==> ClassOk(cs, deps, n)
  }

  ghost predicate ClassOk(cs: Classes, deps: string -> seq<string>, n: string)
    requires n in cs
  {
    var c := cs[n];
    && c.missingDependencies <= c.dependencies
    && (c.status.Open? ==> c.missingDependencies == {})
    && (forall d :: d in c.dependencies ==>
          d in deps(n) && d in cs && (d in c.missingDependencies || cs[d].status.Open?))
    && (c.status.Unknown? || c.status.Missing? || AllRecorded(c, deps, n))
  }

  /** What the library of a class declares has been recorded, if it has a library. */
  ghost predicate AllRecorded(c: ClassData, deps: string -> seq<string>, n: string) {
    c.embedded || forall d :: d in deps(n) ==> d in c.dependencies
  }

  ghost predicate DepPath(deps: string -> seq<string>, path: seq<string>) {
    path != [] && forall i :: 0 <= i < |path| - 1 ==> path[i + 1] in deps(path[i])
  }

  function Last(path: seq<string>): string
    requires path != []
  {
    path[|path| - 1]
  }

  /** Only the last class of the path may be one without a library. */
  predicate ThroughLibraries(cs: Classes, path: seq<string>) {
    forall i :: 0 <= i < |path| - 1 ==> !DataOf(cs, path[i]).embedded
  }

  /** Every class that libraries declare below `n`, however deep, is open. */
  ghost predicate OpenBelow(cs: Classes, deps: string -> seq<string>, n: string) {
    forall path :: DepPath(deps, path) && path[0] == n && ThroughLibraries(cs, path) ==> DataOf(cs, Last(path)).status.Open?
  }

  lemma {:induction false} OpenAlong(cs: Classes, deps: string -> seq<string>, path: seq<string>)
    requires Inv(cs, deps) && DepPath(deps, path) && ThroughLibraries(cs, path) && DataOf(cs, path[0]).status.Open?
    ensures DataOf(cs, Last(path)).status.Open?
  {
    if |path| > 1 {
      assert ClassOk(cs, deps, path[0]) && !DataOf(cs, path[0]).embedded;
      assert path[0 + 1] in deps(path[0]) && path[1] in cs[path[0]].dependencies;
      assert forall i :: 0 <= i < |path[1..]| ==> path[1..][i] == path[i + 1];
      OpenAlong(cs, deps, path[1..]);
    }
  }

  /** A class that is open stands on open classes only, all the way down. */
  lemma OpenAllTheWay(cs: Classes, deps: string -> seq<string>, n: string)
    requires Inv(cs, deps) && DataOf(cs, n).status.Open?
    ensures OpenBelow(cs, deps, n)
  {
    forall path | DepPath(deps, path) && path[0] == n && ThroughLibraries(cs, path)
      ensures DataOf(cs, Last(path)).status.Open?
    {
      OpenAlong(cs, deps, path);
    }
  }

  /** Whether a class can be brought up from state `cs` when exactly the libraries on `disk` open. */
  ghost predicate Loadable(cs: Classes, disk: set<string>, deps: string -> seq<string>, rank: string -> nat, n: string)
    requires Acyclic(deps, rank) && Inv(cs, deps)
    decreases rank(n)
  {
    var c := DataOf(cs, n);
    assert n in cs ==> ClassOk(cs, deps, n);
    match c.status
    case Open => true
    case MissingDeps | Initializing =>
      forall d :: d in c.missingDependencies ==> rank(d) < rank(n) && Loadable(cs, disk, deps, rank, d)
    case Unknown | Missing =>
      && n in disk && (forall d :: d in deps(n) ==> Loadable(cs, disk, deps, rank, d))
  }

  /** Loading `n` from state `cs` asks for `d`: nothing if open, what is missing of a half-loaded class, else all it declares. */
  predicate Asks(cs: Classes, deps: string -> seq<string>, n: string, d: string) {
    match DataOf(cs, n).status
    case Open => false
    case MissingDeps | Initializing => d in DataOf(cs, n).missingDependencies
    case Unknown | Missing => d in deps(n)
  }

  ghost predicate AskPath(cs: Classes, deps: string -> seq<string>, path: seq<string>) {
    path != [] && forall i :: 0 <= i < |path| - 1 ==> Asks(cs, deps, path[i], path[i + 1])
  }

  /** The library of `n` has to be opened and does not open. */
  predicate Fails(cs: Classes, disk: set<string>, n: string) {
    (DataOf(cs, n).status.Unknown? || DataOf(cs, n).status.Missing?) && n !in disk
  }

  lemma AsksBelow(cs: Classes, deps: string -> seq<string>, rank: string -> nat, n: string, d: string)
    requires Acyclic(deps, rank) && Inv(cs, deps) && Asks(cs, deps, n, d)
    ensures d in deps(n) && rank(d) < rank(n)
  {
    assert n in cs ==> ClassOk(cs, deps, n);
  }

  /** One level: a class can be brought up exactly when its library does not fail and all it asks for can. */
  lemma LoadableStep(cs: Classes, disk: set<string>, deps: string -> seq<string>, rank: string -> nat, n: string)
    requires Acyclic(deps, rank) && Inv(cs, deps)
    ensures Loadable(cs, disk, deps, rank, n) <==>
            !Fails(cs, disk, n) && forall d :: Asks(cs, deps, n, d) ==> Loadable(cs, disk, deps, rank, d)
  {
    forall d | Asks(cs, deps, n, d)
      ensures rank(d) < rank(n)
    {
      AsksBelow(cs, deps, rank, n, d);
    }
    var c := DataOf(cs, n);
    if c.status.MissingDeps? || c.status.Initializing? {
      assert forall d :: d in c.missingDependencies <==> Asks(cs, deps, n, d);
    } else if !c.status.Open? {
      assert forall d :: d in deps(n) <==> Asks(cs, deps, n, d);
    }
  }

  lemma {:induction false} LoadableReaches(cs: Classes, disk: set<string>, deps: string -> seq<string>, rank: string -> nat,
                                           path: seq<string>)
    requires Acyclic(deps, rank) && Inv(cs, deps) && AskPath(cs, deps, path) && Loadable(cs, disk, deps, rank, path[0])
    ensures !Fails(cs, disk, Last(path))
  {
    LoadableStep(cs, disk, deps, rank, path[0]);
    if |path| > 1 {
      assert Asks(cs, deps, path[0], path[0 + 1]);
      assert forall i :: 0 <= i < |path[1..]| ==> path[1..][i] == path[i + 1];
      LoadableReaches(cs, disk, deps, rank, path[1..]);
    }
  }

  lemma {:induction false} GapExists(cs: Classes, disk: set<string>, deps: string -> seq<string>, rank: string -> nat, n: string)
    returns (path: seq<string>)
    requires Acyclic(deps, rank) && Inv(cs, deps) && !Loadable(cs, disk, deps, rank, n)
    ensures AskPath(cs, deps, path) && path[0] == n && Fails(cs, disk, Last(path))
    decreases rank(n)
  {
    LoadableStep(cs, disk, deps, rank, n);
    path := [n];
    if !Fails(cs, disk, n) {
      var d :| Asks(cs, deps, n, d) && !Loadable(cs, disk, deps, rank, d);
      AsksBelow(cs, deps, rank, n, d);
      var tail := GapExists(cs, disk, deps, rank, d);
      path := [n] + tail;
      assert forall i :: 0 < i < |path| ==> path[i] == tail[i - 1];
    }
  }

  /** From any state, a retry included: a class can be brought up exactly when nothing it asks for, however deep, fails. */
  lemma LoadableIff(cs: Classes, disk: set<string>, deps: string -> seq<string>, rank: string -> nat, n: string)
    requires Acyclic(deps, rank) && Inv(cs, deps)
    ensures Loadable(cs, disk, deps, rank, n) <==>
            forall path :: AskPath(cs, deps, path) && path[0] == n ==> !Fails(cs, disk, Last(path))
  {
    if Loadable(cs, disk, deps, rank, n) {
      forall path | AskPath(cs, deps, path) && path[0] == n
        ensures !Fails(cs, disk, Last(path))
      {
        LoadableReaches(cs, disk, deps, rank, path);
      }
    } else {
      var path := GapExists(cs, disk, deps, rank, n);
    }
  }

  /** From this state `n` asks, in the end, for a class whose library does not open and gives error `r`. */
  ghost predicate Blames(cs: Classes, disk: set<string>, deps: string -> seq<string>, openError: string -> int, n: string, r: int) {
    exists path :: AskPath(cs, deps, path) && path[0] == n && Fails(cs, disk, Last(path)) && openError(Last(path)) == r
  }

  lemma {:induction false} PathBelow(cs: Classes, deps: string -> seq<string>, rank: string -> nat, path: seq<string>, i: nat)
    requires Acyclic(deps, rank) && Inv(cs, deps) && AskPath(cs, deps, path) && i < |path|
    ensures rank(path[i]) <= rank(path[0])
  {
    if i > 0 {
      PathBelow(cs, deps, rank, path, i - 1);
      assert Asks(cs, deps, path[i - 1], path[i - 1 + 1]);
      AsksBelow(cs, deps, rank, path[i - 1], path[i]);
    }
  }

  /** A class that gives up on one of its dependencies passes the blame on. */
  lemma BlamesUp(cs: Classes, disk: set<string>, deps: string -> seq<string>, rank: string -> nat, openError: string -> int,
                 n: string, d: string, r: int)
    requires Acyclic(deps, rank) && Inv(cs, deps) && n in cs && d in cs[n].missingDependencies && Blames(cs, disk, deps, openError, d, r)
    ensures Blames(cs[n := cs[n].(status := MissingDeps)], disk, deps, openError, n, r)
  {
    var b := cs[n := cs[n].(status := MissingDeps)];
    var tail :| AskPath(cs, deps, tail) && tail[0] == d && Fails(cs, disk, Last(tail)) && openError(Last(tail)) == r;
    assert ClassOk(cs, deps, n);
    forall i | 0 <= i < |tail|
      ensures tail[i] != n
    {
      PathBelow(cs, deps, rank, tail, i);
    }
    var path := [n] + tail;
    forall i | 0 <= i < |path| - 1
      ensures Asks(b, deps, path[i], path[i + 1])
    {
      if i > 0 {
        assert Asks(cs, deps, tail[i - 1], tail[i - 1 + 1]);
      }
    }
    assert AskPath(b, deps, path) && Last(path) == Last(tail);
  }

  /** From the empty map: a class can be brought up exactly when no path of declared dependencies leaves the disk. */
  lemma FirstLoadIff(disk: set<string>, deps: string -> seq<string>, rank: string -> nat, n: string)
    requires Acyclic(deps, rank)
    ensures Loadable(map[], disk, deps, rank, n) <==>
            forall path :: DepPath(deps, path) && path[0] == n ==> Last(path) in disk
  {
    LoadableIff(map[], disk, deps, rank, n);
    assert forall path :: DepPath(deps, path) <==> AskPath(map[], deps, path);
    assert forall m :: Fails(map[], disk, m) <==> m !in disk;
  }

  /** Two states in which the same classes can be brought up. */
  ghost predicate SameLoadable(a: Classes, b: Classes, disk: set<string>, deps: string -> seq<string>,
                               rank: string -> nat)
    requires Acyclic(deps, rank) && Inv(a, deps) && Inv(b, deps)
  {
    forall n :: Loadable(a, disk, deps, rank, n) <==> Loadable(b, disk, deps, rank, n)
  }

  /** A change to one class that keeps its own verdict keeps every verdict. */
  lemma {:induction false} OneChange(a: Classes, b: Classes, disk: set<string>, deps: string -> seq<string>,
                                     rank: string -> nat, changed: string, n: string)
    requires Acyclic(deps, rank) && Inv(a, deps) && Inv(b, deps)
    requires forall m :: m != changed ==> DataOf(a, m) == DataOf(b, m)
    requires Loadable(a, disk, deps, rank, changed) <==> Loadable(b, disk, deps, rank, changed)
    ensures Loadable(a, disk, deps, rank, n) <==> Loadable(b, disk, deps, rank, n)
    decreases rank(n)
  {
    if n != changed {
      assert n in a ==> ClassOk(a, deps, n);
      forall d | d in deps(n)
        ensures Loadable(a, disk, deps, rank, d) <==> Loadable(b, disk, deps, rank, d)
      {
        OneChange(a, b, disk, deps, rank, changed, d);
      }
    }
  }

  /** Classes are never dropped, an open one stays open, and none gets or loses a library. */
  ghost predicate Grown(a: Classes, b: Classes) {
    && (forall n :: n in a ==> n in b && (a[n].status.Open? ==> b[n].status.Open?))
    && (forall n :: DataOf(a, n).embedded == DataOf(b, n).embedded)
  }

  /** Only `top` and classes below it have changed. */
  ghost predicate OnlyBelow(a: Classes, b: Classes, rank: string -> nat, top: string) {
    forall n :: n != top && rank(n) >= rank(top) ==> DataOf(a, n) == DataOf(b, n) && (n in a <==> n in b)
  }

  /** Replacing the data of `n` by data that is in order, and no less open, keeps the invariant. */
  lemma Replaced(cs: Classes, deps: string -> seq<string>, n: string, c: ClassData)
    requires Inv(cs, deps)
    requires n in cs && cs[n].status.Open? ==> c.status.Open?
    requires ClassOk(cs[n := c], deps, n)
    ensures Inv(cs[n := c], deps)
  {
    var b := cs[n := c];
    forall m | m in b
      ensures ClassOk(b, deps, m)
    {
      assert m != n ==> ClassOk(cs, deps, m);
    }
  }

  /** A changed status or missing set that leaves the verdict of `n` alone leaves every verdict alone. */
  lemma VerdictsKept(a: Classes, b: Classes, disk: set<string>, deps: string -> seq<string>, rank: string -> nat, n: string)
    requires Acyclic(deps, rank) && Inv(a, deps) && Inv(b, deps)
    requires forall m :: m != n ==> DataOf(a, m) == DataOf(b, m)
    requires Loadable(a, disk, deps, rank, n) <==> Loadable(b, disk, deps, rank, n)
    ensures SameLoadable(a, b, disk, deps, rank)
  {
    forall m: string
      ensures Loadable(a, disk, deps, rank, m) <==> Loadable(b, disk, deps, rank, m)
    {
      OneChange(a, b, disk, deps, rank, n, m);
    }
  }

  /** The classes below `n` decide the same in `a` and in `a` with the data of `n` replaced. */
  lemma {:induction false} Below(a: Classes, b: Classes, disk: set<string>, deps: string -> seq<string>,
                                 rank: string -> nat, n: string, d: string)
    requires Acyclic(deps, rank) && Inv(a, deps) && Inv(b, deps) && rank(d) < rank(n)
    requires forall m :: m != n ==> DataOf(a, m) == DataOf(b, m)
    ensures Loadable(a, disk, deps, rank, d) <==> Loadable(b, disk, deps, rank, d)
    decreases rank(d)
  {
    assert d in a ==> ClassOk(a, deps, d);
    forall e | e in deps(d)
      ensures Loadable(a, disk, deps, rank, e) <==> Loadable(b, disk, deps, rank, e)
    {
      Below(a, b, disk, deps, rank, n, e);
    }
  }

  /** Everything a step of loading `top` keeps. */
  ghost predicate Step(a: Classes, b: Classes, disk: set<string>, deps: string -> seq<string>, rank: string -> nat, top: string)
    requires Acyclic(deps, rank)
  {
    && Inv(a, deps) && Inv(b, deps) && SameLoadable(a, b, disk, deps, rank)
    && Grown(a, b) && OnlyBelow(a, b, rank, top)
  }

  lemma StepOn(a: Classes, b: Classes, c: Classes, disk: set<string>, deps: string -> seq<string>, rank: string -> nat,
               top: string)
    requires Acyclic(deps, rank) && Step(a, b, disk, deps, rank, top) && Step(b, c, disk, deps, rank, top)
    ensures Step(a, c, disk, deps, rank, top)
  {
  }

  lemma StepThrough(a: Classes, b: Classes, c: Classes, disk: set<string>, deps: string -> seq<string>,
                    rank: string -> nat, top: string, below: string)
    requires Acyclic(deps, rank) && rank(below) < rank(top) && top in b
    requires Step(a, b, disk, deps, rank, top) && Step(b, c, disk, deps, rank, below)
    ensures Step(a, c, disk, deps, rank, top) && top in c && c[top] == b[top]
  {
    assert DataOf(b, top) == DataOf(c, top);
  }

  /** Recording a dependency of a class whose library has just been opened. */
  lemma Recorded(cs: Classes, disk: set<string>, deps: string -> seq<string>, rank: string -> nat, n: string, d: string)
    requires Acyclic(deps, rank) && Inv(cs, deps) && n in cs && d in cs && d in deps(n)
    requires cs[n].status.Unknown? || cs[n].status.Missing?
    ensures Step(cs, cs[n := Record(cs, n, d)], disk, deps, rank, n)
  {
    var c := Record(cs, n, d);
    var b := cs[n := c];
    assert ClassOk(cs, deps, n);
    assert rank(d) < rank(n);
    Replaced(cs, deps, n, c);
    forall e | e in deps(n)
      ensures Loadable(cs, disk, deps, rank, e) <==> Loadable(b, disk, deps, rank, e)
    {
      Below(cs, b, disk, deps, rank, n, e);
    }
    VerdictsKept(cs, b, disk, deps, rank, n);
  }

  function Record(cs: Classes, n: string, d: string): ClassData
    requires n in cs && d in cs
  {
    var c := cs[n];
    c.(dependencies := c.dependencies + {d},
       missingDependencies := if cs[d].status.Open? then c.missingDependencies else c.missingDependencies + {d})
  }

  /** A dependency that is open by now is struck off. */
  lemma StruckOff(cs: Classes, disk: set<string>, deps: string -> seq<string>, rank: string -> nat, n: string, d: string)
    requires Acyclic(deps, rank) && Inv(cs, deps) && n in cs && d in cs && cs[d].status.Open?
    requires d in cs[n].missingDependencies && !cs[n].status.Open?
    ensures var b := cs[n := cs[n].(missingDependencies := cs[n].missingDependencies - {d})];
            Step(cs, b, disk, deps, rank, n)
  {
    var c := cs[n].(missingDependencies := cs[n].missingDependencies - {d});
    var b := cs[n := c];
    assert ClassOk(cs, deps, n);
    assert n != d;
    Replaced(cs, deps, n, c);
    forall e | e in deps(n)
      ensures Loadable(cs, disk, deps, rank, e) <==> Loadable(b, disk, deps, rank, e)
    {
      Below(cs, b, disk, deps, rank, n, e);
    }
    assert Loadable(cs, disk, deps, rank, d);
    VerdictsKept(cs, b, disk, deps, rank, n);
  }

  /** Classes below `n` have the same verdict when the data of `n` is replaced. */
  lemma SameBelow(cs: Classes, b: Classes, disk: set<string>, deps: string -> seq<string>, rank: string -> nat, n: string)
    requires Acyclic(deps, rank) && Inv(cs, deps) && Inv(b, deps) && forall m :: m != n ==> DataOf(cs, m) == DataOf(b, m)
    ensures forall e :: e in deps(n) ==> (Loadable(cs, disk, deps, rank, e) <==> Loadable(b, disk, deps, rank, e))
  {
    forall e | e in deps(n)
      ensures Loadable(cs, disk, deps, rank, e) <==> Loadable(b, disk, deps, rank, e)
    {
      Below(cs, b, disk, deps, rank, n, e);
    }
  }

  /** A new status that is in order and gives the same verdict is a step. */
  lemma Stepped(cs: Classes, disk: set<string>, deps: string -> seq<string>, rank: string -> nat, n: string, s: Status)
    requires Acyclic(deps, rank) && Inv(cs, deps) && n in cs && !cs[n].status.Open?
    requires Inv(cs[n := cs[n].(status := s)], deps)
    requires Loadable(cs, disk, deps, rank, n) <==> Loadable(cs[n := cs[n].(status := s)], disk, deps, rank, n)
    ensures Step(cs, cs[n := cs[n].(status := s)], disk, deps, rank, n)
  {
    VerdictsKept(cs, cs[n := cs[n].(status := s)], disk, deps, rank, n);
  }

  lemma StatusOk(cs: Classes, deps: string -> seq<string>, n: string, s: Status)
    requires Inv(cs, deps) && n in cs && !cs[n].status.Open?
    requires s.Missing? || ((s.Open? || s.MissingDeps?) && AllRecorded(cs[n], deps, n))
    requires s.Open? ==> cs[n].missingDependencies == {}
    ensures Inv(cs[n := cs[n].(status := s)], deps)
  {
    assert ClassOk(cs, deps, n);
    Replaced(cs, deps, n, cs[n].(status := s));
  }

  /** A new status that gives the same verdict. */
  lemma Restated(cs: Classes, disk: set<string>, deps: string -> seq<string>, rank: string -> nat, n: string, s: Status)
    requires Acyclic(deps, rank) && Inv(cs, deps) && n in cs && !cs[n].status.Open?
    requires s.Open? ==> cs[n].missingDependencies == {} && Loadable(cs, disk, deps, rank, n)
    requires s.Missing? ==> n !in disk && !cs[n].status.MissingDeps? && !cs[n].status.Initializing?
    requires s.MissingDeps? ==>
      exists d :: d in cs[n].missingDependencies && !Loadable(cs, disk, deps, rank, d)
    requires s.Missing? || ((s.Open? || s.MissingDeps?) && AllRecorded(cs[n], deps, n))
    ensures Step(cs, cs[n := cs[n].(status := s)], disk, deps, rank, n)
  {
    StatusOk(cs, deps, n, s);
    assert ClassOk(cs, deps, n);
    if s.MissingDeps? {
      SameBelow(cs, cs[n := cs[n].(status := s)], disk, deps, rank, n);
    }
    Stepped(cs, disk, deps, rank, n, s);
  }

  lemma Added(cs: Classes, disk: set<string>, deps: string -> seq<string>, rank: string -> nat, n: string)
    requires Acyclic(deps, rank) && Inv(cs, deps) && n !in cs
    ensures Inv(cs[n := FRESH], deps) && Step(cs, cs[n := FRESH], disk, deps, rank, n)
  {
    var b := cs[n := FRESH];
    Replaced(cs, deps, n, FRESH);
    forall e | e in deps(n)
      ensures Loadable(cs, disk, deps, rank, e) <==> Loadable(b, disk, deps, rank, e)
    {
      Below(cs, b, disk, deps, rank, n, e);
    }
    VerdictsKept(cs, b, disk, deps, rank, n);
  }

  class ClassHandler {
    const deps: string -> seq<string>
    const allowed: string -> bool
    const hasInit: string -> bool
    const openError: string -> int
    ghost const rank: string -> nat
    var classes: Classes

    ghost predicate Valid()
      reads this
    {
      Acyclic(deps, rank) && Inv(classes, deps) && forall n :: openError(n) < 0
    }

    constructor (deps: string -> seq<string>, allowed: string -> bool, hasInit: string -> bool,
                 openError: string -> int, ghost rank: string -> nat)
      requires Acyclic(deps, rank) && forall n :: openError(n) < 0
      ensures Valid() && classes == map[] && this.deps == deps && this.rank == rank && this.allowed == allowed
    {
      this.deps, this.allowed, this.hasInit, this.openError := deps, allowed, hasInit, openError;
      this.rank := rank;
      classes := map[];
    }

    /** `_get_class`: find or add, refusing an unknown name that may not be loaded. */
    method GetClass(cname: string, checkAllowed: bool, ghost disk: set<string>) returns (found: bool)
      requires Valid()
      modifies this`classes
      ensures Valid() && Step(old(classes), classes, disk, deps, rank, cname)
      ensures found <==> cname in old(classes) || !checkAllowed || allowed(cname)
      ensures classes == if found && cname !in old(classes) then old(classes)[cname := FRESH] else old(classes)
    {
      found := true;
      if cname !in classes {
        if checkAllowed && !allowed(cname) {
          return false;
        }
        Added(classes, disk, deps, rank, cname);
        classes := classes[cname := FRESH];
      }
    }

    /** `register_class`: only a class that is being initialised may register. */
    method RegisterClass(cname: string, ghost disk: set<string>) returns (ok: bool)
      requires Valid()
      modifies this`classes
      ensures Valid()
      ensures ok <==> cname in old(classes) && old(classes)[cname].status.Initializing?
      ensures classes == if cname in old(classes) then old(classes) else old(classes)[cname := FRESH]
    {
      var found := GetClass(cname, false, disk);
      ok := classes[cname].status.Initializing?;
    }

    /** The loop over the dependencies a freshly opened library declares. */
    method RecordDependencies(cname: string, ghost disk: set<string>)
      requires Valid() && cname in classes && (classes[cname].status.Unknown? || classes[cname].status.Missing?)
      modifies this`classes
      ensures Valid() && Step(old(classes), classes, disk, deps, rank, cname) && cname in classes
      ensures classes[cname].status == old(classes)[cname].status
      ensures forall d :: d in deps(cname) ==> d in classes[cname].dependencies
    {
      var names := deps(cname);
      ghost var first, status := classes, classes[cname].status;
      ghost var noted: set<string> := {};
      for i := 0 to |names|
        invariant Valid() && Step(first, classes, disk, deps, rank, cname) && cname in classes
        invariant classes[cname].status == status
        invariant noted <= classes[cname].dependencies && Notes(noted, names, i)
      {
        RecordDependency(cname, names[i], first, disk);
        noted := NotesMore(noted, names, i);
      }
      NotesAll(noted, names);
    }

    method RecordDependency(cname: string, d: string, ghost first: Classes, ghost disk: set<string>)
      requires Valid() && Step(first, classes, disk, deps, rank, cname) && cname in classes && d in deps(cname)
      requires classes[cname].status.Unknown? || classes[cname].status.Missing?
      modifies this`classes
      ensures Valid() && Step(first, classes, disk, deps, rank, cname) && cname in classes
      ensures classes[cname].status == old(classes)[cname].status
      ensures classes[cname].dependencies == old(classes)[cname].dependencies + {d}
    {
      ghost var before := classes;
      var found := GetClass(d, false, disk);
      StepThrough(first, before, classes, disk, deps, rank, cname, d);
      Recorded(classes, disk, deps, rank, cname, d);
      StepOn(first, classes, classes[cname := Record(classes, cname, d)], disk, deps, rank, cname);
      classes := classes[cname := Record(classes, cname, d)];
    }

    /** The loop that loads what is missing, in any order, until something cannot be loaded. */
    method ResolveDependencies(cname: string, disk: set<string>) returns (r: int)
      requires Valid() && cname in classes && !classes[cname].status.Open? && AllRecorded(classes[cname], deps, cname)
      modifies this`classes
      decreases rank(cname), 1
      ensures Valid() && Step(old(classes), classes, disk, deps, rank, cname) && r <= 0 && cname in classes
      ensures classes[cname].status == if r == 0 then old(classes)[cname].status else MissingDeps
      ensures classes[cname].dependencies == old(classes)[cname].dependencies && AllRecorded(classes[cname], deps, cname)
      ensures r == 0 ==> classes[cname].missingDependencies == {}
      ensures r < 0 ==> !Loadable(classes, disk, deps, rank, cname) && Blames(classes, disk, deps, openError, cname, r)
    {
      ghost var first := classes;
      while classes[cname].missingDependencies != {}
        invariant Valid() && Step(first, classes, disk, deps, rank, cname) && cname in classes
        invariant classes[cname].status == first[cname].status
        invariant classes[cname].dependencies == first[cname].dependencies && AllRecorded(classes[cname], deps, cname)
        decreases classes[cname].missingDependencies
      {
        r := ResolveOne(cname, first, disk);
        if r < 0 {
          return;
        }
      }
      r := 0;
    }

    method ResolveOne(cname: string, ghost first: Classes, disk: set<string>) returns (r: int)
      requires Valid() && Step(first, classes, disk, deps, rank, cname) && cname in classes
      requires !classes[cname].status.Open? && classes[cname].missingDependencies != {}
      requires AllRecorded(classes[cname], deps, cname)
      modifies this`classes
      decreases rank(cname), 0
      ensures Valid() && Step(first, classes, disk, deps, rank, cname) && r <= 0 && cname in classes
      ensures classes[cname].status == if r == 0 then old(classes)[cname].status else MissingDeps
      ensures classes[cname].dependencies == old(classes)[cname].dependencies && AllRecorded(classes[cname], deps, cname)
      ensures r == 0 ==> classes[cname].missingDependencies < old(classes)[cname].missingDependencies
      ensures r < 0 ==> !Loadable(classes, disk, deps, rank, cname) && Blames(classes, disk, deps, openError, cname, r)
    {
      var dc :| dc in classes[cname].missingDependencies;
      assert ClassOk(classes, deps, cname);
      ghost var before := classes;
      r := LoadClass(dc, disk);
      StepThrough(first, before, classes, disk, deps, rank, cname, dc);
      if r < 0 {
        BlamesUp(classes, disk, deps, rank, openError, cname, dc, r);
        GiveUp(cname, dc, first, disk);
      } else {
        StrikeOff(cname, dc, first, disk);
      }
    }

    /** A dependency could not be loaded. */
    method GiveUp(cname: string, ghost dc: string, ghost first: Classes, ghost disk: set<string>)
      requires Valid() && Step(first, classes, disk, deps, rank, cname) && cname in classes
      requires !classes[cname].status.Open? && AllRecorded(classes[cname], deps, cname)
      requires dc in classes[cname].missingDependencies && !Loadable(classes, disk, deps, rank, dc)
      modifies this`classes
      ensures Valid() && Step(first, classes, disk, deps, rank, cname)
      ensures classes == old(classes)[cname := old(classes)[cname].(status := MissingDeps)]
      ensures !Loadable(classes, disk, deps, rank, cname)
    {
      ghost var next := classes[cname := classes[cname].(status := MissingDeps)];
      Restated(classes, disk, deps, rank, cname, MissingDeps);
      StepOn(first, classes, next, disk, deps, rank, cname);
      classes := classes[cname := classes[cname].(status := MissingDeps)];
    }

    /** A dependency has been loaded. */
    method StrikeOff(cname: string, dc: string, ghost first: Classes, ghost disk: set<string>)
      requires Valid() && Step(first, classes, disk, deps, rank, cname) && cname in classes
      requires !classes[cname].status.Open? && dc in classes[cname].missingDependencies
      requires dc in classes && classes[dc].status.Open?
      modifies this`classes
      ensures Valid() && Step(first, classes, disk, deps, rank, cname)
      ensures var c := old(classes)[cname];
              classes == old(classes)[cname := c.(missingDependencies := c.missingDependencies - {dc})]
    {
      var c := classes[cname].(missingDependencies := classes[cname].missingDependencies - {dc});
      StruckOff(classes, disk, deps, rank, cname, dc);
      StepOn(first, classes, classes[cname := c], disk, deps, rank, cname);
      classes := classes[cname := c];
    }

    /** `_load_class`. */
    method LoadClass(cname: string, disk: set<string>) returns (r: int)
      requires Valid() && cname in classes
      modifies this`classes
      decreases rank(cname), 2
      ensures Valid() && Step(old(classes), classes, disk, deps, rank, cname) && r <= 0 && cname in classes
      ensures r == 0 <==> old(Loadable(classes, disk, deps, rank, cname))
      ensures r == 0 ==> classes[cname].status.Open? && OpenBelow(classes, deps, cname)
      ensures r < 0 ==> Blames(classes, disk, deps, openError, cname, r)
      ensures r < 0 ==> classes[cname].status == if Fails(old(classes), disk, cname) then Missing else MissingDeps
    {
      ghost var first := classes;
      var status := classes[cname].status;
      if status.Open? {
        OpenAllTheWay(classes, deps, cname);
        return 0;
      }
      if status.Unknown? || status.Missing? {
        if cname !in disk {
          Restated(classes, disk, deps, rank, cname, Missing);
          classes := classes[cname := classes[cname].(status := Missing)];
          assert AskPath(classes, deps, [cname]) && Fails(classes, disk, Last([cname]));
          return openError(cname);
        }
        RecordDependencies(cname, disk);
      }
      ghost var recorded := classes;
      assert ClassOk(classes, deps, cname);
      r := ResolveDependencies(cname, disk);
      StepOn(first, recorded, classes, disk, deps, rank, cname);
      if r == 0 {
        FinishLoad(cname, first, disk);
        OpenAllTheWay(classes, deps, cname);
      }
    }

    /** While `__cls_init` runs the class may register itself. */
    method Initialize(cname: string, ghost disk: set<string>)
      requires Valid() && cname in classes && !classes[cname].status.Open? && AllRecorded(classes[cname], deps, cname)
      modifies this`classes
      ensures classes == old(classes)[cname := old(classes)[cname].(status := Initializing)]
    {
      assert ClassOk(classes, deps, cname);
      Replaced(classes, deps, cname, classes[cname].(status := Initializing));
      classes := classes[cname := classes[cname].(status := Initializing)];
      var registered := RegisterClass(cname, disk);
      assert registered;
    }

    /** The end of `_load_class`: the library's init function registers the class, which is then open. */
    method FinishLoad(cname: string, ghost first: Classes, disk: set<string>)
      requires Valid() && Step(first, classes, disk, deps, rank, cname) && cname in classes
      requires !classes[cname].status.Open? && classes[cname].missingDependencies == {}
      requires AllRecorded(classes[cname], deps, cname)
      requires classes[cname].status.Unknown? || classes[cname].status.Missing? ==>
        cname in disk && forall d :: d in deps(cname) ==> d in classes[cname].dependencies
      modifies this`classes
      ensures Valid() && Step(first, classes, disk, deps, rank, cname)
      ensures cname in classes && classes[cname].status.Open? && Loadable(classes, disk, deps, rank, cname)
    {
      ghost var open := classes[cname := classes[cname].(status := Open)];
      AllResolved(classes, disk, deps, rank, cname);
      Restated(classes, disk, deps, rank, cname, Open);
      StepOn(first, classes, open, disk, deps, rank, cname);
      if hasInit(cname) {
        SetTwice(classes, cname, classes[cname].(status := Initializing), classes[cname].(status := Open));
        Initialize(cname, disk);
      }
      classes := classes[cname := classes[cname].(status := Open)];
    }

    /** `add_embedded_class` asserts that the class is new. */
    method AddEmbeddedClass(cname: string, ghost disk: set<string>)
      requires Valid() && (cname in classes ==> classes[cname].status.Unknown?)
      modifies this`classes
      ensures Valid()
      ensures classes == old(classes)[cname := DataOf(old(classes), cname).(status := Initializing, embedded := true)]
    {
      var found := GetClass(cname, false, disk);
      assert ClassOk(classes, deps, cname);
      Replaced(classes, deps, cname, classes[cname].(status := Initializing, embedded := true));
      classes := classes[cname := classes[cname].(status := Initializing, embedded := true)];
    }

    /** `open_class`: zero exactly when the class may be loaded and everything it still needs can be. */
    method OpenClass(cname: string, disk: set<string>) returns (r: int)
      requires Valid()
      modifies this`classes
      ensures Valid() && Grown(old(classes), classes)
      ensures cname !in old(classes) && !allowed(cname) ==> r == -EPERM && classes == old(classes)
      ensures cname in old(classes) || allowed(cname) ==>
        (r == 0 <==> old(Loadable(classes, disk, deps, rank, cname)))
      ensures r == 0 ==> cname in classes && classes[cname].status.Open? && OpenBelow(classes, deps, cname)
      ensures r < 0 && (cname in old(classes) || allowed(cname)) ==> Blames(classes, disk, deps, openError, cname, r)
    {
      ghost var first := classes;
      var found := GetClass(cname, true, disk);
      if !found {
        return -EPERM;
      }
      r := 0;
      if !classes[cname].status.Open? {
        ghost var got := classes;
        r := LoadClass(cname, disk);
        StepOn(first, got, classes, disk, deps, rank, cname);
      } else {
        OpenAllTheWay(classes, deps, cname);
      }
    }
  }

  ghost predicate Notes(noted: set<string>, names: seq<string>, i: nat) {
    i <= |names| && forall j :: 0 <= j < i ==> names[j] in noted
  }

  lemma NotesMore(noted: set<string>, names: seq<string>, i: nat) returns (more: set<string>)
    requires i < |names| && Notes(noted, names, i)
    ensures more == noted + {names[i]} && Notes(more, names, i + 1)
  {
    more := noted + {names[i]};
  }

  lemma NotesAll(noted: set<string>, names: seq<string>)
    requires Notes(noted, names, |names|)
    ensures forall d :: d in names ==> d in noted
  {
  }

  lemma SetTwice(cs: Classes, n: string, a: ClassData, b: ClassData)
    ensures cs[n := a][n := b] == cs[n := b]
  {
  }

  /** With nothing missing every recorded dependency is open. */
  lemma AllResolved(cs: Classes, disk: set<string>, deps: string -> seq<string>, rank: string -> nat, n: string)
    requires Acyclic(deps, rank) && Inv(cs, deps) && n in cs && cs[n].missingDependencies == {}
    requires cs[n].status.Unknown? || cs[n].status.Missing? ==>
      n in disk && forall d :: d in deps(n) ==> d in cs[n].dependencies
    ensures Loadable(cs, disk, deps, rank, n)
  {
    assert ClassOk(cs, deps, n);
    forall d | d in cs[n].dependencies
      ensures Loadable(cs, disk, deps, rank, d)
    {
    }
  }
}
