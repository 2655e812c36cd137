/**
  The CAS admission counters of the server adaptor.

  Every request passes up to three gates (`lwtCount`, then the op counter and the
  bandwidth counter of its kind) before it is handed to the cache, and releases them in
  `FinishCacheOps`.  The model is a small-step machine: reading a counter, the
  compare-and-swap and every re-read are separate steps, taken in any order by any number
  of workers and completion threads.
 */
module Throttle {

  /** The counters are `uint64_t` and wrap. */
  const WORD: nat := 0x1_0000_0000_0000_0000

  datatype Counter = Lwt | WriteOps | WriteBW | ReadOps | ReadBW

  /** `optionType`: a rejected request is finished while still `Default`. */
  datatype Kind = Default | Write | Read

  datatype Op = Op(kind: Kind, kb: nat)

  function Gets(op: Op): seq<Counter> {
    match op.kind
    case Default => []
    case Write => [Lwt, WriteOps, WriteBW]
    case Read => [Lwt, ReadOps, ReadBW]
  }

  function Puts(op: Op): seq<Counter> {
    match op.kind
    case Default => [Lwt]
    case Write => [WriteBW, WriteOps, Lwt]
    case Read => [ReadBW, ReadOps, Lwt]
  }

  function Amount(op: Op, k: Counter): nat {
    if k == WriteBW || k == ReadBW then op.kb else 1
  }

  datatype Bank = Bank(lwt: nat, writeOps: nat, writeBW: nat, readOps: nat, readBW: nat) {
    function At(k: Counter): nat {
      match k
      case Lwt => lwt
      case WriteOps => writeOps
      case WriteBW => writeBW
      case ReadOps => readOps
      case ReadBW => readBW
    }

    function Set(k: Counter, v: nat): Bank {
      match k
      case Lwt => this.(lwt := v)
      case WriteOps => this.(writeOps := v)
      case WriteBW => this.(writeBW := v)
      case ReadOps => this.(readOps := v)
      case ReadBW => this.(readBW := v)
    }
  }

  /** Inside a `Get`: about to read, about to CAS, or sleeping past the CAS. */
  datatype GetPc = Load | Cas(was: nat) | Waiting

  /** Inside a `Put`: about to test the guard, about to read, about to CAS. */
  datatype PutPc = Guard | Reload | Swap(seen: nat)

  /** A thread of control together with the request it works for. */
  datatype Proc =
    | Idle
    | Getting(op: Op, done: nat, at: GetPc)
    | Ready(op: Op)
    | Running(op: Op)
    | Putting(op: Op, done: nat, pc: PutPc)

  /** `t` is `saOpThrottle`, `n` is `queueNum` (one worker per queue). */
  datatype Config = Config(t: nat, n: nat)

  /** `inflight` keeps one process per handed-over request; a finished one is `Idle`. */
  datatype State = State(bank: Bank, workers: seq<Proc>, inflight: seq<Proc>, rejected: nat)

  datatype Action =
    | Fetch(w: nat, op: Op)
    | Reject(w: nat)
    | Work(w: nat, thr: nat)
    | HandOver(w: nat)
    | Complete(i: nat)
    | Release(i: nat)

  function Got(op: Op, done: nat): Proc {
    if done == |Gets(op)| then Ready(op) else Getting(op, done, Load)
  }

  function Gave(op: Op, done: nat): Proc {
    if done == |Puts(op)| then Idle else Putting(op, done, Guard)
  }

  /** The sleeping loop of gate `k` ends on value `v`; `thr` is what the throttle getter returned. */
  predicate Passes(c: Config, k: Counter, thr: nat, v: nat) {
    if k == Lwt then v <= c.t else thr == 0 || v <= thr
  }

  predicate Skipped(c: Config, k: Counter) {
    k == Lwt && c.t == 0
  }

  predicate WellFormed(p: Proc) {
    match p
    case Idle => true
    case Getting(op, done, _) => done < |Gets(op)|
    case Ready(op) => !op.kind.Default?
    case Running(op) => !op.kind.Default?
    case Putting(op, done, _) => done < |Puts(op)|
  }

  datatype Effect = Effect(bank: Bank, proc: Proc, rejects: nat)

  /** One atomic step of a process that is inside a `Get` or a `Put`. */
  function MicroStep(c: Config, b: Bank, p: Proc, thr: nat): Effect
    requires WellFormed(p) && (p.Getting? || p.Putting?)
  {
    if p.Getting? then
      var k, amount := Gets(p.op)[p.done], Amount(p.op, Gets(p.op)[p.done]);
      if Skipped(c, k) then Effect(b, Got(p.op, p.done + 1), 0)
      else match p.at
        case Load => Effect(b, p.(at := Cas(b.At(k))), 0)
        case Cas(was) =>
          if b.At(k) != was then Effect(b, p.(at := Load), 0)
          else
            Effect(b.Set(k, (was + amount) % WORD),
                   if Passes(c, k, thr, was) then Got(p.op, p.done + 1) else p.(at := Waiting), 0)
        case Waiting =>
          Effect(b, if Passes(c, k, thr, b.At(k)) then Got(p.op, p.done + 1) else p, 0)
    else
      var k, amount := Puts(p.op)[p.done], Amount(p.op, Puts(p.op)[p.done]);
      if Skipped(c, k) then Effect(b, Gave(p.op, p.done + 1), 0)
      else match p.pc
        case Guard =>
          if k != Lwt && b.At(k) < amount then Effect(b, Gave(p.op, p.done + 1), 0)
          else Effect(b, p.(pc := Reload), 0)
        case Reload => Effect(b, p.(pc := Swap(b.At(k))), 0)
        case Swap(seen) =>
          if b.At(k) != seen then Effect(b, p.(pc := Guard), 0)
          else
            Effect(b.Set(k, (seen - amount) % WORD), Gave(p.op, p.done + 1),
                   if p.op.kind.Default? then 1 else 0)
  }

  function Init(c: Config): State {
    State(Bank(0, 0, 0, 0, 0), seq(c.n, _ => Idle), [], 0)
  }

  predicate Enabled(c: Config, s: State, a: Action) {
    match a
    case Fetch(w, op) => w < |s.workers| && s.workers[w].Idle? && !op.kind.Default?
    case Reject(w) => w < |s.workers| && s.workers[w].Idle?
    case Work(w, _) =>
      w < |s.workers| && WellFormed(s.workers[w]) && (s.workers[w].Getting? || s.workers[w].Putting?)
    case HandOver(w) => w < |s.workers| && s.workers[w].Ready?
    case Complete(i) => i < |s.inflight| && s.inflight[i].Running?
    case Release(i) => i < |s.inflight| && WellFormed(s.inflight[i]) && s.inflight[i].Putting?
  }

  function Apply(c: Config, s: State, a: Action): State
    requires Enabled(c, s, a)
  {
    match a
    case Fetch(w, op) => s.(workers := s.workers[w := Got(op, 0)])
    case Reject(w) => s.(workers := s.workers[w := Gave(Op(Default, 0), 0)])
    case Work(w, thr) =>
      var e := MicroStep(c, s.bank, s.workers[w], thr);
      State(e.bank, s.workers[w := e.proc], s.inflight, s.rejected + e.rejects)
    case HandOver(w) =>
      s.(workers := s.workers[w := Idle], inflight := s.inflight + [Running(s.workers[w].op)])
    case Complete(i) => s.(inflight := s.inflight[i := Gave(s.inflight[i].op, 0)])
    case Release(i) =>
      var e := MicroStep(c, s.bank, s.inflight[i], 0);
      State(e.bank, s.workers, s.inflight[i := e.proc], s.rejected + e.rejects)
  }

  /** A run of the server, newest step outermost. */
  datatype Trace = Start | Then(before: Trace, act: Action)

  predicate Valid(c: Config, tr: Trace)
    decreases tr, 0
  {
    tr.Then? ==> Valid(c, tr.before) && Enabled(c, After(c, tr.before), tr.act)
  }

  function After(c: Config, tr: Trace): State
    requires Valid(c, tr)
    decreases tr, 1
  {
    match tr
    case Start => Init(c)
    case Then(before, act) => Apply(c, After(c, before), act)
  }

  // ------------------------------------------------------------------ what is held

  /** What a process adds to a sum: its share of a counter, or one if it is past the first gate. */
  datatype Measure = Share(k: Counter) | PastGate

  /** Requests of this kind pass through counter `k`. */
  predicate Uses(op: Op, k: Counter) {
    match op.kind
    case Default => false
    case Write => k == Lwt || k == WriteOps || k == WriteBW
    case Read => k == Lwt || k == ReadOps || k == ReadBW
  }

  /** Gates are taken in this order and released in the opposite one. */
  function Rank(k: Counter): nat {
    match k
    case Lwt => 0
    case WriteOps => 1
    case ReadOps => 1
    case WriteBW => 2
    case ReadBW => 2
  }

  /** The share of counter `k` taken by a successful CAS of a `Get` and not yet given back. */
  function Held(c: Config, p: Proc, k: Counter): nat {
    if p.Idle? || !Uses(p.op, k) || Skipped(c, k) then 0
    else match p
      case Getting(op, done, at) =>
        if Rank(k) < done || (Rank(k) == done && at.Waiting?) then Amount(op, k) else 0
      case Putting(op, done, _) => if done + Rank(k) <= 2 then Amount(op, k) else 0
      case _ => Amount(p.op, k)
  }

  /** Past the `GetlwtCas` gate and not yet past its `PutlwtCas`. */
  predicate IsPastGate(p: Proc) {
    match p
    case Idle => false
    case Getting(_, done, _) => done > 0
    case Ready(_) => true
    case Running(_) => true
    case Putting(op, _, _) => !op.kind.Default?
  }

  function Weigh(c: Config, m: Measure, p: Proc): nat {
    match m
    case Share(k) => Held(c, p, k)
    case PastGate => if IsPastGate(p) then 1 else 0
  }

  function Sum(c: Config, m: Measure, ps: seq<Proc>): nat {
    if ps == [] then 0 else Weigh(c, m, ps[0]) + Sum(c, m, ps[1..])
  }

  function Total(c: Config, m: Measure, s: State): nat {
    Sum(c, m, s.workers) + Sum(c, m, s.inflight)
  }

  lemma {:induction false} SumUpdate(c: Config, m: Measure, ps: seq<Proc>, i: nat, p: Proc)
    requires i < |ps|
    ensures Sum(c, m, ps[i := p]) == Sum(c, m, ps) - Weigh(c, m, ps[i]) + Weigh(c, m, p)
    ensures Weigh(c, m, ps[i]) <= Sum(c, m, ps)
  {
    if i > 0 {
      assert ps[i := p][1..] == ps[1..][i - 1 := p];
      SumUpdate(c, m, ps[1..], i - 1, p);
    } else {
      assert ps[i := p][1..] == ps[1..];
    }
  }

  lemma {:induction false} SumAppend(c: Config, m: Measure, ps: seq<Proc>, p: Proc)
    ensures Sum(c, m, ps + [p]) == Sum(c, m, ps) + Weigh(c, m, p)
  {
    if ps == [] {
      assert ps + [p] == [p];
    } else {
      assert (ps + [p])[1..] == ps[1..] + [p];
      SumAppend(c, m, ps[1..], p);
    }
  }

  predicate AllIdle(ps: seq<Proc>) {
    forall i :: 0 <= i < |ps| ==> ps[i].Idle?
  }

  lemma {:induction false} SumOfIdle(c: Config, m: Measure, ps: seq<Proc>)
    requires AllIdle(ps)
    ensures Sum(c, m, ps) == 0
  {
    if ps != [] {
      SumOfIdle(c, m, ps[1..]);
    }
  }

  lemma {:induction false} SumOfLwtShares(c: Config, ps: seq<Proc>)
    ensures Sum(c, Share(Lwt), ps) <= |ps|
  {
    if ps != [] {
      SumOfLwtShares(c, ps[1..]);
    }
  }

  lemma {:induction false} PastGateIsCounted(c: Config, ps: seq<Proc>)
    requires c.t != 0
    requires forall i :: 0 <= i < |ps| ==> WellFormed(ps[i])
    ensures Sum(c, PastGate, ps) <= Sum(c, Share(Lwt), ps)
  {
    if ps != [] {
      PastGateIsCounted(c, ps[1..]);
    }
  }

  // ------------------------------------------------------------------ the counter laws

  ghost predicate Shape(c: Config, s: State) {
    && |s.workers| == c.n
    && (forall w :: 0 <= w < |s.workers| ==> WellFormed(s.workers[w]) && !s.workers[w].Running?)
    && (forall i :: 0 <= i < |s.inflight| ==>
          WellFormed(s.inflight[i]) && (s.inflight[i].Idle? ||
            ((s.inflight[i].Running? || s.inflight[i].Putting?) && !s.inflight[i].op.kind.Default?)))
  }

  /** `lwtCount` is the number of holders less one for every rejected name, modulo 2^64. */
  ghost predicate LwtLaw(c: Config, s: State) {
    s.bank.lwt == (Total(c, Share(Lwt), s) - s.rejected) % WORD
  }

  /** The other counters are exactly what is held. */
  ghost predicate ExactLaw(c: Config, s: State) {
    forall k: Counter :: k != Lwt ==> s.bank.At(k) == Total(c, Share(k), s)
  }

  /** Less than 2^64 requests, KB written and KB read are outstanding. */
  ghost predicate Fits(c: Config, s: State) {
    forall k: Counter :: Total(c, Share(k), s) < WORD
  }

  ghost predicate AlwaysFits(c: Config, tr: Trace)
    requires Valid(c, tr)
  {
    Fits(c, After(c, tr)) && (tr.Then? ==> AlwaysFits(c, tr.before))
  }

  lemma MicroShape(c: Config, b: Bank, p: Proc, thr: nat)
    requires WellFormed(p) && (p.Getting? || p.Putting?)
    ensures var q := MicroStep(c, b, p, thr).proc;
            WellFormed(q) && (p.Getting? ==> q.Getting? || q.Ready?) && (p.Putting? ==> q.Putting? || q.Idle?)
  {
  }

  /** A counter that is not the one being taken: neither it nor the share of it changes. */
  lemma GetElsewhere(c: Config, b: Bank, p: Proc, thr: nat, k: Counter)
    requires WellFormed(p) && p.Getting? && k != Gets(p.op)[p.done]
    ensures var e := MicroStep(c, b, p, thr); e.bank.At(k) == b.At(k) && Held(c, e.proc, k) == Held(c, p, k)
  {
    assert !(Uses(p.op, k) && Rank(k) == p.done);
  }

  lemma GetExact(c: Config, b: Bank, p: Proc, thr: nat, k: Counter)
    requires WellFormed(p) && p.Getting? && k != Lwt
    requires Held(c, p, k) <= b.At(k)
    requires b.At(k) - Held(c, p, k) + Held(c, MicroStep(c, b, p, thr).proc, k) < WORD
    ensures var e := MicroStep(c, b, p, thr);
            e.bank.At(k) == b.At(k) - Held(c, p, k) + Held(c, e.proc, k)
  {
    if k != Gets(p.op)[p.done] {
      GetElsewhere(c, b, p, thr, k);
    } else {
      assert Uses(p.op, k) && Rank(k) == p.done;
    }
  }

  lemma PutExact(c: Config, b: Bank, p: Proc, k: Counter)
    requires WellFormed(p) && p.Putting? && k != Lwt
    requires Held(c, p, k) <= b.At(k) < WORD
    ensures var e := MicroStep(c, b, p, 0);
            e.bank.At(k) == b.At(k) - Held(c, p, k) + Held(c, e.proc, k)
  {
    var own := Puts(p.op)[p.done];
    assert own == k <==> Uses(p.op, k) && Rank(k) + p.done == 2;
    assert own != k ==> Held(c, MicroStep(c, b, p, 0).proc, k) == Held(c, p, k);
  }

  /** A step changes a counter by exactly the change of the process's own share. */
  lemma MicroExact(c: Config, b: Bank, p: Proc, thr: nat, k: Counter)
    requires WellFormed(p) && (p.Getting? || p.Putting?) && k != Lwt
    requires Held(c, p, k) <= b.At(k) < WORD
    requires b.At(k) - Held(c, p, k) + Held(c, MicroStep(c, b, p, thr).proc, k) < WORD
    ensures var e := MicroStep(c, b, p, thr);
            e.bank.At(k) == b.At(k) - Held(c, p, k) + Held(c, e.proc, k)
  {
    if p.Getting? {
      GetExact(c, b, p, thr, k);
    } else {
      PutExact(c, b, p, k);
    }
  }

  lemma GetLwt(c: Config, b: Bank, p: Proc, thr: nat)
    requires WellFormed(p) && p.Getting? && b.lwt < WORD
    ensures var e := MicroStep(c, b, p, thr);
            e.bank.lwt == (b.lwt + (Held(c, e.proc, Lwt) - Held(c, p, Lwt) - e.rejects)) % WORD
  {
  }

  lemma PutLwt(c: Config, b: Bank, p: Proc, thr: nat)
    requires WellFormed(p) && p.Putting? && b.lwt < WORD
    ensures var e := MicroStep(c, b, p, thr);
            e.bank.lwt == (b.lwt + (Held(c, e.proc, Lwt) - Held(c, p, Lwt) - e.rejects)) % WORD
  {
  }

  lemma MicroLwt(c: Config, b: Bank, p: Proc, thr: nat)
    requires WellFormed(p) && (p.Getting? || p.Putting?)
    requires b.lwt < WORD
    ensures var e := MicroStep(c, b, p, thr);
            e.bank.lwt == (b.lwt + (Held(c, e.proc, Lwt) - Held(c, p, Lwt) - e.rejects)) % WORD
  {
    if p.Getting? {
      GetLwt(c, b, p, thr);
    } else {
      PutLwt(c, b, p, thr);
    }
  }

  lemma ShapeStep(c: Config, s: State, a: Action)
    requires Shape(c, s) && Enabled(c, s, a)
    ensures Shape(c, Apply(c, s, a))
  {
    match a
    case Work(w, thr) => MicroShape(c, s.bank, s.workers[w], thr);
    case Release(i) => MicroShape(c, s.bank, s.inflight[i], 0);
    case _ =>
  }

  lemma {:induction false} ShapeKept(c: Config, tr: Trace)
    requires Valid(c, tr)
    ensures Shape(c, After(c, tr))
  {
    if tr.Then? {
      ShapeKept(c, tr.before);
      ShapeStep(c, After(c, tr.before), tr.act);
    }
  }

  /** A working process moves any sum by the change of its own weight ... */
  lemma WorkTotal(c: Config, s: State, w: nat, thr: nat, m: Measure)
    requires Enabled(c, s, Work(w, thr))
    ensures Weigh(c, m, s.workers[w]) <= Total(c, m, s)
    ensures Total(c, m, Apply(c, s, Work(w, thr))) ==
            Total(c, m, s) - Weigh(c, m, s.workers[w])
            + Weigh(c, m, MicroStep(c, s.bank, s.workers[w], thr).proc)
  {
    SumUpdate(c, m, s.workers, w, MicroStep(c, s.bank, s.workers[w], thr).proc);
  }

  /** ... and so does a completing one ... */
  lemma ReleaseTotal(c: Config, s: State, i: nat, m: Measure)
    requires Enabled(c, s, Release(i))
    ensures Weigh(c, m, s.inflight[i]) <= Total(c, m, s)
    ensures Total(c, m, Apply(c, s, Release(i))) ==
            Total(c, m, s) - Weigh(c, m, s.inflight[i])
            + Weigh(c, m, MicroStep(c, s.bank, s.inflight[i], 0).proc)
  {
    SumUpdate(c, m, s.inflight, i, MicroStep(c, s.bank, s.inflight[i], 0).proc);
  }

  lemma FreshWeighsNothing(c: Config, m: Measure, op: Op)
    ensures !op.kind.Default? ==> Weigh(c, m, Got(op, 0)) == 0
    ensures Weigh(c, m, Gave(Op(Default, 0), 0)) == 0
    ensures !op.kind.Default? ==> Weigh(c, m, Ready(op)) == Weigh(c, m, Running(op)) == Weigh(c, m, Gave(op, 0))
  {
  }

  lemma HandOverTotal(c: Config, s: State, w: nat, m: Measure)
    requires Shape(c, s) && Enabled(c, s, HandOver(w))
    ensures Total(c, m, Apply(c, s, HandOver(w))) == Total(c, m, s)
  {
    var op := s.workers[w].op;
    FreshWeighsNothing(c, m, op);
    SumUpdate(c, m, s.workers, w, Idle);
    SumAppend(c, m, s.inflight, Running(op));
  }

  lemma CompleteTotal(c: Config, s: State, i: nat, m: Measure)
    requires Shape(c, s) && Enabled(c, s, Complete(i))
    ensures Total(c, m, Apply(c, s, Complete(i))) == Total(c, m, s)
  {
    var op := s.inflight[i].op;
    FreshWeighsNothing(c, m, op);
    SumUpdate(c, m, s.inflight, i, Gave(op, 0));
  }

  /** ... while taking up, rejecting, handing over and completing a request move none. */
  lemma QuietTotal(c: Config, s: State, a: Action, m: Measure)
    requires Shape(c, s) && Enabled(c, s, a) && !a.Work? && !a.Release?
    ensures Total(c, m, Apply(c, s, a)) == Total(c, m, s)
    ensures Apply(c, s, a).bank == s.bank && Apply(c, s, a).rejected == s.rejected
  {
    match a
    case Fetch(w, op) =>
      FreshWeighsNothing(c, m, op);
      SumUpdate(c, m, s.workers, w, Got(op, 0));
    case Reject(w) =>
      FreshWeighsNothing(c, m, Op(Default, 0));
      SumUpdate(c, m, s.workers, w, Gave(Op(Default, 0), 0));
    case HandOver(w) => HandOverTotal(c, s, w, m);
    case Complete(i) => CompleteTotal(c, s, i, m);
  }

  lemma NoWrap(a: int)
    requires 0 <= a < WORD
    ensures a % WORD == a
  {
  }

  lemma ModShift(a: int, d: int)
    ensures (a % WORD + d) % WORD == (a + d) % WORD
  {
  }

  /** A law modulo 2^64 survives a change of both sides by the same amount. */
  lemma LwtShift(total: int, rejected: int, lwt: int, lwt': int, before: int, now: int, rejects: int)
    requires lwt == (total - rejected) % WORD && lwt' == (lwt + (now - before - rejects)) % WORD
    ensures lwt' == (total - before + now - (rejected + rejects)) % WORD
  {
    ModShift(total - rejected, now - before - rejects);
    assert total - rejected + (now - before - rejects) == total - before + now - (rejected + rejects);
  }

  lemma MicroShift(c: Config, b: Bank, p: Proc, thr: nat, total: int, rejected: int)
    requires WellFormed(p) && (p.Getting? || p.Putting?) && b.lwt == (total - rejected) % WORD
    ensures var e := MicroStep(c, b, p, thr);
            e.bank.lwt == (total - Held(c, p, Lwt) + Held(c, e.proc, Lwt) - (rejected + e.rejects)) % WORD
  {
    var e := MicroStep(c, b, p, thr);
    MicroLwt(c, b, p, thr);
    LwtShift(total, rejected, b.lwt, e.bank.lwt, Held(c, p, Lwt), Held(c, e.proc, Lwt), e.rejects);
  }

  lemma LwtWork(c: Config, s: State, w: nat, thr: nat)
    requires LwtLaw(c, s) && Enabled(c, s, Work(w, thr))
    ensures LwtLaw(c, Apply(c, s, Work(w, thr)))
  {
    WorkTotal(c, s, w, thr, Share(Lwt));
    MicroShift(c, s.bank, s.workers[w], thr, Total(c, Share(Lwt), s), s.rejected);
  }

  lemma LwtRelease(c: Config, s: State, i: nat)
    requires LwtLaw(c, s) && Enabled(c, s, Release(i))
    ensures LwtLaw(c, Apply(c, s, Release(i)))
  {
    ReleaseTotal(c, s, i, Share(Lwt));
    MicroShift(c, s.bank, s.inflight[i], 0, Total(c, Share(Lwt), s), s.rejected);
  }

  lemma LwtStep(c: Config, s: State, a: Action)
    requires Shape(c, s) && LwtLaw(c, s) && Enabled(c, s, a)
    ensures LwtLaw(c, Apply(c, s, a))
  {
    match a
    case Work(w, thr) => LwtWork(c, s, w, thr);
    case Release(i) => LwtRelease(c, s, i);
    case _ => QuietTotal(c, s, a, Share(Lwt));
  }

  /** `lwtCount` in every reachable state of every run, rejected names and wrap-around included. */
  lemma {:induction false} LwtLawHolds(c: Config, tr: Trace)
    requires Valid(c, tr)
    ensures LwtLaw(c, After(c, tr))
  {
    if tr.Then? {
      LwtLawHolds(c, tr.before);
      ShapeKept(c, tr.before);
      LwtStep(c, After(c, tr.before), tr.act);
    } else {
      SumOfIdle(c, Share(Lwt), Init(c).workers);
    }
  }

  /** The four other counters, in every reachable state, whatever the throttle getters return. */
  lemma {:induction false} ExactLawHolds(c: Config, tr: Trace)
    requires Valid(c, tr) && AlwaysFits(c, tr)
    ensures ExactLaw(c, After(c, tr))
  {
    forall k: Counter | k != Lwt
      ensures After(c, tr).bank.At(k) == Total(c, Share(k), After(c, tr))
    {
      if tr.Then? {
        ExactLawHolds(c, tr.before);
        ShapeKept(c, tr.before);
        var s := After(c, tr.before);
        assert Total(c, Share(k), s) < WORD && Total(c, Share(k), After(c, tr)) < WORD;
        match tr.act
        case Work(w, thr) =>
          WorkTotal(c, s, w, thr, Share(k));
          MicroExact(c, s.bank, s.workers[w], thr, k);
        case Release(i) =>
          ReleaseTotal(c, s, i, Share(k));
          MicroExact(c, s.bank, s.inflight[i], 0, k);
        case _ => QuietTotal(c, s, tr.act, Share(k));
      } else {
        SumOfIdle(c, Share(k), Init(c).workers);
      }
    }
  }

  lemma OwnShare(c: Config, p: Proc, k: Counter)
    requires WellFormed(p) && p.Putting? && !p.op.kind.Default? && k == Puts(p.op)[p.done] && !Skipped(c, k)
    ensures Held(c, p, k) == Amount(p.op, k)
  {
  }

  /**
    No guarded `Put` is ever dropped and none of them wraps: the counter covers the share given back. The
    unguarded one, of `lwtCount`, wraps exactly when as many names have been rejected as requests hold it.
   */
  lemma NoPutIsLost(c: Config, tr: Trace, s: State, i: nat, k: Counter)
    requires Valid(c, tr) && AlwaysFits(c, tr) && After(c, tr) == s
    requires i < |s.inflight| && s.inflight[i].Putting? && s.inflight[i].done < |Puts(s.inflight[i].op)|
    requires k == Puts(s.inflight[i].op)[s.inflight[i].done]
    ensures k != Lwt ==> Amount(s.inflight[i].op, k) <= s.bank.At(k)
    ensures k == Lwt && c.t != 0 && s.rejected < WORD ==> (s.bank.lwt == 0 <==> Total(c, Share(Lwt), s) == s.rejected)
    ensures k == Lwt && c.t != 0 ==> 1 <= Total(c, Share(Lwt), s)
  {
    ShapeKept(c, tr);
    PutIsCounted(c, s, i, k);
    if k == Lwt {
      LwtLawHolds(c, tr);
      LwtWraps(Total(c, Share(Lwt), s), s.rejected);
    } else {
      ExactLawHolds(c, tr);
    }
  }

  /** The share a completion is about to give back is part of the total. */
  lemma PutIsCounted(c: Config, s: State, i: nat, k: Counter)
    requires Shape(c, s) && i < |s.inflight| && s.inflight[i].Putting? && k == Puts(s.inflight[i].op)[s.inflight[i].done]
    ensures !Skipped(c, k) ==> Amount(s.inflight[i].op, k) <= Total(c, Share(k), s)
  {
    SumUpdate(c, Share(k), s.inflight, i, s.inflight[i]);
    if !Skipped(c, k) {
      OwnShare(c, s.inflight[i], k);
    }
  }

  lemma LwtWraps(total: nat, rejected: nat)
    ensures total < WORD && rejected < WORD ==> ((total - rejected) % WORD == 0 <==> total == rejected)
  {
    if total < rejected < WORD {
      assert (total - rejected) % WORD == total - rejected + WORD;
    }
  }

  lemma IdleTotal(c: Config, s: State, k: Counter)
    requires AllIdle(s.workers) && AllIdle(s.inflight)
    ensures Total(c, Share(k), s) == 0
  {
    SumOfIdle(c, Share(k), s.workers);
    SumOfIdle(c, Share(k), s.inflight);
  }

  lemma IdleBank(c: Config, s: State)
    requires ExactLaw(c, s) && LwtLaw(c, s) && AllIdle(s.workers) && AllIdle(s.inflight)
    ensures s.bank == Bank((0 - s.rejected) % WORD, 0, 0, 0, 0)
  {
    IdleTotal(c, s, Lwt);
    IdleTotal(c, s, WriteOps);
    IdleTotal(c, s, WriteBW);
    IdleTotal(c, s, ReadOps);
    IdleTotal(c, s, ReadBW);
    assert s.bank.At(WriteOps) == s.bank.At(WriteBW) == s.bank.At(ReadOps) == s.bank.At(ReadBW) == 0;
  }

  /** Once all work has drained nothing is left behind, except 2^64 - 1 per rejected name in `lwtCount`. */
  lemma QuiescentCounters(c: Config, tr: Trace, s: State)
    requires Valid(c, tr) && AlwaysFits(c, tr) && After(c, tr) == s
    requires AllIdle(s.workers) && AllIdle(s.inflight)
    ensures s.bank == Bank((0 - s.rejected) % WORD, 0, 0, 0, 0)
  {
    ExactLawHolds(c, tr);
    LwtLawHolds(c, tr);
    IdleBank(c, s);
  }

  // ------------------------------------------------------------------ the first gate

  /** A worker is let through only on a count of at most T, and everything past the gate is counted. */
  lemma AdmissionWork(c: Config, s: State, w: nat, thr: nat)
    requires c.t != 0 && Shape(c, s) && LwtLaw(c, s) && Total(c, Share(Lwt), s) < WORD
    requires Enabled(c, s, Work(w, thr))
    requires Total(c, PastGate, s) <= c.t + 1 + s.rejected
    ensures Total(c, PastGate, Apply(c, s, Work(w, thr))) <= c.t + 1 + s.rejected
  {
    WorkTotal(c, s, w, thr, PastGate);
    if !IsPastGate(s.workers[w]) && IsPastGate(MicroStep(c, s.bank, s.workers[w], thr).proc) {
      assert s.bank.lwt <= c.t;
      PastGateIsCounted(c, s.workers);
      PastGateIsCounted(c, s.inflight);
      assert Total(c, Share(Lwt), s) <= s.bank.lwt + s.rejected;
    }
  }

  lemma AdmissionStep(c: Config, s: State, a: Action)
    requires c.t != 0 && Shape(c, s) && LwtLaw(c, s) && Total(c, Share(Lwt), s) < WORD && Enabled(c, s, a)
    requires Total(c, PastGate, s) <= c.t + 1 + s.rejected
    ensures Total(c, PastGate, Apply(c, s, a)) <= c.t + 1 + Apply(c, s, a).rejected
  {
    match a
    case Work(w, thr) => AdmissionWork(c, s, w, thr);
    case Release(i) => ReleaseTotal(c, s, i, PastGate);
    case _ => QuietTotal(c, s, a, PastGate);
  }

  lemma Grows(c: Config, s: State, a: Action)
    requires Enabled(c, s, a)
    ensures |s.inflight| <= |Apply(c, s, a).inflight|
  {
  }

  /** At most T + 1 requests (one more per rejected name) are past the first gate, for any number of workers. */
  lemma {:induction false} AdmissionBound(c: Config, tr: Trace)
    requires c.t != 0 && Valid(c, tr) && |After(c, tr).inflight| + c.n < WORD
    ensures Total(c, PastGate, After(c, tr)) <= c.t + 1 + After(c, tr).rejected
  {
    if tr.Then? {
      var s := After(c, tr.before);
      Grows(c, s, tr.act);
      AdmissionBound(c, tr.before);
      ShapeKept(c, tr.before);
      LwtLawHolds(c, tr.before);
      SumOfLwtShares(c, s.workers);
      SumOfLwtShares(c, s.inflight);
      AdmissionStep(c, s, tr.act);
    } else {
      SumOfIdle(c, PastGate, Init(c).workers);
    }
  }

  // ------------------------------------------------------------------ waiters with nothing outstanding

  /** What the workers themselves hold of a counter. */
  function Own(c: Config, k: Counter, s: State): nat {
    Sum(c, Share(k), s.workers)
  }

  /** With no request outstanding the first counter holds the workers' own shares, less the rejected names ... */
  lemma DrainedCount(c: Config, tr: Trace, s: State)
    requires Valid(c, tr) && After(c, tr) == s && AllIdle(s.inflight)
    ensures s.bank.lwt == (Own(c, Lwt, s) - s.rejected) % WORD && Own(c, Lwt, s) <= c.n
  {
    ShapeKept(c, tr);
    LwtLawHolds(c, tr);
    DrainedState(c, s);
  }

  lemma DrainedState(c: Config, s: State)
    requires Shape(c, s) && LwtLaw(c, s) && AllIdle(s.inflight)
    ensures s.bank.lwt == (Own(c, Lwt, s) - s.rejected) % WORD && Own(c, Lwt, s) <= c.n
  {
    SumOfLwtShares(c, s.workers);
    SumOfIdle(c, Share(Lwt), s.inflight);
  }

  /** ... and the others hold nothing but those shares. */
  lemma DrainedExact(c: Config, tr: Trace, s: State, k: Counter)
    requires Valid(c, tr) && After(c, tr) == s && AllIdle(s.inflight) && AlwaysFits(c, tr) && k != Lwt
    ensures s.bank.At(k) == Own(c, k, s)
  {
    ExactLawHolds(c, tr);
    SumOfIdle(c, Share(k), s.inflight);
    assert s.bank.At(k) == Total(c, Share(k), s);
  }

  predicate AtGate(p: Proc) {
    p.Getting? && WellFormed(p) && p.at.Waiting?
  }

  function GateOf(p: Proc): Counter
    requires AtGate(p)
  {
    Gets(p.op)[p.done]
  }

  /** The limit of a gate: `t` for the first one, else what its getter returns, zero meaning none. */
  predicate Over(c: Config, k: Counter, lim: Bank, own: nat, rejected: nat) {
    if k == Lwt then !(rejected <= own <= c.t + rejected) else 0 < lim.At(k) < own
  }

  lemma DrainedLwt(own: nat, rejected: nat, t: nat)
    requires own < WORD && rejected + t < WORD
    ensures (own - rejected) % WORD <= t <==> rejected <= own <= t + rejected
  {
    if own < rejected {
      assert (own - rejected) % WORD == own - rejected + WORD;
    }
  }

  /**
    With nothing outstanding a waiter at any of the three gates sleeps on exactly when what the
    workers hold among themselves is over the gate's limit.
   */
  lemma GateReopensIff(c: Config, tr: Trace, s: State, w: nat, lim: Bank)
    requires Valid(c, tr) && After(c, tr) == s && AllIdle(s.inflight)
    requires 0 < c.t && c.n < WORD && s.rejected + c.t < WORD
    requires w < |s.workers| && AtGate(s.workers[w]) && (GateOf(s.workers[w]) != Lwt ==> AlwaysFits(c, tr))
    ensures var k := GateOf(s.workers[w]);
            Apply(c, s, Work(w, lim.At(k))).workers[w].Getting? && Apply(c, s, Work(w, lim.At(k))).workers[w].at.Waiting?
            <==> Over(c, k, lim, Own(c, k, s), s.rejected)
  {
    if GateOf(s.workers[w]) == Lwt {
      DrainedCount(c, tr, s);
      DrainedLwt(Own(c, Lwt, s), s.rejected, c.t);
    } else {
      DrainedExact(c, tr, s, GateOf(s.workers[w]));
    }
  }

  /** Every worker sleeps at a shut gate and nothing is outstanding; the throttles are `lim`. */
  ghost predicate Stuck(c: Config, lim: Bank, s: State) {
    && (forall w :: 0 <= w < |s.workers| ==> StuckAt(c, lim, s.bank, s.workers[w]))
    && AllIdle(s.inflight)
  }

  predicate StuckAt(c: Config, lim: Bank, b: Bank, p: Proc) {
    AtGate(p) && Shut(c, lim, b, GateOf(p))
  }

  predicate Shut(c: Config, lim: Bank, b: Bank, k: Counter) {
    !Skipped(c, k) && !Passes(c, k, lim.At(k), b.At(k))
  }

  /** The step asks the throttle getters and gets `lim`. */
  predicate Obeys(lim: Bank, s: State, a: Action) {
    a.Work? && a.w < |s.workers| && s.workers[a.w].Getting? && WellFormed(s.workers[a.w]) ==>
      a.thr == lim.At(Gets(s.workers[a.w].op)[s.workers[a.w].done])
  }

  /** No step leaves a stuck state while the throttles stay: nothing is handed over ever again. */
  lemma StuckIsForever(c: Config, lim: Bank, s: State, a: Action)
    requires Stuck(c, lim, s) && Enabled(c, s, a) && Obeys(lim, s, a)
    ensures Apply(c, s, a) == s
  {
    assert forall w :: 0 <= w < |s.workers| ==> StuckAt(c, lim, s.bank, s.workers[w]) && s.workers[w].Getting?;
    assert a.Work?;
    assert s.workers[a.w := s.workers[a.w]] == s.workers;
  }

  /** The special case of the first gate, whatever the other throttles do. */
  ghost predicate Jammed(c: Config, s: State) {
    && c.t < s.bank.lwt
    && (forall w :: 0 <= w < |s.workers| ==>
          s.workers[w].Getting? && s.workers[w].done == 0 && s.workers[w].at.Waiting? && !s.workers[w].op.kind.Default?)
    && AllIdle(s.inflight)
  }

  lemma JamIsForever(c: Config, s: State, a: Action)
    requires Jammed(c, s) && c.t != 0 && Enabled(c, s, a)
    ensures Apply(c, s, a) == s
  {
    assert a.Work?;
    assert s.workers[a.w := s.workers[a.w]] == s.workers;
  }

  // ------------------------------------------------------------------ undisturbed steps

  /** Up to `n` steps of worker `w` alone; the throttle getters return `thr`. */
  function OwnSteps(c: Config, s: State, w: nat, thr: nat, n: nat): State
    decreases n
  {
    if n == 0 || !Enabled(c, s, Work(w, thr)) then s else OwnSteps(c, Apply(c, s, Work(w, thr)), w, thr, n - 1)
  }

  /** Up to `n` steps of the completion of request `i` alone. */
  function OwnReleases(c: Config, s: State, i: nat, n: nat): State
    decreases n
  {
    if n == 0 || !Enabled(c, s, Release(i)) then s else OwnReleases(c, Apply(c, s, Release(i)), i, n - 1)
  }

  /** Three steps at most: a lost compare-and-swap, a fresh reading, the compare-and-swap. */
  function TakeTime(b: Bank, k: Counter, at: GetPc): (n: nat)
    requires !at.Waiting?
    ensures 1 <= n <= 3
  {
    if at.Load? then 2 else if at.was == b.At(k) then 1 else 3
  }

  function GiveTime(b: Bank, k: Counter, pc: PutPc): (n: nat)
    ensures 1 <= n <= 4
  {
    if pc.Guard? then 3 else if pc.Reload? then 2 else if pc.seen == b.At(k) then 1 else 4
  }

  /** A lost compare-and-swap of a `Get` leaves the counter alone, reads it again and then takes it. */
  lemma LostGetRetries(c: Config, b: Bank, p: Proc, thr: nat, k: Counter)
    requires WellFormed(p) && p.Getting? && p.at.Cas? && k == Gets(p.op)[p.done] && !Skipped(c, k) && b.At(k) != p.at.was
    ensures var one := MicroStep(c, b, p, thr);
            var two := MicroStep(c, one.bank, one.proc, thr);
            var three := MicroStep(c, two.bank, two.proc, thr);
            && one.bank == two.bank == b
            && three.bank == b.Set(k, (b.At(k) + Amount(p.op, k)) % WORD)
            && three.proc == if Passes(c, k, thr, b.At(k)) then Got(p.op, p.done + 1) else p.(at := Waiting)
  {
  }

  /** A lost compare-and-swap of a `Put` tests the guard again and gives the counter back while it covers the amount. */
  lemma LostPutRetries(c: Config, b: Bank, p: Proc, k: Counter)
    requires WellFormed(p) && p.Putting? && p.pc.Swap? && k == Puts(p.op)[p.done] && !Skipped(c, k) && b.At(k) != p.pc.seen
    ensures var one := MicroStep(c, b, p, 0);
            var two := MicroStep(c, one.bank, one.proc, 0);
            && one.bank == two.bank == b
            && if k != Lwt && b.At(k) < Amount(p.op, k) then two.proc == Gave(p.op, p.done + 1)
               else var three := MicroStep(c, two.bank, two.proc, 0);
                    var four := MicroStep(c, three.bank, three.proc, 0);
                    && three.bank == b && four.bank == b.Set(k, (b.At(k) - Amount(p.op, k)) % WORD)
                    && four.proc == Gave(p.op, p.done + 1)
  {
  }

  /** The state once worker `w` has taken counter `k`. */
  function Taken(c: Config, s: State, w: nat, thr: nat, k: Counter): State
    requires w < |s.workers| && s.workers[w].Getting?
  {
    var p := s.workers[w];
    s.(bank := s.bank.Set(k, (s.bank.At(k) + Amount(p.op, k)) % WORD),
       workers := s.workers[w := if Passes(c, k, thr, s.bank.At(k)) then Got(p.op, p.done + 1) else p.(at := Waiting)])
  }

  lemma NextOfGet(c: Config, s: State, w: nat, thr: nat, k: Counter, n: nat) returns (at: GetPc)
    requires w < |s.workers| && WellFormed(s.workers[w]) && s.workers[w].Getting? && !s.workers[w].at.Waiting?
    requires k == Gets(s.workers[w].op)[s.workers[w].done] && !Skipped(c, k) && n == TakeTime(s.bank, k, s.workers[w].at)
    ensures Enabled(c, s, Work(w, thr)) && !at.Waiting?
    ensures n == 1 ==> Apply(c, s, Work(w, thr)) == Taken(c, s, w, thr, k)
    ensures n > 1 ==> TakeTime(s.bank, k, at) == n - 1
    ensures n > 1 ==> Apply(c, s, Work(w, thr)) == s.(workers := s.workers[w := s.workers[w].(at := at)])
  {
    at := if n == 2 then Cas(s.bank.At(k)) else Load;
  }

  /** Undisturbed, a worker anywhere in a `Get` before its compare-and-swap takes the counter within three steps of its own. */
  lemma {:induction false} GetTakes(c: Config, s: State, w: nat, thr: nat, k: Counter, n: nat)
    requires w < |s.workers| && WellFormed(s.workers[w]) && s.workers[w].Getting? && !s.workers[w].at.Waiting?
    requires k == Gets(s.workers[w].op)[s.workers[w].done] && !Skipped(c, k) && n == TakeTime(s.bank, k, s.workers[w].at)
    ensures OwnSteps(c, s, w, thr, n) == Taken(c, s, w, thr, k)
    decreases n
  {
    var at := NextOfGet(c, s, w, thr, k, n);
    if n > 1 {
      var s' := s.(workers := s.workers[w := s.workers[w].(at := at)]);
      GetTakes(c, s', w, thr, k, n - 1);
      var q := Taken(c, s, w, thr, k).workers[w];
      assert s'.workers[w := q] == s.workers[w := q];
    }
  }

  /** The state once the completion of request `i` has given counter `k` back. */
  function Given(s: State, i: nat, k: Counter): State
    requires i < |s.inflight| && s.inflight[i].Putting?
  {
    var p := s.inflight[i];
    s.(bank := s.bank.Set(k, (s.bank.At(k) - Amount(p.op, k)) % WORD), inflight := s.inflight[i := Gave(p.op, p.done + 1)])
  }

  lemma NextOfPut(c: Config, s: State, i: nat, k: Counter, n: nat) returns (pc: PutPc)
    requires i < |s.inflight| && WellFormed(s.inflight[i]) && s.inflight[i].Putting? && !s.inflight[i].op.kind.Default?
    requires k == Puts(s.inflight[i].op)[s.inflight[i].done] && !Skipped(c, k) && n == GiveTime(s.bank, k, s.inflight[i].pc)
    requires k == Lwt || Amount(s.inflight[i].op, k) <= s.bank.At(k)
    ensures Enabled(c, s, Release(i))
    ensures n == 1 ==> Apply(c, s, Release(i)) == Given(s, i, k)
    ensures n > 1 ==> GiveTime(s.bank, k, pc) == n - 1
    ensures n > 1 ==> Apply(c, s, Release(i)) == s.(inflight := s.inflight[i := s.inflight[i].(pc := pc)])
  {
    pc := if n == 2 then Swap(s.bank.At(k)) else if n == 3 then Reload else Guard;
  }

  lemma SameGiven(s: State, s': State, i: nat, k: Counter)
    requires i < |s.inflight| && s.inflight[i].Putting?
    requires exists pc :: s' == s.(inflight := s.inflight[i := s.inflight[i].(pc := pc)])
    ensures Given(s', i, k) == Given(s, i, k)
  {
    var q := Gave(s.inflight[i].op, s.inflight[i].done + 1);
    assert s'.inflight[i := q] == s.inflight[i := q];
  }

  /** Undisturbed, a completion anywhere in a `Put` that its counter covers gives it back within four. */
  lemma {:induction false} PutGives(c: Config, s: State, i: nat, k: Counter, n: nat)
    requires i < |s.inflight| && WellFormed(s.inflight[i]) && s.inflight[i].Putting? && !s.inflight[i].op.kind.Default?
    requires k == Puts(s.inflight[i].op)[s.inflight[i].done] && !Skipped(c, k) && n == GiveTime(s.bank, k, s.inflight[i].pc)
    requires k == Lwt || Amount(s.inflight[i].op, k) <= s.bank.At(k)
    ensures OwnReleases(c, s, i, n) == Given(s, i, k)
    decreases n
  {
    var pc := NextOfPut(c, s, i, k, n);
    if n > 1 {
      var s' := s.(inflight := s.inflight[i := s.inflight[i].(pc := pc)]);
      PutGives(c, s', i, k, n - 1);
      SameGiven(s, s', i, k);
    }
  }

  /** What a request takes on its way in, it gives back in the opposite order on its way out. */
  lemma ReleasedInReverse(op: Op, i: nat)
    requires !op.kind.Default? && i < 3
    ensures |Gets(op)| == |Puts(op)| == 3 && Puts(op)[i] == Gets(op)[2 - i]
    ensures Gets(op)[i] == [Lwt, if op.kind.Read? then ReadOps else WriteOps, if op.kind.Read? then ReadBW else WriteBW][i]
    ensures Amount(op, Gets(op)[i]) == [1, 1, op.kb][i]
  {
  }

  /** A step of a worker inside a `Get` or a `Put` changes the state unless it sleeps at a shut gate. */
  lemma MovesUnlessStuck(c: Config, lim: Bank, s: State, w: nat, thr: nat)
    requires Enabled(c, s, Work(w, thr)) && (s.workers[w].Getting? ==> thr == lim.At(Gets(s.workers[w].op)[s.workers[w].done]))
    ensures Apply(c, s, Work(w, thr)) == s <==> StuckAt(c, lim, s.bank, s.workers[w])
  {
    var e := MicroStep(c, s.bank, s.workers[w], thr);
    if StuckAt(c, lim, s.bank, s.workers[w]) {
      assert s.workers[w := e.proc] == s.workers;
    } else {
      assert e.proc != s.workers[w];
      assert s.workers[w := e.proc][w] != s.workers[w];
    }
  }

  /** With the first gate switched off its counter is never touched. */
  lemma {:induction false} OffIsUntouched(c: Config, tr: Trace)
    requires c.t == 0 && Valid(c, tr)
    ensures After(c, tr).bank.lwt == 0
  {
    if tr.Then? {
      OffIsUntouched(c, tr.before);
      OffStep(c, After(c, tr.before), tr.act);
    }
  }

  lemma OffStep(c: Config, s: State, a: Action)
    requires c.t == 0 && Enabled(c, s, a)
    ensures Apply(c, s, a).bank.lwt == s.bank.lwt
  {
  }

  // ------------------------------------------------------------------ runs with fixed throttles

  ghost predicate Fixed(c: Config, lim: Bank, tr: Trace)
    requires Valid(c, tr)
  {
    tr.Then? ==> Fixed(c, lim, tr.before) && Obeys(lim, After(c, tr.before), tr.act)
  }

  ghost predicate Reachable(c: Config, lim: Bank, s: State) {
    exists tr :: Valid(c, tr) && Fixed(c, lim, tr) && After(c, tr) == s
  }

  lemma ReachStep(c: Config, lim: Bank, s: State, a: Action)
    requires Reachable(c, lim, s) && Enabled(c, s, a) && Obeys(lim, s, a)
    ensures Reachable(c, lim, Apply(c, s, a))
  {
    var tr :| Valid(c, tr) && Fixed(c, lim, tr) && After(c, tr) == s;
    assert Valid(c, Then(tr, a)) && Fixed(c, lim, Then(tr, a));
  }

  function Returned(s: State, i: nat, k: Counter): State
    requires i < |s.inflight| && s.inflight[i].Putting? && Amount(s.inflight[i].op, k) <= s.bank.At(k)
  {
    var p := s.inflight[i];
    State(s.bank.Set(k, s.bank.At(k) - Amount(p.op, k)), s.workers, s.inflight[i := Gave(p.op, p.done + 1)], s.rejected)
  }

  lemma ReachVia(c: Config, lim: Bank, s: State, a: Action, s': State)
    requires Reachable(c, lim, s) && Enabled(c, s, a) && Obeys(lim, s, a) && Apply(c, s, a) == s'
    ensures Reachable(c, lim, s')
  {
    ReachStep(c, lim, s, a);
  }

  /** `s'` is `s` after worker `w` has taken counter `k`. */
  predicate Took(c: Config, lim: Bank, s: State, w: nat, k: Counter, s': State) {
    && w < |s.workers| && s.workers[w].Getting?
    && s'.bank == s.bank.Set(k, (s.bank.At(k) + Amount(s.workers[w].op, k)) % WORD)
    && s'.workers == s.workers[w := if Passes(c, k, lim.At(k), s.bank.At(k)) then Got(s.workers[w].op, s.workers[w].done + 1)
                                    else s.workers[w].(at := Waiting)]
    && s'.inflight == s.inflight && s'.rejected == s.rejected
  }

  /** Two undisturbed steps of a worker take one counter. */
  lemma TakeSteps(c: Config, lim: Bank, s: State, w: nat, k: Counter, mid: State, s': State)
    requires Took(c, lim, s, w, k, s')
    requires var p := s.workers[w];
             && WellFormed(p) && p.at.Load? && k == Gets(p.op)[p.done] && !Skipped(c, k)
             && mid == s.(workers := s.workers[w := p.(at := Cas(s.bank.At(k)))])
    ensures var a := Work(w, lim.At(k));
            && Enabled(c, s, a) && Obeys(lim, s, a) && Apply(c, s, a) == mid
            && Enabled(c, mid, a) && Obeys(lim, mid, a) && Apply(c, mid, a) == s'
  {
    assert mid.workers[w := s'.workers[w]] == s'.workers;
  }

  lemma TakeCounter(c: Config, lim: Bank, s: State, w: nat, k: Counter, s': State)
    requires Reachable(c, lim, s) && Took(c, lim, s, w, k, s')
    requires var p := s.workers[w];
             WellFormed(p) && p.at.Load? && k == Gets(p.op)[p.done] && !Skipped(c, k)
    ensures Reachable(c, lim, s')
  {
    var mid := s.(workers := s.workers[w := s.workers[w].(at := Cas(s.bank.At(k)))]);
    TakeSteps(c, lim, s, w, k, mid, s');
    ReachVia(c, lim, s, Work(w, lim.At(k)), mid);
    ReachVia(c, lim, mid, Work(w, lim.At(k)), s');
  }

  /** Three undisturbed steps of a completion give one counter back. */
  lemma GiveSteps(c: Config, s: State, i: nat, k: Counter, one: State, two: State)
    requires i < |s.inflight|
    requires var p := s.inflight[i];
             && WellFormed(p) && p.Putting? && p.pc.Guard? && !p.op.kind.Default?
             && k == Puts(p.op)[p.done] && !Skipped(c, k)
             && Amount(p.op, k) <= s.bank.At(k) < WORD
    requires one == s.(inflight := s.inflight[i := s.inflight[i].(pc := Reload)])
    requires two == s.(inflight := s.inflight[i := s.inflight[i].(pc := Swap(s.bank.At(k)))])
    ensures Enabled(c, s, Release(i)) && Apply(c, s, Release(i)) == one
    ensures Enabled(c, one, Release(i)) && Apply(c, one, Release(i)) == two
    ensures Enabled(c, two, Release(i)) && Apply(c, two, Release(i)) == Returned(s, i, k)
  {
    assert one.inflight[i := two.inflight[i]] == two.inflight;
    var p := Gave(s.inflight[i].op, s.inflight[i].done + 1);
    assert two.inflight[i := p] == s.inflight[i := p];
  }

  lemma GiveCounter(c: Config, lim: Bank, s: State, i: nat, k: Counter)
    requires Reachable(c, lim, s) && i < |s.inflight|
    requires var p := s.inflight[i];
             && WellFormed(p) && p.Putting? && p.pc.Guard? && !p.op.kind.Default?
             && k == Puts(p.op)[p.done] && !Skipped(c, k)
             && Amount(p.op, k) <= s.bank.At(k) < WORD
    ensures Reachable(c, lim, Returned(s, i, k))
  {
    var one := s.(inflight := s.inflight[i := s.inflight[i].(pc := Reload)]);
    var two := s.(inflight := s.inflight[i := s.inflight[i].(pc := Swap(s.bank.At(k)))]);
    GiveSteps(c, s, i, k, one, two);
    ReachVia(c, lim, s, Release(i), one);
    ReachVia(c, lim, one, Release(i), two);
    ReachVia(c, lim, two, Release(i), Returned(s, i, k));
  }

  // ------------------------------------------------------------------ whole requests

  function OpsOf(op: Op): Counter { if op.kind.Read? then ReadOps else WriteOps }

  function BwOf(op: Op): Counter { if op.kind.Read? then ReadBW else WriteBW }

  /** Counters of one kind of request, the others at zero. */
  function BankOf(op: Op, lwt: nat, ops: nat, bw: nat): Bank {
    if op.kind.Read? then Bank(lwt, 0, 0, ops, bw) else Bank(lwt, ops, bw, 0, 0)
  }

  lemma BankSet(op: Op, l: nat, o: nat, b: nat, v: nat)
    requires !op.kind.Default?
    ensures BankOf(op, l, o, b).At(Lwt) == l && BankOf(op, l, o, b).Set(Lwt, v) == BankOf(op, v, o, b)
    ensures BankOf(op, l, o, b).At(OpsOf(op)) == o && BankOf(op, l, o, b).Set(OpsOf(op), v) == BankOf(op, l, v, b)
    ensures BankOf(op, l, o, b).At(BwOf(op)) == b && BankOf(op, l, o, b).Set(BwOf(op), v) == BankOf(op, l, o, v)
    ensures Gets(op) == [Lwt, OpsOf(op), BwOf(op)] && Puts(op) == [BwOf(op), OpsOf(op), Lwt]
  {
  }

  /** What a worker does next that finds gate number `done` of `op` open or shut. */
  function Past(op: Op, done: nat, open: bool): Proc
    requires done < 3 && !op.kind.Default?
  {
    if open then Got(op, done + 1) else Getting(op, done, Waiting)
  }

  lemma TookHolds(c: Config, lim: Bank, op: Op, w: nat, k: Counter, done: nat, from: Bank, to: Bank, ws: seq<Proc>,
                  s: State, s': State)
    requires !op.kind.Default? && w < |ws| && done < 3 && k == Gets(op)[done] && from.At(k) + Amount(op, k) < WORD
    requires to == from.Set(k, from.At(k) + Amount(op, k))
    requires s.bank == from && s.workers == ws[w := Getting(op, done, Load)]
    requires s' == State(to, ws[w := Past(op, done, Passes(c, k, lim.At(k), from.At(k)))], s.inflight, s.rejected)
    ensures Took(c, lim, s, w, k, s')
  {
    assert s.workers[w := s'.workers[w]] == s'.workers;
  }

  /** An idle worker fetches `op` and takes its first counter. */
  lemma TakeFirst(c: Config, lim: Bank, op: Op, w: nat, l: nat, o: nat, b: nat, ws: seq<Proc>, fl: seq<Proc>, r: nat)
    requires 0 < c.t && !op.kind.Default? && w < |ws| && ws[w].Idle? && l + 1 < WORD
    requires Reachable(c, lim, State(BankOf(op, l, o, b), ws, fl, r))
    ensures Reachable(c, lim, State(BankOf(op, l + 1, o, b), ws[w := Past(op, 0, l <= c.t)], fl, r))
  {
    var s := State(BankOf(op, l, o, b), ws, fl, r);
    var s1 := State(BankOf(op, l, o, b), ws[w := Getting(op, 0, Load)], fl, r);
    var s2 := State(BankOf(op, l + 1, o, b), ws[w := Past(op, 0, l <= c.t)], fl, r);
    BankSet(op, l, o, b, l + 1);
    ReachVia(c, lim, s, Fetch(w, op), s1);
    TookHolds(c, lim, op, w, Lwt, 0, s.bank, s2.bank, ws, s1, s2);
    TakeCounter(c, lim, s1, w, Lwt, s2);
  }

  /** ... its second ... */
  lemma TakeSecond(c: Config, lim: Bank, op: Op, w: nat, l: nat, o: nat, b: nat, ws: seq<Proc>, fl: seq<Proc>, r: nat)
    requires !op.kind.Default? && w < |ws| && o + 1 < WORD
    requires Reachable(c, lim, State(BankOf(op, l, o, b), ws[w := Getting(op, 1, Load)], fl, r))
    ensures Reachable(c, lim, State(BankOf(op, l, o + 1, b),
                                    ws[w := Past(op, 1, Passes(c, OpsOf(op), lim.At(OpsOf(op)), o))], fl, r))
  {
    var s := State(BankOf(op, l, o, b), ws[w := Getting(op, 1, Load)], fl, r);
    var s' := State(BankOf(op, l, o + 1, b), ws[w := Past(op, 1, Passes(c, OpsOf(op), lim.At(OpsOf(op)), o))], fl, r);
    BankSet(op, l, o, b, o + 1);
    TookHolds(c, lim, op, w, OpsOf(op), 1, s.bank, s'.bank, ws, s, s');
    TakeCounter(c, lim, s, w, OpsOf(op), s');
  }

  /** ... and its third. */
  lemma TakeThird(c: Config, lim: Bank, op: Op, w: nat, l: nat, o: nat, b: nat, ws: seq<Proc>, fl: seq<Proc>, r: nat)
    requires !op.kind.Default? && w < |ws| && b + op.kb < WORD
    requires Reachable(c, lim, State(BankOf(op, l, o, b), ws[w := Getting(op, 2, Load)], fl, r))
    ensures Reachable(c, lim, State(BankOf(op, l, o, b + op.kb),
                                    ws[w := Past(op, 2, Passes(c, BwOf(op), lim.At(BwOf(op)), b))], fl, r))
  {
    var s := State(BankOf(op, l, o, b), ws[w := Getting(op, 2, Load)], fl, r);
    var s' := State(BankOf(op, l, o, b + op.kb), ws[w := Past(op, 2, Passes(c, BwOf(op), lim.At(BwOf(op)), b))], fl, r);
    BankSet(op, l, o, b, b + op.kb);
    TookHolds(c, lim, op, w, BwOf(op), 2, s.bank, s'.bank, ws, s, s');
    TakeCounter(c, lim, s, w, BwOf(op), s');
  }

  /** An idle worker takes a request through three open gates and hands it over. */
  lemma Admit(c: Config, lim: Bank, op: Op, w: nat, l: nat, o: nat, b: nat, ws: seq<Proc>, fl: seq<Proc>, r: nat)
    requires 0 < c.t && !op.kind.Default? && w < |ws| && ws[w].Idle? && l + 1 < WORD && o + 1 < WORD && b + op.kb < WORD
    requires l <= c.t && Passes(c, OpsOf(op), lim.At(OpsOf(op)), o) && Passes(c, BwOf(op), lim.At(BwOf(op)), b)
    requires Reachable(c, lim, State(BankOf(op, l, o, b), ws, fl, r))
    ensures Reachable(c, lim, State(BankOf(op, l + 1, o + 1, b + op.kb), ws, fl + [Running(op)], r))
  {
    TakeFirst(c, lim, op, w, l, o, b, ws, fl, r);
    TakeSecond(c, lim, op, w, l + 1, o, b, ws, fl, r);
    TakeThird(c, lim, op, w, l + 1, o + 1, b, ws, fl, r);
    var s := State(BankOf(op, l + 1, o + 1, b + op.kb), ws[w := Ready(op)], fl, r);
    ReachStep(c, lim, s, HandOver(w));
    assert s.workers[w := Idle] == ws;
  }

  /** A request handed over completes and gives everything back. */
  lemma Finish(c: Config, lim: Bank, op: Op, i: nat, l: nat, o: nat, b: nat, ws: seq<Proc>, fl: seq<Proc>, r: nat)
    requires 0 < c.t && !op.kind.Default? && i < |fl| && fl[i] == Running(op)
    requires l + 1 < WORD && o + 1 < WORD && b + op.kb < WORD
    requires Reachable(c, lim, State(BankOf(op, l + 1, o + 1, b + op.kb), ws, fl, r))
    ensures Reachable(c, lim, State(BankOf(op, l, o, b), ws, fl[i := Idle], r))
  {
    var s := State(BankOf(op, l + 1, o + 1, b + op.kb), ws, fl, r);
    var s0 := State(BankOf(op, l + 1, o + 1, b + op.kb), ws, fl[i := Putting(op, 0, Guard)], r);
    ReachVia(c, lim, s, Complete(i), s0);
    GiveAll(c, lim, op, i, l, o, b, ws, fl, r);
  }

  lemma GiveAll(c: Config, lim: Bank, op: Op, i: nat, l: nat, o: nat, b: nat, ws: seq<Proc>, fl: seq<Proc>, r: nat)
    requires 0 < c.t && !op.kind.Default? && i < |fl|
    requires l + 1 < WORD && o + 1 < WORD && b + op.kb < WORD
    requires Reachable(c, lim, State(BankOf(op, l + 1, o + 1, b + op.kb), ws, fl[i := Putting(op, 0, Guard)], r))
    ensures Reachable(c, lim, State(BankOf(op, l, o, b), ws, fl[i := Idle], r))
  {
    BankSet(op, l + 1, o + 1, b + op.kb, b);
    BankSet(op, l + 1, o + 1, b, o);
    BankSet(op, l + 1, o, b, l);
    var s0 := State(BankOf(op, l + 1, o + 1, b + op.kb), ws, fl[i := Putting(op, 0, Guard)], r);
    var s1 := State(BankOf(op, l + 1, o + 1, b), ws, fl[i := Putting(op, 1, Guard)], r);
    var s2 := State(BankOf(op, l + 1, o, b), ws, fl[i := Putting(op, 2, Guard)], r);
    assert Returned(s0, i, BwOf(op)) == s1 by { assert s0.inflight[i := s1.inflight[i]] == s1.inflight; }
    assert Returned(s1, i, OpsOf(op)) == s2 by { assert s1.inflight[i := s2.inflight[i]] == s2.inflight; }
    assert Returned(s2, i, Lwt).inflight == fl[i := Idle];
    GiveCounter(c, lim, s0, i, BwOf(op));
    GiveCounter(c, lim, s1, i, OpsOf(op));
    GiveCounter(c, lim, s2, i, Lwt);
  }

  /** A rejected name: `PutlwtCas` without a get. */
  lemma RejectSteps(c: Config, lim: Bank, s: State, w: nat, s1: State, s2: State, s3: State, s4: State)
    requires 0 < c.t && w < |s.workers| && s.workers[w].Idle? && s.bank.lwt < WORD
    requires s1 == s.(workers := s.workers[w := Putting(Op(Default, 0), 0, Guard)])
    requires s2 == s.(workers := s.workers[w := Putting(Op(Default, 0), 0, Reload)])
    requires s3 == s.(workers := s.workers[w := Putting(Op(Default, 0), 0, Swap(s.bank.lwt))])
    requires s4 == s.(bank := s.bank.(lwt := (s.bank.lwt - 1) % WORD), rejected := s.rejected + 1)
    ensures Enabled(c, s, Reject(w)) && Apply(c, s, Reject(w)) == s1
    ensures Enabled(c, s1, Work(w, 0)) && Obeys(lim, s1, Work(w, 0)) && Apply(c, s1, Work(w, 0)) == s2
    ensures Enabled(c, s2, Work(w, 0)) && Obeys(lim, s2, Work(w, 0)) && Apply(c, s2, Work(w, 0)) == s3
    ensures Enabled(c, s3, Work(w, 0)) && Obeys(lim, s3, Work(w, 0)) && Apply(c, s3, Work(w, 0)) == s4
  {
    assert s1.workers[w := s2.workers[w]] == s2.workers && s2.workers[w := s3.workers[w]] == s3.workers;
    assert s3.workers[w := Idle] == s.workers;
  }

  lemma RejectOne(c: Config, lim: Bank, s: State, w: nat, s4: State)
    requires Reachable(c, lim, s) && 0 < c.t && w < |s.workers| && s.workers[w].Idle? && s.bank.lwt < WORD
    requires s4 == s.(bank := s.bank.(lwt := (s.bank.lwt - 1) % WORD), rejected := s.rejected + 1)
    ensures Reachable(c, lim, s4)
  {
    var s1 := s.(workers := s.workers[w := Putting(Op(Default, 0), 0, Guard)]);
    var s2 := s.(workers := s.workers[w := Putting(Op(Default, 0), 0, Reload)]);
    var s3 := s.(workers := s.workers[w := Putting(Op(Default, 0), 0, Swap(s.bank.lwt))]);
    RejectSteps(c, lim, s, w, s1, s2, s3, s4);
    ReachVia(c, lim, s, Reject(w), s1);
    ReachVia(c, lim, s1, Work(w, 0), s2);
    ReachVia(c, lim, s2, Work(w, 0), s3);
    ReachVia(c, lim, s3, Work(w, 0), s4);
  }

  lemma PredWord(l: nat, l': nat)
    requires l < WORD && l' == if l == 0 then WORD - 1 else l - 1
    ensures (l - 1) % WORD == l'
  {
  }

  lemma RejectedState(op: Op, l: nat, l': nat, o: nat, b: nat, s: State, s': State)
    requires l < WORD && l' == if l == 0 then WORD - 1 else l - 1
    requires s.bank == BankOf(op, l, o, b) && s' == State(BankOf(op, l', o, b), s.workers, s.inflight, s.rejected + 1)
    ensures s' == s.(bank := s.bank.(lwt := (s.bank.lwt - 1) % WORD), rejected := s.rejected + 1) && s.bank.lwt == l
  {
    PredWord(l, l');
  }

  lemma RejectTo(c: Config, lim: Bank, op: Op, w: nat, l: nat, l': nat, o: nat, b: nat, ws: seq<Proc>, fl: seq<Proc>, r: nat)
    requires 0 < c.t && w < |ws| && ws[w].Idle? && l < WORD && l' == if l == 0 then WORD - 1 else l - 1
    requires Reachable(c, lim, State(BankOf(op, l, o, b), ws, fl, r))
    ensures Reachable(c, lim, State(BankOf(op, l', o, b), ws, fl, r + 1))
  {
    var s, s' := State(BankOf(op, l, o, b), ws, fl, r), State(BankOf(op, l', o, b), ws, fl, r + 1);
    RejectedState(op, l, l', o, b, s, s');
    RejectOne(c, lim, s, w, s');
  }

  /** One name is rejected, or none. */
  lemma RejectMaybe(c: Config, lim: Bank, op: Op, w: nat, l: nat, l': nat, o: nat, b: nat, ws: seq<Proc>, fl: seq<Proc>, e: nat, e': nat)
    requires 0 < c.t && w < |ws| && ws[w].Idle? && l < WORD && l + e == l' + e' && e <= e' <= e + 1
    requires Reachable(c, lim, State(BankOf(op, l, o, b), ws, fl, e))
    ensures Reachable(c, lim, State(BankOf(op, l', o, b), ws, fl, e'))
  {
    if e < e' {
      RejectTo(c, lim, op, w, l, l', o, b, ws, fl, e);
    }
  }

  // ------------------------------------------------------------------ how a server gets stuck

  function Least(a: nat, b: nat): nat { if a < b then a else b }

  /** The second or the third gate is shut, and stays so when a request of `x` KB finishes. */
  predicate Blocked(c: Config, lim: Bank, op: Op, o: nat, b: nat, x: nat) {
    x <= b && (!Passes(c, OpsOf(op), lim.At(OpsOf(op)), o) || !Passes(c, BwOf(op), lim.At(BwOf(op)), b - x))
  }

  /** A worker falls asleep at a gate that will still be shut when a request of `x` KB has finished. */
  lemma Park(c: Config, lim: Bank, op: Op, x: nat, w: nat, l: nat, o: nat, b: nat, ws: seq<Proc>, fl: seq<Proc>, r: nat)
    returns (d: nat, o': nat)
    requires 0 < c.t && !op.kind.Default? && op.kb == 0 && w < |ws| && ws[w].Idle?
    requires l + 1 < WORD && 0 < o && o + 1 < WORD && b < WORD && Blocked(c, lim, op, o, b, x)
    requires Reachable(c, lim, State(BankOf(op, l, o, b), ws, fl, r))
    ensures d < 3 && o <= o' <= o + 1
    ensures StuckAt(c, lim, BankOf(op, l, o' - 1, b - x), Getting(op, d, Waiting))
    ensures Reachable(c, lim, State(BankOf(op, l + 1, o', b), ws[w := Getting(op, d, Waiting)], fl, r))
  {
    TakeFirst(c, lim, op, w, l, o, b, ws, fl, r);
    d, o' := 0, o;
    if l <= c.t {
      TakeSecond(c, lim, op, w, l + 1, o, b, ws, fl, r);
      d, o' := 1, o + 1;
      if Passes(c, OpsOf(op), lim.At(OpsOf(op)), o) {
        TakeThird(c, lim, op, w, l + 1, o + 1, b, ws, fl, r);
        d := 2;
      }
    }
    BankSet(op, l, o' - 1, b - x, 0);
  }

  lemma StaysStuck(c: Config, lim: Bank, op: Op, l: nat, o: nat, b: nat, l': nat, o': nat, p: Proc)
    requires StuckAt(c, lim, BankOf(op, l, o, b), p) && l <= l' && o <= o' && !op.kind.Default?
    ensures StuckAt(c, lim, BankOf(op, l', o', b), p)
  {
  }

  ghost predicate StuckUpTo(c: Config, lim: Bank, b: Bank, ws: seq<Proc>, j: nat) {
    && |ws| == c.n && j <= c.n
    && (forall w :: 0 <= w < j ==> StuckAt(c, lim, b, ws[w]))
    && (forall w :: j <= w < c.n ==> ws[w].Idle?)
  }

  /** Only request `i`, for `x`, is outstanding. */
  predicate OnlyOne(fl: seq<Proc>, i: nat, x: Op) {
    i < |fl| && fl[i] == Running(x) && AllIdle(fl[i := Idle])
  }

  ghost predicate CanStop(c: Config, lim: Bank, r: nat, m: nat) {
    exists s :: Reachable(c, lim, s) && Stuck(c, lim, s) && s.rejected == r && |s.inflight| == m
  }

  /** All workers are asleep and the last request finishes. */
  lemma ParkLast(c: Config, lim: Bank, op: Op, x: Op, l: nat, o: nat, b: nat, ws: seq<Proc>, fl: seq<Proc>, i: nat, r: nat)
    requires 0 < c.t && x.kind == op.kind && !op.kind.Default? && OnlyOne(fl, i, x)
    requires l + 1 < WORD && 0 < o < WORD && x.kb <= b < WORD
    requires StuckUpTo(c, lim, BankOf(op, l, o - 1, b - x.kb), ws, c.n)
    requires Reachable(c, lim, State(BankOf(op, l + 1, o, b), ws, fl, r))
    ensures CanStop(c, lim, r, |fl|)
  {
    assert BankOf(op, l + 1, o, b) == BankOf(x, l + 1, o - 1 + 1, b - x.kb + x.kb);
    Finish(c, lim, x, i, l, o - 1, b - x.kb, ws, fl, r);
    var s := State(BankOf(x, l, o - 1, b - x.kb), ws, fl[i := Idle], r);
    assert s.bank == BankOf(op, l, o - 1, b - x.kb);
    assert Stuck(c, lim, s);
  }

  /** A name is rejected, if some are left, and the next worker falls asleep. */
  lemma ParkNext(c: Config, lim: Bank, op: Op, x: nat, j: nat, l: nat, l': nat, o: nat, b: nat, ws: seq<Proc>, fl: seq<Proc>,
                 e: nat, e': nat)
    returns (ws': seq<Proc>, o': nat)
    requires 0 < c.t && !op.kind.Default? && op.kb == 0 && j < c.n && e <= e' <= e + 1 && l + 1 + e == l' + e'
    requires Blocked(c, lim, op, o, b, x) && l + 2 < WORD && 0 < o && o + 1 < WORD && b < WORD
    requires StuckUpTo(c, lim, BankOf(op, l, o - 1, b - x), ws, j)
    requires Reachable(c, lim, State(BankOf(op, l + 1, o, b), ws, fl, e))
    ensures o <= o' <= o + 1 && StuckUpTo(c, lim, BankOf(op, l', o' - 1, b - x), ws', j + 1)
    ensures Reachable(c, lim, State(BankOf(op, l' + 1, o', b), ws', fl, e'))
  {
    RejectMaybe(c, lim, op, j, l + 1, l', o, b, ws, fl, e, e');
    var d: nat;
    d, o' := Park(c, lim, op, x, j, l', o, b, ws, fl, e');
    ws' := ws[j := Getting(op, d, Waiting)];
    StuckOneMore(c, lim, op, j, l, o - 1, b - x, l', o' - 1, ws, Getting(op, d, Waiting));
  }

  lemma StuckOneMore(c: Config, lim: Bank, op: Op, j: nat, l: nat, o: nat, b: nat, l': nat, o': nat, ws: seq<Proc>, p: Proc)
    requires StuckUpTo(c, lim, BankOf(op, l, o, b), ws, j) && j < c.n && l <= l' && o <= o' && !op.kind.Default?
    requires StuckAt(c, lim, BankOf(op, l', o', b), p)
    ensures StuckUpTo(c, lim, BankOf(op, l', o', b), ws[j := p], j + 1)
  {
    forall w | 0 <= w < j
      ensures StuckAt(c, lim, BankOf(op, l', o', b), ws[w])
    {
      StaysStuck(c, lim, op, l, o, b, l', o', ws[w]);
    }
  }

  /**
    `j` workers are asleep at gates that stay shut and one request is outstanding: all the others follow,
    a name is rejected before each while some are left, and then the request finishes.
   */
  lemma {:induction false} ParkRest(c: Config, lim: Bank, op: Op, x: Op, j: nat, l: nat, o: nat, b: nat, ws: seq<Proc>,
                                    fl: seq<Proc>, i: nat, e: nat, r: nat)
    requires 0 < c.t && !op.kind.Default? && op.kb == 0 && x.kind == op.kind && OnlyOne(fl, i, x)
    requires Blocked(c, lim, op, o, b, x.kb) && e <= r <= c.n && l + e == j && (l == 0 || e == r)
    requires c.n + 3 < WORD && 0 < o && o + (c.n - j) + 1 < WORD && b < WORD
    requires StuckUpTo(c, lim, BankOf(op, l, o - 1, b - x.kb), ws, j)
    requires Reachable(c, lim, State(BankOf(op, l + 1, o, b), ws, fl, e))
    ensures CanStop(c, lim, r, |fl|)
    decreases c.n - j
  {
    if j == c.n {
      ParkLast(c, lim, op, x, l, o, b, ws, fl, i, r);
    } else {
      var e', l' := if e < r then e + 1 else e, if e < r then l else l + 1;
      var ws', o' := ParkNext(c, lim, op, x.kb, j, l, l', o, b, ws, fl, e, e');
      ParkRest(c, lim, op, x, j + 1, l', o', b, ws', fl, i, e', r);
    }
  }

  ghost function Idles(n: nat): seq<Proc> { seq(n, _ => Idle) }

  ghost function Asleep(n: nat, op: Op, d: nat, j: nat): seq<Proc> {
    seq(n, w => if w < j then Getting(op, d, Waiting) else Idle)
  }

  ghost function Served(m: nat, op: Op, d: nat): seq<Proc> {
    seq(m, i => if i < d then Idle else Running(op))
  }

  lemma StartsEmpty(c: Config, lim: Bank, op: Op)
    ensures Reachable(c, lim, State(BankOf(op, 0, 0, 0), Idles(c.n), [], 0))
  {
    assert Valid(c, Start) && Fixed(c, lim, Start) && After(c, Start) == Init(c);
    assert Init(c).workers == Idles(c.n);
  }

  /** The first worker waits behind a request of its own size, which is over the limit by itself. */
  lemma WaitForItself(c: Config, lim: Bank, op: Op, e: nat)
    requires 0 < c.n && 0 < c.t && !op.kind.Default? && lim.At(BwOf(op)) > 0 && op.kb == lim.At(BwOf(op)) + 1
    requires 2 * op.kb < WORD && e <= 1
    ensures Reachable(c, lim, State(BankOf(op, 2 - e, 2, 2 * op.kb), Idles(c.n)[0 := Getting(op, 2, Waiting)], [Running(op)], e))
  {
    var ws, run := Idles(c.n), [Running(op)];
    StartsEmpty(c, lim, op);
    Admit(c, lim, op, 0, 0, 0, 0, ws, [], 0);
    assert [] + run == run;
    RejectMaybe(c, lim, op, 0, 1, 1 - e, 1, op.kb, ws, run, 0, e);
    TakeFirst(c, lim, op, 0, 1 - e, 1, op.kb, ws, run, e);
    TakeSecond(c, lim, op, 0, 2 - e, 1, op.kb, ws, run, e);
    TakeThird(c, lim, op, 0, 2 - e, 2, op.kb, ws, run, e);
  }

  lemma StuckAtBandwidth(c: Config, lim: Bank, op: Op, r: nat)
    requires 0 < c.n && 0 < c.t && !op.kind.Default? && lim.At(BwOf(op)) > 0 && op.kb == lim.At(BwOf(op)) + 1
    requires 2 * op.kb < WORD && c.n + 4 < WORD && r <= c.n
    ensures CanStop(c, lim, r, 1)
  {
    var e, zero := Least(r, 1), Op(op.kind, 0);
    WaitForItself(c, lim, op, e);
    var ws := Idles(c.n)[0 := Getting(op, 2, Waiting)];
    BankSet(op, 1 - e, 1, op.kb, 0);
    assert BankOf(zero, 2 - e, 2, 2 * op.kb) == BankOf(op, 2 - e, 2, 2 * op.kb);
    assert BankOf(zero, 1 - e, 1, op.kb) == BankOf(op, 1 - e, 1, op.kb);
    assert StuckAt(c, lim, BankOf(zero, 1 - e, 1, op.kb), ws[0]);
    assert [Running(op)][0 := Idle] == [Idle];
    ParkRest(c, lim, zero, op, 1, 1 - e, 2, 2 * op.kb, ws, [Running(op)], 0, e, r);
  }

  /** Names rejected while `m` requests are let through: one before each but the first, as long as some are left. */
  function Rejecting(m: nat, r: nat): nat { if m == 0 then 0 else Least(r, m - 1) }

  /** A name is rejected, if `e < e'`, and a request let through. */
  lemma AdmitNext(c: Config, lim: Bank, op: Op, m: nat, e: nat, e': nat, ws: seq<Proc>, fl: seq<Proc>)
    requires 0 < |ws| && ws[0].Idle? && 0 < c.t && !op.kind.Default? && op.kb == 0 && m + 1 < WORD
    requires e <= e' <= e + 1 && e' <= m <= c.t + e' && (lim.At(OpsOf(op)) == 0 || m <= lim.At(OpsOf(op)))
    requires Reachable(c, lim, State(BankOf(op, m - e, m, 0), ws, fl, e))
    ensures Reachable(c, lim, State(BankOf(op, m + 1 - e', m + 1, 0), ws, fl + [Running(op)], e'))
  {
    RejectMaybe(c, lim, op, 0, m - e, m - e', m, 0, ws, fl, e, e');
    Admit(c, lim, op, 0, m - e', m, 0, ws, fl, e');
  }

  /** Requests of no KB are let through as long as neither of the first two gates is shut. */
  lemma {:induction false} AdmitMany(c: Config, lim: Bank, op: Op, m: nat, r: nat)
    requires 0 < c.n && 0 < c.t && !op.kind.Default? && op.kb == 0 && m <= c.t + 1 + r && m < WORD - 1
    requires lim.At(OpsOf(op)) == 0 || m <= lim.At(OpsOf(op)) + 1
    ensures Reachable(c, lim, State(BankOf(op, m - Rejecting(m, r), m, 0), Idles(c.n), Served(m, op, 0), Rejecting(m, r)))
  {
    if m == 0 {
      StartsEmpty(c, lim, op);
      assert Served(0, op, 0) == [];
    } else {
      AdmitMany(c, lim, op, m - 1, r);
      AdmitNext(c, lim, op, m - 1, Rejecting(m - 1, r), Rejecting(m, r), Idles(c.n), Served(m - 1, op, 0));
      assert Served(m - 1, op, 0) + [Running(op)] == Served(m, op, 0);
    }
  }

  /** `t + 1` requests have been let through; `i` have finished, each after one more worker had fallen asleep at gate one. */
  ghost function Rolled(c: Config, op: Op, i: nat): State
    requires i <= c.t + 1
  {
    State(BankOf(op, c.t + 1, c.t + 1 - i, 0), Asleep(c.n, op, 0, i), Served(c.t + 1, op, i), 0)
  }

  ghost predicate Rolls(c: Config, lim: Bank, op: Op) {
    && 0 < c.n && 0 < c.t && !op.kind.Default? && op.kb == 0 && c.t + 3 < WORD
    && (lim.At(OpsOf(op)) == 0 || c.t <= lim.At(OpsOf(op)))
  }

  lemma RollAtFirst(c: Config, lim: Bank, op: Op, i: nat, s: State, s': State)
    requires Rolls(c, lim, op) && i <= c.t && i < c.n && s == Rolled(c, op, i) && Reachable(c, lim, s)
    requires s' == Rolled(c, op, i + 1)
    ensures Reachable(c, lim, s')
  {
    var q := c.t;
    TakeFirst(c, lim, op, i, q + 1, q + 1 - i, 0, s.workers, s.inflight, 0);
    assert s.workers[i := Getting(op, 0, Waiting)] == s'.workers;
    assert s.inflight[i := Idle] == s'.inflight;
    Finish(c, lim, op, i, q + 1, q - i, 0, s'.workers, s.inflight, 0);
  }

  lemma {:induction false} RollAll(c: Config, lim: Bank, op: Op, i: nat)
    requires Rolls(c, lim, op) && i <= c.t + 1 && i <= c.n
    ensures Reachable(c, lim, Rolled(c, op, i))
  {
    if i == 0 {
      AdmitMany(c, lim, op, c.t + 1, 0);
      assert Asleep(c.n, op, 0, 0) == Idles(c.n);
    } else {
      RollAll(c, lim, op, i - 1);
      RollAtFirst(c, lim, op, i - 1, Rolled(c, op, i - 1), Rolled(c, op, i));
    }
  }

  /**
    The second gate, limit `q`: `q + 1` requests have been let through and `e` names rejected; `i` requests
    have finished, each after one more worker had fallen asleep at that gate.
   */
  ghost function Queued(c: Config, op: Op, q: nat, e: nat, i: nat): State
    requires e <= q && i <= q + 1
  {
    State(BankOf(op, q + 1 - e, q + 1, 0), Asleep(c.n, op, 1, i), Served(q + 1, op, i), e)
  }

  ghost predicate Queues(c: Config, lim: Bank, op: Op, q: nat, e: nat) {
    && 0 < c.n && 0 < c.t && !op.kind.Default? && op.kb == 0 && lim.At(BwOf(op)) == 0
    && 0 < q == lim.At(OpsOf(op)) < c.n && e <= q && q + 1 - e <= c.t && q + 4 < WORD
  }

  /** Worker `i` meets `q + 1` requests at the second gate. */
  lemma AsleepAtSecond(c: Config, lim: Bank, op: Op, q: nat, i: nat, l: nat, fl: seq<Proc>, r: nat)
    requires !op.kind.Default? && 0 < q == lim.At(OpsOf(op)) && 0 < c.t && l <= c.t && l + 1 < WORD && q + 4 < WORD && i < c.n
    requires Reachable(c, lim, State(BankOf(op, l, q + 1, 0), Asleep(c.n, op, 1, i), fl, r))
    ensures Reachable(c, lim, State(BankOf(op, l + 1, q + 2, 0), Asleep(c.n, op, 1, i + 1), fl, r))
  {
    var ws := Asleep(c.n, op, 1, i);
    TakeFirst(c, lim, op, i, l, q + 1, 0, ws, fl, r);
    TakeSecond(c, lim, op, i, l + 1, q + 1, 0, ws, fl, r);
    assert ws[i := Getting(op, 1, Waiting)] == Asleep(c.n, op, 1, i + 1);
  }

  lemma {:induction false} QueueAll(c: Config, lim: Bank, op: Op, q: nat, r: nat, i: nat)
    requires Queues(c, lim, op, q, Least(r, q)) && i <= q && c.t + c.n + 5 < WORD && q + 1 <= c.t + r
    ensures Reachable(c, lim, Queued(c, op, q, Least(r, q), i))
  {
    var e := Least(r, q);
    if i == 0 {
      AdmitMany(c, lim, op, q + 1, r);
      assert Asleep(c.n, op, 1, 0) == Idles(c.n);
    } else {
      QueueAll(c, lim, op, q, r, i - 1);
      var ws, fl := Asleep(c.n, op, 1, i), Served(q + 1, op, i - 1);
      AsleepAtSecond(c, lim, op, q, i - 1, q + 1 - e, fl, e);
      Finish(c, lim, op, i - 1, q + 1 - e, q + 1, 0, ws, fl, e);
      assert fl[i - 1 := Idle] == Served(q + 1, op, i);
    }
  }

  /** One more worker falls asleep than the gate lets through, with one request left outstanding. */
  lemma QueueOver(c: Config, lim: Bank, op: Op, q: nat, r: nat)
    requires Queues(c, lim, op, q, Least(r, q)) && c.t + c.n + 5 < WORD && q + 1 <= c.t + r
    ensures var e := Least(r, q + 1);
            Reachable(c, lim, State(BankOf(op, q + 2 - e, q + 2, 0), Asleep(c.n, op, 1, q + 1), Served(q + 1, op, q), e))
  {
    var e0, e := Least(r, q), Least(r, q + 1);
    QueueAll(c, lim, op, q, r, q);
    var ws, fl := Asleep(c.n, op, 1, q), Served(q + 1, op, q);
    RejectMaybe(c, lim, op, q, q + 1 - e0, q + 1 - e, q + 1, 0, ws, fl, e0, e);
    AsleepAtSecond(c, lim, op, q, q, q + 1 - e, fl, e);
  }

  lemma StuckAtOps(c: Config, lim: Bank, op: Op, q: nat, r: nat)
    requires Queues(c, lim, op, q, Least(r, q)) && c.t + c.n + 5 < WORD && q + 1 <= c.t + r && r <= c.n
    ensures CanStop(c, lim, r, q + 1)
  {
    var e := Least(r, q + 1);
    QueueOver(c, lim, op, q, r);
    var ws, fl := Asleep(c.n, op, 1, q + 1), Served(q + 1, op, q);
    BankSet(op, q + 1 - e, q + 1, 0, 0);
    assert StuckAt(c, lim, BankOf(op, q + 1 - e, q + 1, 0), Getting(op, 1, Waiting));
    ParkRest(c, lim, op, op, q + 1, q + 1 - e, q + 2, 0, ws, fl, q, e, r);
  }

  // ------------------------------------------------------------------ exactly when

  predicate IsCount(k: Counter) { k == WriteOps || k == ReadOps }

  lemma {:induction false} SumOfCounts(c: Config, k: Counter, ps: seq<Proc>)
    requires IsCount(k)
    ensures Sum(c, Share(k), ps) <= |ps|
  {
    if ps != [] {
      SumOfCounts(c, k, ps[1..]);
    }
  }

  lemma CountBound(c: Config, k: Counter, s: State)
    requires IsCount(k) && Shape(c, s) && |s.inflight| + c.n < WORD
    ensures Total(c, Share(k), s) < WORD
  {
    SumOfCounts(c, k, s.workers);
    SumOfCounts(c, k, s.inflight);
  }

  /** The two op counters are exact as long as fewer than 2^64 requests have been seen. */
  lemma {:induction false} CountLaw(c: Config, tr: Trace, k: Counter)
    requires Valid(c, tr) && IsCount(k) && |After(c, tr).inflight| + c.n < WORD
    ensures After(c, tr).bank.At(k) == Total(c, Share(k), After(c, tr))
  {
    ShapeKept(c, tr);
    CountBound(c, k, After(c, tr));
    if tr.Then? {
      var s := After(c, tr.before);
      Grows(c, s, tr.act);
      CountLaw(c, tr.before, k);
      ShapeKept(c, tr.before);
      CountBound(c, k, s);
      CountStep(c, s, tr.act, k);
    } else {
      SumOfIdle(c, Share(k), Init(c).workers);
    }
  }

  lemma CountStep(c: Config, s: State, a: Action, k: Counter)
    requires Shape(c, s) && Enabled(c, s, a) && k != Lwt && s.bank.At(k) == Total(c, Share(k), s) < WORD
    requires Total(c, Share(k), Apply(c, s, a)) < WORD
    ensures Apply(c, s, a).bank.At(k) == Total(c, Share(k), Apply(c, s, a))
  {
    match a
    case Work(w, thr) =>
      WorkTotal(c, s, w, thr, Share(k));
      MicroExact(c, s.bank, s.workers[w], thr, k);
    case Release(i) =>
      ReleaseTotal(c, s, i, Share(k));
      MicroExact(c, s.bank, s.inflight[i], 0, k);
    case _ => QuietTotal(c, s, a, Share(k));
  }

  /** What lets the server get stuck with `r` names rejected: workers out of step with a count, or any limit on bandwidth. */
  predicate CanStick(c: Config, lim: Bank, r: nat) {
    || c.t + r < c.n || c.n < r
    || 0 < lim.writeOps < c.n || 0 < lim.readOps < c.n || 0 < lim.writeBW || 0 < lim.readBW
  }

  lemma OpsGateNeeds(c: Config, tr: Trace, lim: Bank, s: State, k: Counter)
    requires Valid(c, tr) && After(c, tr) == s && AllIdle(s.inflight) && |s.inflight| + c.n < WORD
    requires IsCount(k) && Shut(c, lim, s.bank, k)
    ensures 0 < lim.At(k) < c.n
  {
    ShapeKept(c, tr);
    CountLaw(c, tr, k);
    SumOfCounts(c, k, s.workers);
    SumOfIdle(c, Share(k), s.inflight);
  }

  lemma {:induction false} SumOfStuck(c: Config, lim: Bank, b: Bank, ps: seq<Proc>)
    requires c.t != 0
    requires forall i :: 0 <= i < |ps| ==> StuckAt(c, lim, b, ps[i])
    ensures Sum(c, Share(Lwt), ps) == |ps|
  {
    if ps != [] {
      assert StuckAt(c, lim, b, ps[0]);
      SumOfStuck(c, lim, b, ps[1..]);
    }
  }

  lemma FirstGateNeeds(c: Config, tr: Trace, lim: Bank, s: State)
    requires Valid(c, tr) && After(c, tr) == s && Stuck(c, lim, s) && 0 < c.t && c.n < WORD && c.t + s.rejected < WORD
    requires Shut(c, lim, s.bank, Lwt)
    ensures c.t + s.rejected < c.n || c.n < s.rejected
  {
    ShapeKept(c, tr);
    DrainedCount(c, tr, s);
    SumOfStuck(c, lim, s.bank, s.workers);
    DrainedLwt(c.n, s.rejected, c.t);
  }

  lemma StuckNeeds(c: Config, lim: Bank, s: State)
    requires 0 < c.n && 0 < c.t && |s.inflight| + c.n < WORD && c.t + s.rejected < WORD
    requires Reachable(c, lim, s) && Stuck(c, lim, s)
    ensures CanStick(c, lim, s.rejected)
  {
    var tr :| Valid(c, tr) && Fixed(c, lim, tr) && After(c, tr) == s;
    ShapeKept(c, tr);
    assert StuckAt(c, lim, s.bank, s.workers[0]);
    match GateOf(s.workers[0])
    case Lwt => FirstGateNeeds(c, tr, lim, s);
    case WriteOps => OpsGateNeeds(c, tr, lim, s, WriteOps);
    case ReadOps => OpsGateNeeds(c, tr, lim, s, ReadOps);
    case _ =>
  }

  // ------------------------------------------------------------------ the first gate and rejected names

  const PROBE: Op := Op(Read, 0)
  const NO_LIMIT: Bank := Bank(0, 0, 0, 0, 0)

  /** Names are rejected while requests hold the counter ... */
  lemma {:induction false} RejectSome(c: Config, lim: Bank, op: Op, w: nat, l: nat, o: nat, ws: seq<Proc>, fl: seq<Proc>,
                                      r: nat)
    requires 0 < c.t && w < |ws| && ws[w].Idle? && r <= l < WORD
    requires Reachable(c, lim, State(BankOf(op, l, o, 0), ws, fl, 0))
    ensures Reachable(c, lim, State(BankOf(op, l - r, o, 0), ws, fl, r))
  {
    if r > 0 {
      RejectSome(c, lim, op, w, l, o, ws, fl, r - 1);
      RejectTo(c, lim, op, w, l - (r - 1), l - r, o, 0, ws, fl, r - 1);
    }
  }

  /** ... and while none does, which takes the counter below zero. */
  lemma {:induction false} RejectBelow(c: Config, lim: Bank, op: Op, w: nat, ws: seq<Proc>, r: nat)
    requires 0 < c.t && w < |ws| && ws[w].Idle? && 0 < r < WORD
    requires Reachable(c, lim, State(BankOf(op, 0, 0, 0), ws, [], 0))
    ensures Reachable(c, lim, State(BankOf(op, WORD - r, 0, 0), ws, [], r))
  {
    if r == 1 {
      RejectTo(c, lim, op, w, 0, WORD - 1, 0, 0, ws, [], 0);
    } else {
      RejectBelow(c, lim, op, w, ws, r - 1);
      RejectTo(c, lim, op, w, WORD - (r - 1), WORD - r, 0, 0, ws, [], r - 1);
    }
  }

  /** Workers `i` to `j` fall asleep at the first gate while its count is over the limit. */
  lemma {:induction false} SleepMany(c: Config, lim: Bank, op: Op, i: nat, j: nat, l: nat, o: nat, fl: seq<Proc>, r: nat)
    requires 0 < c.t < l && i <= j <= c.n && l + (j - i) < WORD && !op.kind.Default?
    requires Reachable(c, lim, State(BankOf(op, l, o, 0), Asleep(c.n, op, 0, i), fl, r))
    ensures Reachable(c, lim, State(BankOf(op, l + (j - i), o, 0), Asleep(c.n, op, 0, j), fl, r))
  {
    if i < j {
      SleepMany(c, lim, op, i, j - 1, l, o, fl, r);
      var ws := Asleep(c.n, op, 0, j - 1);
      TakeFirst(c, lim, op, j - 1, l + (j - 1 - i), o, 0, ws, fl, r);
      assert ws[j - 1 := Getting(op, 0, Waiting)] == Asleep(c.n, op, 0, j);
    }
  }

  /** All `n` workers asleep at the first gate, `l` on its counter, and requests that have all finished. */
  ghost predicate Still(c: Config, op: Op, l: nat, r: nat, s: State) {
    && s.bank == BankOf(op, l, 0, 0) && s.workers == Asleep(c.n, op, 0, c.n) && AllIdle(s.inflight) && s.rejected == r
  }

  lemma StillIsJam(c: Config, op: Op, l: nat, r: nat, s: State)
    requires Still(c, op, l, r, s) && !op.kind.Default? && c.t < l
    ensures Jammed(c, s) && s.rejected == r
  {
  }

  lemma StillIsStuck(c: Config, lim: Bank, op: Op, l: nat, r: nat, s: State)
    requires Reachable(c, lim, s) && Still(c, op, l, r, s) && !op.kind.Default? && 0 < c.t < l
    ensures CanStop(c, lim, r, |s.inflight|)
  {
    BankSet(op, l, 0, 0, 0);
    assert Stuck(c, lim, s);
  }

  /** Few rejected names: one request is kept outstanding until all have fallen asleep. */
  lemma AllButOneAsleep(c: Config, lim: Bank, op: Op, r: nat, fl: seq<Proc>)
    requires c.t + r < c.n && c.t + c.n + 5 < WORD && Rolls(c, lim, op) && fl == Served(c.t + 1, op, c.t)
    ensures Reachable(c, lim, State(BankOf(op, c.n - r, 1, 0), Asleep(c.n, op, 0, c.n - 1), fl, r))
  {
    var t, n := c.t, c.n;
    RollAll(c, lim, op, t);
    SleepMany(c, lim, op, t, n - 1, t + 1, 1, fl, 0);
    RejectSome(c, lim, op, n - 1, n, 1, Asleep(n, op, 0, n - 1), fl, r);
  }

  lemma JamWithFew(c: Config, lim: Bank, op: Op, r: nat) returns (s: State)
    requires c.t + r < c.n && c.t + c.n + 5 < WORD && Rolls(c, lim, op)
    ensures Reachable(c, lim, s) && Still(c, op, c.n - r, r, s) && |s.inflight| == c.t + 1
  {
    var t, n := c.t, c.n;
    var fl := Served(t + 1, op, t);
    AllButOneAsleep(c, lim, op, r, fl);
    SleepMany(c, lim, op, n - 1, n, n - r, 1, fl, r);
    Finish(c, lim, op, t, n - r, 0, 0, Asleep(n, op, 0, n), fl, r);
    s := State(BankOf(op, n - r, 0, 0), Asleep(n, op, 0, n), fl[t := Idle], r);
  }

  /** More rejected names than workers: the count stays below zero, that is, far above the limit. */
  lemma JamWithMany(c: Config, lim: Bank, op: Op, r: nat) returns (s: State)
    requires 0 < c.n < r && 0 < c.t && c.t + r < WORD && !op.kind.Default?
    ensures Reachable(c, lim, s) && Still(c, op, WORD - r + c.n, r, s) && s.inflight == []
  {
    StartsEmpty(c, lim, op);
    assert Asleep(c.n, op, 0, 0) == Idles(c.n);
    RejectBelow(c, lim, op, 0, Idles(c.n), r);
    SleepMany(c, lim, op, 0, c.n, WORD - r, 0, [], r);
    s := State(BankOf(op, WORD - r + c.n, 0, 0), Asleep(c.n, op, 0, c.n), [], r);
  }

  lemma {:induction false} SumOfAsleep(c: Config, ps: seq<Proc>)
    requires c.t != 0
    requires forall i :: 0 <= i < |ps| ==>
      ps[i].Getting? && ps[i].done == 0 && ps[i].at.Waiting? && !ps[i].op.kind.Default?
    ensures Sum(c, Share(Lwt), ps) == |ps|
  {
    if ps != [] {
      SumOfAsleep(c, ps[1..]);
    }
  }

  /** What a jam with `r` rejected names takes. */
  lemma JamNeeds(c: Config, tr: Trace, s: State)
    requires Valid(c, tr) && After(c, tr) == s && Jammed(c, s)
    requires 0 < c.t && c.n < WORD && c.t + s.rejected < WORD
    ensures c.t + s.rejected < c.n || c.n < s.rejected
  {
    ShapeKept(c, tr);
    DrainedCount(c, tr, s);
    SumOfAsleep(c, s.workers);
    DrainedLwt(c.n, s.rejected, c.t);
  }

  ghost predicate CanJam(c: Config, r: nat) {
    exists tr :: Valid(c, tr) && JammedAt(c, tr, r)
  }

  ghost predicate JammedAt(c: Config, tr: Trace, r: nat)
    requires Valid(c, tr)
  {
    After(c, tr).rejected == r && Jammed(c, After(c, tr))
  }

  lemma JamsIf(c: Config, r: nat)
    requires 0 < c.n && 0 < c.t && c.t + c.n + 5 < WORD && c.t + r < WORD
    requires c.t + r < c.n || c.n < r
    ensures CanJam(c, r)
  {
    var s: State;
    if c.n < r {
      s := JamWithMany(c, NO_LIMIT, PROBE, r);
      StillIsJam(c, PROBE, WORD - r + c.n, r, s);
    } else {
      s := JamWithFew(c, NO_LIMIT, PROBE, r);
      StillIsJam(c, PROBE, c.n - r, r, s);
    }
    var tr :| Valid(c, tr) && Fixed(c, NO_LIMIT, tr) && After(c, tr) == s;
    assert JammedAt(c, tr, r);
  }

  /**
    With `r` rejected names a state with every worker asleep at the first gate for good is reachable
    exactly when there are more workers than the limit and the rejected names together, or fewer
    than rejected names.
   */
  lemma JamIff(c: Config, r: nat)
    requires 0 < c.n && 0 < c.t && c.t + c.n + 5 < WORD && c.t + r < WORD
    ensures CanJam(c, r) <==> c.t + r < c.n || c.n < r
  {
    if c.t + r < c.n || c.n < r {
      JamsIf(c, r);
    }
    forall tr | Valid(c, tr) && JammedAt(c, tr, r)
      ensures c.t + r < c.n || c.n < r
    {
      JamNeeds(c, tr, After(c, tr));
    }
  }

  lemma StickingRun(c: Config, lim: Bank, r: nat) returns (m: nat)
    requires 0 < c.n && 0 < c.t && c.t + 2 * c.n + 5 < WORD && c.t + r < WORD && CanStick(c, lim, r)
    requires 2 * lim.writeBW + 2 < WORD && 2 * lim.readBW + 2 < WORD
    ensures CanStop(c, lim, r, m) && m + c.n < WORD
  {
    if c.n < r {
      var s := JamWithMany(c, lim, PROBE, r);
      StillIsStuck(c, lim, PROBE, WORD - r + c.n, r, s);
      m := 0;
    } else if lim.readBW > 0 {
      StuckAtBandwidth(c, lim, Op(Read, lim.readBW + 1), r);
      m := 1;
    } else if lim.writeBW > 0 {
      StuckAtBandwidth(c, lim, Op(Write, lim.writeBW + 1), r);
      m := 1;
    } else if 0 < lim.readOps < c.n && lim.readOps + 1 <= c.t + r {
      StuckAtOps(c, lim, Op(Read, 0), lim.readOps, r);
      m := lim.readOps + 1;
    } else if 0 < lim.writeOps < c.n && lim.writeOps + 1 <= c.t + r {
      StuckAtOps(c, lim, Op(Write, 0), lim.writeOps, r);
      m := lim.writeOps + 1;
    } else {
      var s := JamWithFew(c, lim, PROBE, r);
      StillIsStuck(c, lim, PROBE, c.n - r, r, s);
      m := c.t + 1;
    }
  }

  /**
    With fixed throttles and `r` rejected names the server can stop for good exactly when it has more
    workers than the limit of the first gate and the rejected names together, or fewer than rejected
    names, or more than one of the op limits, or when there is a bandwidth limit at all.
   */
  lemma StuckIff(c: Config, lim: Bank, r: nat)
    requires 0 < c.n && 0 < c.t && c.t + 2 * c.n + 5 < WORD && c.t + r < WORD
    requires 2 * lim.writeBW + 2 < WORD && 2 * lim.readBW + 2 < WORD
    ensures (exists m: nat :: m + c.n < WORD && CanStop(c, lim, r, m)) <==> CanStick(c, lim, r)
  {
    if CanStick(c, lim, r) {
      var m := StickingRun(c, lim, r);
    }
    forall m: nat | m + c.n < WORD && CanStop(c, lim, r, m)
      ensures CanStick(c, lim, r)
    {
      var s :| Reachable(c, lim, s) && Stuck(c, lim, s) && s.rejected == r && |s.inflight| == m;
      StuckNeeds(c, lim, s);
    }
  }

  /** The start-up checks accept 4..5000 queues and T in 2000..30000: they exclude neither kind of jam. */
  lemma AcceptedConfigurationsJam()
    ensures CanJam(Config(2000, 5000), 0) && CanJam(Config(5000, 4), 5)
  {
    JamIff(Config(2000, 5000), 0);
    JamIff(Config(5000, 4), 5);
  }

  /** The bound of `AdmissionBound` is reached, for any number of rejected names. */
  lemma AdmissionBoundIsTight(c: Config, r: nat)
    requires 0 < c.n && 0 < c.t && c.t + r + 2 < WORD
    ensures exists s :: Reachable(c, NO_LIMIT, s) && s.rejected == r && Total(c, PastGate, s) == c.t + 1 + r
  {
    var m := c.t + 1 + r;
    AdmitMany(c, NO_LIMIT, PROBE, m, r);
    var s := State(BankOf(PROBE, m - r, m, 0), Idles(c.n), Served(m, PROBE, 0), r);
    SumOfIdle(c, PastGate, s.workers);
    SumOfRunning(c, s.inflight);
    assert Reachable(c, NO_LIMIT, s);
  }

  lemma {:induction false} SumOfRunning(c: Config, ps: seq<Proc>)
    requires forall i :: 0 <= i < |ps| ==> ps[i].Running?
    ensures Sum(c, PastGate, ps) == |ps|
  {
    if ps != [] {
      SumOfRunning(c, ps[1..]);
    }
  }
}
