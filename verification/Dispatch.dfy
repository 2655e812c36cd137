/**
  The hashed dispatch queues of the server adaptor.

  A client request is hashed by object name onto one of `queueNum` lanes.  A lane keeps its
  requests, their life timestamps and their queueing timestamps in three parallel FIFOs; its
  one worker swaps all three out, drains them and hands each request to the cache unless it
  is rejected.  A request with a copyup operation raises the lane's barrier flag.

  Each action below is one critical section of `opQueueMutex` or one step of a thread on
  its own variables.
 */
module Dispatch {

  /** `accepted` is the verdict of `ProcessOpReq`; `copyups` counts the rbd.copyup calls in the request. */
  datatype Request = Request(name: string, id: nat, accepted: bool, copyups: nat)

  /** A request with the timestamps taken for it: SA_FTDS_OP_LIFE and SA_FTDS_QUEUE_PERIOD. */
  datatype Stamped = Stamped(req: Request, life: nat, period: nat)

  /** The three queues of a dispatcher, pushed together. */
  class ClientOpQueue {
    var reqQueue: seq<Request>
    var tsQueue: seq<nat>
    var period: seq<nat>

    ghost predicate Valid()
      reads this
    {
      |reqQueue| == |tsQueue| == |period|
    }

    ghost function Contents(): seq<Stamped>
      requires Valid()
      reads this
    {
      Zip(reqQueue, tsQueue, period)
    }

    constructor ()
      ensures Valid() && Contents() == []
    {
      reqQueue, tsQueue, period := [], [], [];
    }

    method EnQueue(opReq: Request, ts: nat, p: nat)
      requires Valid()
      modifies this
      ensures Valid() && Contents() == old(Contents()) + [Stamped(opReq, ts, p)]
    {
      reqQueue := reqQueue + [opReq];
      tsQueue := tsQueue + [ts];
      period := period + [p];
    }

    method Empty() returns (b: bool)
      requires Valid()
      ensures b <==> Contents() == []
    {
      b := reqQueue == [];
    }

    method GetSize() returns (n: nat)
      requires Valid()
      ensures n == |Contents()|
    {
      n := |reqQueue|;
    }

    /** The capacity check of a producer. */
    method Overfull(queueMaxCapacity: nat) returns (b: bool)
      requires Valid()
      ensures b <==> |Contents()| > queueMaxCapacity
    {
      var n := GetSize();
      b := n > queueMaxCapacity;
    }

    /** The worker's three swaps with its (drained) private queues, made only if there is work. */
    method SwapOut() returns (work: bool, dealQueue: seq<Request>, dealTs: seq<nat>, periodTs: seq<nat>)
      requires Valid()
      modifies this
      ensures Valid() && Contents() == [] && (work <==> old(Contents()) != [])
      ensures |dealQueue| == |dealTs| == |periodTs| && Zip(dealQueue, dealTs, periodTs) == old(Contents())
    {
      var empty := Empty();
      work, dealQueue, dealTs, periodTs := !empty, [], [], [];
      if work {
        dealQueue, dealTs, periodTs := reqQueue, tsQueue, period;
        reqQueue, tsQueue, period := [], [], [];
      }
    }
  }

  /**
    The drain loop of `OpHandlerThread`, without its gates: it pops the three queues on the
    success path and on the failure path alike, and hands over what was accepted.
   */
  method DrainBatch(ghost c: Config, deal: seq<Request>, ts: seq<nat>, per: seq<nat>) returns (handed: seq<Stamped>)
    requires |deal| == |ts| == |per|
    ensures handed == Keep(c, Accepted, Zip(deal, ts, per))
  {
    var dealQueue, dealTs, periodTs := deal, ts, per;
    handed := [];
    ghost var n := 0;
    while dealQueue != []
      invariant 0 <= n <= |deal| && dealQueue == deal[n..] && dealTs == ts[n..] && periodTs == per[n..]
      invariant handed == Keep(c, Accepted, Zip(deal, ts, per)[..n])
      decreases |dealQueue|
    {
      var life := dealTs[0];
      dealTs := dealTs[1..];
      var op, pts := dealQueue[0], periodTs[0];
      dealQueue, periodTs := dealQueue[1..], periodTs[1..];
      assert Zip(deal, ts, per)[..n + 1] == Zip(deal, ts, per)[..n] + [Stamped(op, life, pts)];
      KeepAppend(c, Accepted, Zip(deal, ts, per)[..n], Stamped(op, life, pts));
      n := n + 1;
      if !op.accepted {
        continue;
      }
      handed := handed + [Stamped(op, life, pts)];
    }
    assert Zip(deal, ts, per)[..n] == Zip(deal, ts, per);
  }

  // ------------------------------------------------------------------ the machine

  /** `route` is the string hash; `limit` bounds the copyup operations in one request. */
  datatype Config = Config(lanes: nat, cap: nat, producers: nat, limit: nat, route: string -> nat)

  datatype Worker = Top | Asleep | Draining | AtBarrier(item: Stamped)

  datatype Lane = Lane(req: seq<Request>, ts: seq<nat>, per: seq<nat>,
                       deal: seq<Request>, dealTs: seq<nat>, dealPer: seq<nat>,
                       worker: Worker, flag: bool)

  /** A messenger thread inside `EnqueueClientop`: waiting on `cond`, or notified and not yet back. */
  datatype Producer = Free | Blocked(lane: nat, req: Request, life: nat) | Woken(lane: nat, req: Request, life: nat)

  /**
    `enqueued`, `processed` and `handed` log requests as they are pushed, popped for good and
    given to `DoOneOps`; `pending[i]` counts the copyups of `handed[i]` still to be executed.
   */
  datatype State = State(lanes: seq<Lane>, producers: seq<Producer>, enqueued: seq<Stamped>,
                         processed: seq<Stamped>, handed: seq<Stamped>, pending: seq<nat>)

  datatype Action =
    | Arrive(p: nat, req: Request, life: nat, period: nat)
    | Resume(p: nat, period: nat)
    | Spurious(p: nat)
    | Swap(q: nat)
    | Sleep(q: nat)
    | Take(q: nat)
    | Enter(q: nat)
    | Drained(q: nat)
    | Copyup(i: nat, decoded: bool)

  function LaneOf(c: Config, name: string): (q: nat)
    requires 0 < c.lanes
    ensures q < c.lanes
  {
    c.route(name) % c.lanes
  }

  function Zip(reqs: seq<Request>, ts: seq<nat>, per: seq<nat>): (z: seq<Stamped>)
    requires |reqs| == |ts| == |per|
    ensures |z| == |reqs|
    ensures forall i :: 0 <= i < |z| ==> z[i] == Stamped(reqs[i], ts[i], per[i])
  {
    seq(|reqs|, i requires 0 <= i < |reqs| => Stamped(reqs[i], ts[i], per[i]))
  }

  function PushOn(l: Lane, x: Stamped): Lane {
    l.(req := l.req + [x.req], ts := l.ts + [x.life], per := l.per + [x.period],
       worker := if l.worker.Asleep? then Top else l.worker)
  }

  function Push(c: Config, s: State, q: nat, x: Stamped): State
    requires q < |s.lanes|
  {
    s.(lanes := s.lanes[q := PushOn(s.lanes[q], x)], enqueued := s.enqueued + [x])
  }

  function Notify(ps: seq<Producer>, q: nat): (r: seq<Producer>)
    ensures |r| == |ps|
    ensures forall i :: 0 <= i < |ps| ==>
              r[i] == if ps[i].Blocked? && ps[i].lane == q then Woken(q, ps[i].req, ps[i].life) else ps[i]
  {
    seq(|ps|, i requires 0 <= i < |ps| =>
      if ps[i].Blocked? && ps[i].lane == q then Woken(q, ps[i].req, ps[i].life) else ps[i])
  }

  function Init(c: Config): State {
    State(seq(c.lanes, _ => Lane([], [], [], [], [], [], Top, false)), seq(c.producers, _ => Free), [], [], [], [])
  }

  predicate Enabled(c: Config, s: State, a: Action)
    requires 0 < c.lanes
  {
    match a
    case Arrive(p, req, _, _) =>
      p < |s.producers| && s.producers[p].Free? && LaneOf(c, req.name) < |s.lanes| && req.copyups <= c.limit
    case Resume(p, _) => p < |s.producers| && s.producers[p].Woken? && s.producers[p].lane < |s.lanes|
    case Spurious(p) => p < |s.producers| && s.producers[p].Blocked?
    case Swap(q) => q < |s.lanes| && s.lanes[q].worker.Top? && s.lanes[q].req != []
    case Sleep(q) => q < |s.lanes| && s.lanes[q].worker.Top? && s.lanes[q].req == []
    case Take(q) =>
      q < |s.lanes| && s.lanes[q].worker.Draining? && s.lanes[q].deal != [] && s.lanes[q].dealTs != []
      && s.lanes[q].dealPer != []
    case Enter(q) => q < |s.lanes| && s.lanes[q].worker.AtBarrier? && !s.lanes[q].flag
    case Drained(q) => q < |s.lanes| && s.lanes[q].worker.Draining? && s.lanes[q].deal == []
    case Copyup(i, _) =>
      i < |s.handed| && i < |s.pending| && s.pending[i] > 0 && LaneOf(c, s.handed[i].req.name) < |s.lanes|
  }

  function Apply(c: Config, s: State, a: Action): State
    requires 0 < c.lanes && Enabled(c, s, a)
  {
    match a
    case Arrive(p, req, life, period) =>
      var q := LaneOf(c, req.name);
      if |s.lanes[q].req| > c.cap then s.(producers := s.producers[p := Blocked(q, req, life)])
      else Push(c, s, q, Stamped(req, life, period))
    case Resume(p, period) =>
      var w := s.producers[p];
      Push(c, s, w.lane, Stamped(w.req, w.life, period)).(producers := s.producers[p := Free])
    case Spurious(p) =>
      s.(producers := s.producers[p := Woken(s.producers[p].lane, s.producers[p].req, s.producers[p].life)])
    case Swap(q) =>
      var l := s.lanes[q];
      s.(lanes := s.lanes[q := Lane(l.deal, l.dealTs, l.dealPer, l.req, l.ts, l.per, Draining, l.flag)],
         producers := Notify(s.producers, q))
    case Sleep(q) => s.(lanes := s.lanes[q := s.lanes[q].(worker := Asleep)])
    case Take(q) =>
      var l := s.lanes[q];
      var x := Stamped(l.deal[0], l.dealTs[0], l.dealPer[0]);
      var rest := l.(deal := l.deal[1..], dealTs := l.dealTs[1..], dealPer := l.dealPer[1..]);
      if x.req.accepted then s.(lanes := s.lanes[q := rest.(worker := AtBarrier(x))])
      else s.(lanes := s.lanes[q := rest], processed := s.processed + [x])
    case Enter(q) =>
      var l := s.lanes[q];
      var x := l.worker.item;
      s.(lanes := s.lanes[q := l.(worker := Draining, flag := x.req.copyups > 0)],
         processed := s.processed + [x], handed := s.handed + [x], pending := s.pending + [x.req.copyups])
    case Drained(q) => s.(lanes := s.lanes[q := s.lanes[q].(worker := Top)])
    case Copyup(i, decoded) =>
      // a copyup whose input cannot be decoded fails before the flag is cleared
      var q := LaneOf(c, s.handed[i].req.name);
      s.(lanes := s.lanes[q := s.lanes[q].(flag := s.lanes[q].flag && !decoded)], pending := s.pending[i := s.pending[i] - 1])
  }

  datatype Trace = Start | Then(before: Trace, act: Action)

  predicate Valid(c: Config, tr: Trace)
    requires 0 < c.lanes
    decreases tr, 0
  {
    tr.Then? ==> Valid(c, tr.before) && Enabled(c, After(c, tr.before), tr.act)
  }

  function After(c: Config, tr: Trace): State
    requires 0 < c.lanes && Valid(c, tr)
    decreases tr, 1
  {
    match tr
    case Start => Init(c)
    case Then(before, act) => Apply(c, After(c, before), act)
  }

  // ------------------------------------------------------------------ filtering logs

  datatype Criterion = OnLane(q: nat) | OfName(name: string) | Accepted

  predicate Meets(c: Config, k: Criterion, x: Stamped) {
    match k
    case OnLane(q) => 0 < c.lanes && LaneOf(c, x.req.name) == q
    case OfName(name) => x.req.name == name
    case Accepted => x.req.accepted
  }

  function Keep(c: Config, k: Criterion, log: seq<Stamped>): seq<Stamped> {
    if log == [] then []
    else
      var init, last := log[..|log| - 1], log[|log| - 1];
      if Meets(c, k, last) then Keep(c, k, init) + [last] else Keep(c, k, init)
  }

  lemma KeepAppend(c: Config, k: Criterion, log: seq<Stamped>, x: Stamped)
    ensures Keep(c, k, log + [x]) == if Meets(c, k, x) then Keep(c, k, log) + [x] else Keep(c, k, log)
  {
    assert (log + [x])[..|log|] == log;
  }

  lemma {:induction false} KeepConcat(c: Config, k: Criterion, a: seq<Stamped>, b: seq<Stamped>)
    ensures Keep(c, k, a + b) == Keep(c, k, a) + Keep(c, k, b)
  {
    if b == [] {
      assert a + b == a;
    } else {
      var init, last := b[..|b| - 1], b[|b| - 1];
      KeepConcat(c, k, a, init);
      assert (a + b)[..|a + b| - 1] == a + init;
      assert (a + b)[|a + b| - 1] == last;
    }
  }

  lemma {:induction false} KeepSwap(c: Config, k: Criterion, j: Criterion, log: seq<Stamped>)
    ensures Keep(c, k, Keep(c, j, log)) == Keep(c, j, Keep(c, k, log))
  {
    if log != [] {
      var init, last := log[..|log| - 1], log[|log| - 1];
      KeepSwap(c, k, j, init);
      if Meets(c, j, last) { KeepAppend(c, k, Keep(c, j, init), last); }
      if Meets(c, k, last) { KeepAppend(c, j, Keep(c, k, init), last); }
    }
  }

  /** Filtering by name is unaffected by filtering by the lane of that name first. */
  lemma {:induction false} KeepLaneThenName(c: Config, name: string, log: seq<Stamped>)
    requires 0 < c.lanes
    ensures Keep(c, OfName(name), Keep(c, OnLane(LaneOf(c, name)), log)) == Keep(c, OfName(name), log)
  {
    if log != [] {
      var init, last := log[..|log| - 1], log[|log| - 1];
      KeepLaneThenName(c, name, init);
      if Meets(c, OnLane(LaneOf(c, name)), last) {
        KeepAppend(c, OfName(name), Keep(c, OnLane(LaneOf(c, name)), init), last);
      }
    }
  }

  lemma {:induction false} KeptMeets(c: Config, k: Criterion, log: seq<Stamped>, x: Stamped)
    requires x in Keep(c, k, log)
    ensures Meets(c, k, x) && x in log
  {
    var init, last := log[..|log| - 1], log[|log| - 1];
    if x in Keep(c, k, init) {
      KeptMeets(c, k, init, x);
    }
  }

  // ------------------------------------------------------------------ order and timestamps

  ghost predicate LockStep(l: Lane) {
    |l.req| == |l.ts| == |l.per| && |l.deal| == |l.dealTs| == |l.dealPer|
  }

  /** What a lane still has to process, oldest first. */
  ghost function Backlog(l: Lane): seq<Stamped>
    requires LockStep(l)
  {
    (if l.worker.AtBarrier? then [l.worker.item] else []) + Zip(l.deal, l.dealTs, l.dealPer) + Zip(l.req, l.ts, l.per)
  }

  ghost predicate WorkerOk(l: Lane) {
    && (l.worker.Top? || l.worker.Asleep? ==> l.deal == [])
    && (l.worker.Asleep? ==> l.req == [])
    && (l.worker.AtBarrier? ==> l.worker.item.req.accepted)
  }

  ghost predicate LaneOk(c: Config, s: State, q: nat)
    requires q < |s.lanes|
  {
    var l := s.lanes[q];
    && LockStep(l)
    && WorkerOk(l)
    && Keep(c, OnLane(q), s.enqueued) == Keep(c, OnLane(q), s.processed) + Backlog(l)
  }

  ghost predicate ProducerOk(c: Config, p: Producer)
    requires 0 < c.lanes
  {
    !p.Free? ==> p.lane == LaneOf(c, p.req.name) && p.req.copyups <= c.limit
  }

  ghost predicate Ordered(c: Config, s: State)
    requires 0 < c.lanes
  {
    && |s.lanes| == c.lanes
    && |s.producers| == c.producers
    && (forall p :: 0 <= p < |s.producers| ==> ProducerOk(c, s.producers[p]))
    && (forall x :: x in s.enqueued ==> x.req.copyups <= c.limit)
    && (forall q :: 0 <= q < |s.lanes| ==> LaneOk(c, s, q))
    && s.handed == Keep(c, Accepted, s.processed)
    && |s.pending| == |s.handed|
  }

  lemma PushOrdered(c: Config, s: State, q: nat, x: Stamped)
    requires 0 < c.lanes && Ordered(c, s) && q == LaneOf(c, x.req.name) && x.req.copyups <= c.limit
    ensures Ordered(c, Push(c, s, q, x))
  {
    var s' := Push(c, s, q, x);
    forall k | 0 <= k < |s.lanes|
      ensures LaneOk(c, s', k)
    {
      assert LaneOk(c, s, k);
      KeepAppend(c, OnLane(k), s.enqueued, x);
      if k == q {
        var l, l' := s.lanes[q], s'.lanes[q];
        assert Zip(l'.req, l'.ts, l'.per) == Zip(l.req, l.ts, l.per) + [x];
        assert Backlog(l') == Backlog(l) + [x];
      }
    }
  }

  /** A lane may be rearranged as long as its backlog stays the same. */
  lemma Rearranged(c: Config, s: State, q: nat, l: Lane, pending: seq<nat>)
    requires 0 < c.lanes && Ordered(c, s) && q < |s.lanes| && |pending| == |s.pending|
    requires LockStep(l) && WorkerOk(l)
    requires LaneOk(c, s, q) && Backlog(l) == Backlog(s.lanes[q])
    ensures Ordered(c, s.(lanes := s.lanes[q := l], pending := pending))
  {
    var s' := s.(lanes := s.lanes[q := l], pending := pending);
    forall k | 0 <= k < |s.lanes|
      ensures LaneOk(c, s', k)
    {
      assert LaneOk(c, s, k);
    }
  }

  ghost function Retire(s: State, q: nat, l: Lane, x: Stamped): State
    requires q < |s.lanes|
  {
    State(s.lanes[q := l], s.producers, s.enqueued, s.processed + [x],
          if x.req.accepted then s.handed + [x] else s.handed,
          if x.req.accepted then s.pending + [x.req.copyups] else s.pending)
  }

  lemma BacklogIsRouted(c: Config, s: State, q: nat, x: Stamped)
    requires 0 < c.lanes && q < |s.lanes| && LaneOk(c, s, q) && x in Backlog(s.lanes[q])
    ensures LaneOf(c, x.req.name) == q && x in s.enqueued
  {
    assert x in Keep(c, OnLane(q), s.enqueued);
    KeptMeets(c, OnLane(q), s.enqueued, x);
  }

  lemma LaneRetired(c: Config, s: State, q: nat, l: Lane, x: Stamped, k: nat)
    requires 0 < c.lanes && q < |s.lanes| && k < |s.lanes| && LaneOk(c, s, k)
    requires LaneOf(c, x.req.name) == q && LockStep(l) && WorkerOk(l)
    requires k == q ==> Backlog(s.lanes[q]) == [x] + Backlog(l)
    ensures LaneOk(c, Retire(s, q, l, x), k)
  {
    KeepAppend(c, OnLane(k), s.processed, x);
    if k == q {
      var done := Keep(c, OnLane(q), s.processed);
      assert done + ([x] + Backlog(l)) == (done + [x]) + Backlog(l);
    }
  }

  /** The oldest entry of a backlog may move to the end of the log. */
  lemma Retired(c: Config, s: State, q: nat, l: Lane, x: Stamped)
    requires 0 < c.lanes && Ordered(c, s) && q < |s.lanes|
    requires LockStep(l) && WorkerOk(l)
    requires LaneOk(c, s, q) && Backlog(s.lanes[q]) == [x] + Backlog(l)
    ensures Ordered(c, Retire(s, q, l, x))
  {
    assert Backlog(s.lanes[q])[0] == x;
    BacklogIsRouted(c, s, q, x);
    KeepAppend(c, Accepted, s.processed, x);
    forall k | 0 <= k < |s.lanes|
      ensures LaneOk(c, Retire(s, q, l, x), k)
    {
      assert LaneOk(c, s, k);
      LaneRetired(c, s, q, l, x, k);
    }
  }

  lemma SwapOrdered(c: Config, s: State, q: nat)
    requires 0 < c.lanes && Ordered(c, s) && Enabled(c, s, Swap(q))
    ensures Ordered(c, Apply(c, s, Swap(q)))
  {
    var l := Apply(c, s, Swap(q)).lanes[q];
    assert LaneOk(c, s, q);
    assert Backlog(l) == Backlog(s.lanes[q]);
    Rearranged(c, s, q, l, s.pending);
    ProducersOrdered(c, s.(lanes := s.lanes[q := l]), Notify(s.producers, q));
  }

  lemma ZipPop(reqs: seq<Request>, ts: seq<nat>, per: seq<nat>)
    requires |reqs| == |ts| == |per| > 0
    ensures Zip(reqs, ts, per) == [Stamped(reqs[0], ts[0], per[0])] + Zip(reqs[1..], ts[1..], per[1..])
  {
  }

  lemma PopFront(x: Stamped, z: seq<Stamped>, r: seq<Stamped>)
    ensures [] + ([x] + z) + r == [x] + ([] + z + r) == [x] + z + r
  {
  }

  lemma PopBacklog(l: Lane, rest: Lane, x: Stamped)
    requires LockStep(l) && l.worker.Draining? && l.deal != []
    requires rest == l.(deal := l.deal[1..], dealTs := l.dealTs[1..], dealPer := l.dealPer[1..])
    requires x == Stamped(l.deal[0], l.dealTs[0], l.dealPer[0])
    ensures LockStep(rest) && Backlog(l) == [x] + Backlog(rest)
    ensures Backlog(l) == Backlog(rest.(worker := AtBarrier(x)))
  {
    ZipPop(l.deal, l.dealTs, l.dealPer);
    PopFront(x, Zip(rest.deal, rest.dealTs, rest.dealPer), Zip(l.req, l.ts, l.per));
  }

  lemma TakeOrdered(c: Config, s: State, q: nat)
    requires 0 < c.lanes && Ordered(c, s) && Enabled(c, s, Take(q))
    ensures Ordered(c, Apply(c, s, Take(q)))
  {
    var l := s.lanes[q];
    assert LaneOk(c, s, q);
    var x := Stamped(l.deal[0], l.dealTs[0], l.dealPer[0]);
    var rest := l.(deal := l.deal[1..], dealTs := l.dealTs[1..], dealPer := l.dealPer[1..]);
    PopBacklog(l, rest, x);
    if x.req.accepted {
      Rearranged(c, s, q, rest.(worker := AtBarrier(x)), s.pending);
    } else {
      Retired(c, s, q, rest, x);
    }
  }

  lemma EnterOrdered(c: Config, s: State, q: nat)
    requires 0 < c.lanes && Ordered(c, s) && Enabled(c, s, Enter(q))
    ensures Ordered(c, Apply(c, s, Enter(q)))
  {
    var s' := Apply(c, s, Enter(q));
    var l, l' := s.lanes[q], s'.lanes[q];
    assert LaneOk(c, s, q);
    assert Backlog(l) == [l.worker.item] + Backlog(l');
    Retired(c, s, q, l', l.worker.item);
    assert s' == Retire(s, q, l', l.worker.item);
  }

  lemma StepOrdered(c: Config, s: State, a: Action)
    requires 0 < c.lanes && Ordered(c, s) && Enabled(c, s, a)
    ensures Ordered(c, Apply(c, s, a))
  {
    match a
    case Arrive(p, req, life, period) =>
      if |s.lanes[LaneOf(c, req.name)].req| <= c.cap {
        PushOrdered(c, s, LaneOf(c, req.name), Stamped(req, life, period));
      } else {
        ProducersOrdered(c, s, Apply(c, s, a).producers);
      }
    case Resume(p, period) =>
      var w := s.producers[p];
      PushOrdered(c, s, w.lane, Stamped(w.req, w.life, period));
      ProducersOrdered(c, Push(c, s, w.lane, Stamped(w.req, w.life, period)), Apply(c, s, a).producers);
    case Spurious(p) => ProducersOrdered(c, s, Apply(c, s, a).producers);
    case Swap(q) => SwapOrdered(c, s, q);
    case Take(q) => TakeOrdered(c, s, q);
    case Enter(q) => EnterOrdered(c, s, q);
    case Sleep(q) =>
      assert LaneOk(c, s, q);
      WorkerOrdered(c, s, q, Asleep);
    case Drained(q) => WorkerOrdered(c, s, q, Top);
    case Copyup(i, decoded) =>
      var q := LaneOf(c, s.handed[i].req.name);
      var l := s.lanes[q].(flag := s.lanes[q].flag && !decoded);
      assert LaneOk(c, s, q);
      assert Backlog(l) == Backlog(s.lanes[q]);
      Rearranged(c, s, q, l, s.pending[i := s.pending[i] - 1]);
  }

  lemma WorkerOrdered(c: Config, s: State, q: nat, w: Worker)
    requires 0 < c.lanes && Ordered(c, s) && q < |s.lanes| && !s.lanes[q].worker.AtBarrier? && s.lanes[q].deal == []
    requires w.Top? || (w.Asleep? && s.lanes[q].req == [])
    ensures Ordered(c, s.(lanes := s.lanes[q := s.lanes[q].(worker := w)]))
  {
    assert LaneOk(c, s, q);
    assert Backlog(s.lanes[q].(worker := w)) == Backlog(s.lanes[q]);
    Rearranged(c, s, q, s.lanes[q].(worker := w), s.pending);
  }

  lemma ProducersOrdered(c: Config, s: State, ps: seq<Producer>)
    requires 0 < c.lanes && Ordered(c, s) && |ps| == |s.producers|
    requires forall p :: 0 <= p < |ps| ==> ProducerOk(c, ps[p])
    ensures Ordered(c, s.(producers := ps))
  {
    var s' := s.(producers := ps);
    forall k | 0 <= k < |s.lanes|
      ensures LaneOk(c, s', k)
    {
      assert LaneOk(c, s, k);
    }
  }

  /** In every reachable state: the queues are in lock-step, and no sleeping worker has work waiting. */
  lemma {:induction false} AlwaysOrdered(c: Config, tr: Trace)
    requires 0 < c.lanes && Valid(c, tr)
    ensures Ordered(c, After(c, tr))
  {
    if tr.Then? {
      AlwaysOrdered(c, tr.before);
      StepOrdered(c, After(c, tr.before), tr.act);
    }
  }

  lemma NameOrder(c: Config, s: State, name: string)
    requires 0 < c.lanes && Ordered(c, s)
    ensures Keep(c, OfName(name), s.handed) <= Keep(c, Accepted, Keep(c, OfName(name), s.enqueued))
  {
    var q := LaneOf(c, name);
    assert LaneOk(c, s, q);
    var rest := Backlog(s.lanes[q]);
    KeepLaneThenName(c, name, s.enqueued);
    KeepLaneThenName(c, name, s.processed);
    KeepConcat(c, OfName(name), Keep(c, OnLane(q), s.processed), rest);
    assert Keep(c, OfName(name), s.enqueued) == Keep(c, OfName(name), s.processed) + Keep(c, OfName(name), rest);
    KeepConcat(c, Accepted, Keep(c, OfName(name), s.processed), Keep(c, OfName(name), rest));
    KeepSwap(c, OfName(name), Accepted, s.processed);
  }

  /**
    Requests for one object reach the cache in the order they were enqueued, less the rejected
    ones, and each still carries its own two timestamps.
   */
  lemma HandedInOrder(c: Config, tr: Trace, name: string)
    requires 0 < c.lanes && Valid(c, tr)
    ensures Keep(c, OfName(name), After(c, tr).handed)
            <= Keep(c, Accepted, Keep(c, OfName(name), After(c, tr).enqueued))
  {
    AlwaysOrdered(c, tr);
    NameOrder(c, After(c, tr), name);
  }

  // ------------------------------------------------------------------ what is pushed, from the actions alone

  datatype Arrival = Arrival(req: Request, life: nat)

  /** What thread `p` came with last. */
  ghost function LastArrival(tr: Trace, p: nat): Option<Arrival> {
    if tr.Start? then None
    else if tr.act.Arrive? && tr.act.p == p then Some(Arrival(tr.act.req, tr.act.life))
    else LastArrival(tr.before, p)
  }

  /** The threads that the capacity check has sent to wait, and which have not come back. */
  ghost predicate Waits(c: Config, tr: Trace, p: nat)
    requires 0 < c.lanes && Valid(c, tr)
  {
    tr.Then? &&
    if tr.act.Arrive? && tr.act.p == p then Full(c, After(c, tr.before), tr.act.req)
    else if tr.act.Resume? && tr.act.p == p then false
    else Waits(c, tr.before, p)
  }

  predicate Full(c: Config, s: State, req: Request)
    requires 0 < c.lanes
  {
    LaneOf(c, req.name) < |s.lanes| && |s.lanes[LaneOf(c, req.name)].req| > c.cap
  }

  /**
    The requests pushed in a run: an arrival that need not wait, with its own life and period, and a
    thread that comes back, with the request and life it came with and the period of that step.
   */
  ghost function Pushed(c: Config, tr: Trace): seq<Stamped>
    requires 0 < c.lanes && Valid(c, tr)
  {
    if tr.Start? then []
    else
      var log := Pushed(c, tr.before);
      match tr.act
      case Arrive(_, req, life, period) =>
        if Full(c, After(c, tr.before), req) then log else log + [Stamped(req, life, period)]
      case Resume(p, period) =>
        var a := LastArrival(tr.before, p);
        if a.None? then log else log + [Stamped(a.value.req, a.value.life, period)]
      case _ => log
  }

  datatype Option<T> = None | Some(value: T)

  /** A thread that waits or is on its way back holds what it came with, for the lane of its name. */
  ghost predicate Holder(c: Config, s: State, tr: Trace, p: nat)
    requires 0 < c.lanes && Valid(c, tr) && p < |s.producers|
  {
    match s.producers[p]
    case Free => !Waits(c, tr, p)
    case Blocked(lane, req, life) => Waits(c, tr, p) && LastArrival(tr, p) == Some(Arrival(req, life)) && lane == LaneOf(c, req.name)
    case Woken(lane, req, life) => Waits(c, tr, p) && LastArrival(tr, p) == Some(Arrival(req, life)) && lane == LaneOf(c, req.name)
  }

  lemma StepHolder(c: Config, tr: Trace, p: nat)
    requires 0 < c.lanes && Valid(c, tr) && tr.Then? && p < |After(c, tr.before).producers|
    requires |After(c, tr.before).lanes| == c.lanes && Holder(c, After(c, tr.before), tr.before, p)
    ensures |After(c, tr).producers| == |After(c, tr.before).producers| && Holder(c, After(c, tr), tr, p)
  {
  }

  lemma {:induction false} AlwaysHolder(c: Config, tr: Trace, p: nat)
    requires 0 < c.lanes && Valid(c, tr) && p < c.producers
    ensures |After(c, tr).producers| == c.producers && Holder(c, After(c, tr), tr, p)
  {
    if tr.Then? {
      AlwaysHolder(c, tr.before, p);
      AlwaysOrdered(c, tr.before);
      StepHolder(c, tr, p);
    }
  }

  /** An arrival that need not wait is pushed with the two timestamps taken for it. */
  lemma ArrivePushes(c: Config, s: State, p: nat, req: Request, life: nat, period: nat)
    requires 0 < c.lanes && Enabled(c, s, Arrive(p, req, life, period))
    ensures Apply(c, s, Arrive(p, req, life, period)).enqueued ==
            if Full(c, s, req) then s.enqueued else s.enqueued + [Stamped(req, life, period)]
  {
  }

  lemma StepPushed(c: Config, tr: Trace)
    requires 0 < c.lanes && Valid(c, tr) && tr.Then? && After(c, tr.before).enqueued == Pushed(c, tr.before)
    requires tr.act.Resume? ==>
      tr.act.p < |After(c, tr.before).producers| && Holder(c, After(c, tr.before), tr.before, tr.act.p)
    ensures After(c, tr).enqueued == Pushed(c, tr)
  {
    match tr.act
    case Arrive(p, req, life, period) => ArrivePushes(c, After(c, tr.before), p, req, life, period);
    case _ =>
  }

  /** The log of enqueued requests is what the actions say was pushed, each with the timestamps taken for it. */
  lemma {:induction false} EnqueuedIsPushed(c: Config, tr: Trace)
    requires 0 < c.lanes && Valid(c, tr)
    ensures |After(c, tr).producers| == c.producers && After(c, tr).enqueued == Pushed(c, tr)
  {
    if tr.Then? {
      EnqueuedIsPushed(c, tr.before);
      if tr.act.Resume? {
        AlwaysHolder(c, tr.before, tr.act.p);
      }
      StepPushed(c, tr);
      SameProducers(c, After(c, tr.before), tr.act);
    }
  }

  lemma SameProducers(c: Config, s: State, a: Action)
    requires 0 < c.lanes && Enabled(c, s, a)
    ensures |Apply(c, s, a).producers| == |s.producers|
  {
  }

  /**
    Requests for one object reach the cache in the order they were pushed, less the rejected ones, and
    each with the life of its own arrival and the period of the step that pushed it.
   */
  lemma HandedAsPushed(c: Config, tr: Trace, name: string)
    requires 0 < c.lanes && Valid(c, tr)
    ensures Keep(c, OfName(name), After(c, tr).handed) <= Keep(c, Accepted, Keep(c, OfName(name), Pushed(c, tr)))
  {
    HandedInOrder(c, tr, name);
    EnqueuedIsPushed(c, tr);
  }

  /** A member of the log is one arrival's request and life. */
  ghost predicate Arrived(tr: Trace, req: Request, life: nat) {
    tr.Then? && ((tr.act.Arrive? && tr.act.req == req && tr.act.life == life) || Arrived(tr.before, req, life))
  }

  lemma {:induction false} LastArrived(tr: Trace, p: nat)
    requires LastArrival(tr, p).Some?
    ensures Arrived(tr, LastArrival(tr, p).value.req, LastArrival(tr, p).value.life)
  {
    if !(tr.act.Arrive? && tr.act.p == p) {
      LastArrived(tr.before, p);
    }
  }

  lemma {:induction false} PushedArrived(c: Config, tr: Trace, x: Stamped)
    requires 0 < c.lanes && Valid(c, tr) && x in Pushed(c, tr)
    ensures Arrived(tr, x.req, x.life)
  {
    if x in Pushed(c, tr.before) {
      PushedArrived(c, tr.before, x);
    } else if tr.act.Resume? {
      LastArrived(tr.before, tr.act.p);
    }
  }

  lemma {:induction false} KeepMembers(c: Config, k: Criterion, log: seq<Stamped>, x: Stamped)
    ensures x in Keep(c, k, log) <==> x in log && Meets(c, k, x)
  {
    if log != [] {
      var n := |log| - 1;
      KeepMembers(c, k, log[..n], x);
      assert log == log[..n] + [log[n]];
    }
  }

  /** Nothing is handed over that did not arrive, was rejected or carries the life of another request. */
  lemma HandedArrived(c: Config, tr: Trace, x: Stamped)
    requires 0 < c.lanes && Valid(c, tr) && x in After(c, tr).handed
    ensures Arrived(tr, x.req, x.life) && x.req.accepted
  {
    var name := x.req.name;
    HandedAsPushed(c, tr, name);
    var all := Keep(c, OfName(name), Pushed(c, tr));
    KeepMembers(c, OfName(name), After(c, tr).handed, x);
    KeepMembers(c, Accepted, all, x);
    KeepMembers(c, OfName(name), Pushed(c, tr), x);
    PushedArrived(c, tr, x);
  }

  // ------------------------------------------------------------------ nobody waits in vain

  /** A thread waits only while its lane is over its capacity, so a swap that wakes it up is still to come. */
  ghost predicate WaitsForRoom(c: Config, s: State) {
    forall p :: 0 <= p < |s.producers| && s.producers[p].Blocked? ==>
      s.producers[p].lane < |s.lanes| && |s.lanes[s.producers[p].lane].req| > c.cap
  }

  lemma StepWaits(c: Config, s: State, a: Action)
    requires 0 < c.lanes && Enabled(c, s, a) && WaitsForRoom(c, s)
    ensures WaitsForRoom(c, Apply(c, s, a))
  {
  }

  lemma {:induction false} AlwaysWaitsForRoom(c: Config, tr: Trace)
    requires 0 < c.lanes && Valid(c, tr)
    ensures WaitsForRoom(c, After(c, tr))
  {
    if tr.Then? {
      AlwaysWaitsForRoom(c, tr.before);
      StepWaits(c, After(c, tr.before), tr.act);
    }
  }

  // ------------------------------------------------------------------ capacity

  function WokenFor(ps: seq<Producer>, q: nat): nat {
    if ps == [] then 0 else (if ps[0].Woken? && ps[0].lane == q then 1 else 0) + WokenFor(ps[1..], q)
  }

  lemma {:induction false} WokenUpdate(ps: seq<Producer>, q: nat, i: nat, p: Producer)
    requires i < |ps|
    ensures WokenFor(ps[i := p], q) + (if ps[i].Woken? && ps[i].lane == q then 1 else 0)
            == WokenFor(ps, q) + (if p.Woken? && p.lane == q then 1 else 0)
  {
    if i > 0 {
      assert ps[i := p][1..] == ps[1..][i - 1 := p];
      WokenUpdate(ps[1..], q, i - 1, p);
    } else {
      assert ps[i := p][1..] == ps[1..];
    }
  }

  lemma {:induction false} WokenBound(ps: seq<Producer>, q: nat)
    ensures WokenFor(ps, q) <= |ps|
    ensures forall i :: 0 <= i < |ps| && ps[i].Free? ==> WokenFor(ps, q) < |ps|
  {
    if ps != [] {
      WokenBound(ps[1..], q);
      assert forall i :: 0 < i < |ps| ==> ps[i] == ps[1..][i - 1];
    }
  }

  lemma {:induction false} WokenNotify(ps: seq<Producer>, q: nat, k: nat)
    requires k != q
    ensures WokenFor(Notify(ps, q), k) == WokenFor(ps, k)
  {
    if ps != [] {
      assert Notify(ps, q)[1..] == Notify(ps[1..], q);
      WokenNotify(ps[1..], q, k);
    }
  }

  /** Whether the step is a spurious wakeup of a producer that waits for lane `q`. */
  function Wakes(s: State, a: Action, q: nat): nat {
    if a.Spurious? && a.p < |s.producers| && s.producers[a.p].Blocked? && s.producers[a.p].lane == q then 1 else 0
  }

  /** How often that happened in a run. */
  ghost function Wakeups(c: Config, tr: Trace, q: nat): nat
    requires 0 < c.lanes && Valid(c, tr)
  {
    if tr.Start? then 0 else Wakeups(c, tr.before, q) + Wakes(After(c, tr.before), tr.act, q)
  }

  /** Queue length plus the threads already past the wait stays within capacity plus threads plus `extra`. */
  ghost predicate Roomy(c: Config, s: State, q: nat, extra: nat) {
    q < |s.lanes| && |s.lanes[q].req| + WokenFor(s.producers, q) <= c.cap + c.producers + extra
  }

  lemma ArriveRoomy(c: Config, s: State, a: Action, q: nat, extra: nat)
    requires 0 < c.lanes && Ordered(c, s) && Roomy(c, s, q, extra) && Enabled(c, s, a) && a.Arrive?
    ensures Roomy(c, Apply(c, s, a), q, extra)
  {
    WokenBound(s.producers, q);
    WokenUpdate(s.producers, q, a.p, Blocked(LaneOf(c, a.req.name), a.req, a.life));
  }

  lemma SwapRoomy(c: Config, s: State, a: Action, q: nat, extra: nat)
    requires 0 < c.lanes && Ordered(c, s) && Roomy(c, s, q, extra) && Enabled(c, s, a) && a.Swap?
    ensures Roomy(c, Apply(c, s, a), q, extra)
  {
    if q == a.q {
      assert LaneOk(c, s, q);
      WokenBound(Apply(c, s, a).producers, q);
    } else {
      WokenNotify(s.producers, a.q, q);
    }
  }

  lemma StepRoomy(c: Config, s: State, a: Action, q: nat, extra: nat)
    requires 0 < c.lanes && Ordered(c, s) && Roomy(c, s, q, extra) && Enabled(c, s, a)
    ensures Roomy(c, Apply(c, s, a), q, extra + Wakes(s, a, q))
  {
    match a
    case Arrive(_, _, _, _) => ArriveRoomy(c, s, a, q, extra);
    case Resume(p, _) => WokenUpdate(s.producers, q, p, Free);
    case Spurious(p) =>
      WokenUpdate(s.producers, q, p, Woken(s.producers[p].lane, s.producers[p].req, s.producers[p].life));
    case Swap(_) => SwapRoomy(c, s, a, q, extra);
    case _ =>
  }

  /**
    The `if` at the capacity check lets a lane exceed its capacity by at most the number of threads and
    of spurious wakeups of threads that waited for it.
   */
  lemma {:induction false} CapacityBound(c: Config, tr: Trace, q: nat)
    requires 0 < c.lanes && Valid(c, tr) && q < c.lanes
    ensures Roomy(c, After(c, tr), q, Wakeups(c, tr, q))
    ensures |After(c, tr).lanes[q].req| <= c.cap + c.producers + Wakeups(c, tr, q)
  {
    if tr.Then? {
      CapacityBound(c, tr.before, q);
      AlwaysOrdered(c, tr.before);
      StepRoomy(c, After(c, tr.before), tr.act, q, Wakeups(c, tr.before, q));
    } else {
      WokenBound(Init(c).producers, q);
    }
  }

  // ------------------------------------------------------------------ the copyup barrier

  /** No request was handed over behind a copyup of the same lane that is still to be executed. */
  ghost predicate Barrier(c: Config, s: State)
    requires 0 < c.lanes
  {
    |s.pending| == |s.handed| &&
    forall i, j :: 0 <= i < j < |s.handed| && LaneOf(c, s.handed[i].req.name) == LaneOf(c, s.handed[j].req.name)
      ==> s.pending[i] == 0
  }

  ghost predicate Fenced(c: Config, s: State)
    requires 0 < c.lanes
  {
    && |s.pending| == |s.handed|
    && Barrier(c, s)
    && forall i :: 0 <= i < |s.handed| ==>
         s.pending[i] <= 1 && (s.pending[i] > 0 ==>
           LaneOf(c, s.handed[i].req.name) < |s.lanes| && s.lanes[LaneOf(c, s.handed[i].req.name)].flag)
  }

  lemma EnterFenced(c: Config, s: State, q: nat)
    requires 0 < c.lanes && c.limit <= 1 && Ordered(c, s) && Fenced(c, s) && Enabled(c, s, Enter(q))
    ensures Fenced(c, Apply(c, s, Enter(q)))
  {
    var x := s.lanes[q].worker.item;
    assert LaneOk(c, s, q);
    assert x in Backlog(s.lanes[q]);
    BacklogIsRouted(c, s, q, x);
  }

  /** Two copyups still to be executed belong to different lanes. */
  lemma OtherLane(c: Config, s: State, i: nat, k: nat)
    requires 0 < c.lanes && Barrier(c, s) && i < |s.handed| && k < |s.handed| && i != k && s.pending[i] > 0 && s.pending[k] > 0
    ensures LaneOf(c, s.handed[i].req.name) != LaneOf(c, s.handed[k].req.name)
  {
  }

  lemma CopyupFenced(c: Config, s: State, i: nat, decoded: bool)
    requires 0 < c.lanes && Fenced(c, s) && Enabled(c, s, Copyup(i, decoded))
    ensures Fenced(c, Apply(c, s, Copyup(i, decoded)))
  {
    var s', q := Apply(c, s, Copyup(i, decoded)), LaneOf(c, s.handed[i].req.name);
    assert s'.handed == s.handed && s'.pending == s.pending[i := s.pending[i] - 1];
    forall k | 0 <= k < |s.handed| && s'.pending[k] > 0
      ensures s'.lanes[LaneOf(c, s.handed[k].req.name)].flag
    {
      assert s.pending[i] == 1;
      OtherLane(c, s, i, k);
    }
  }

  /** Steps that neither hand over nor execute a copyup. */
  lemma QuietFenced(c: Config, s: State, a: Action)
    requires 0 < c.lanes && Fenced(c, s) && Enabled(c, s, a) && !a.Enter? && !a.Copyup?
    ensures Fenced(c, Apply(c, s, a))
  {
    var s' := Apply(c, s, a);
    assert s'.handed == s.handed && s'.pending == s.pending;
    assert forall q :: 0 <= q < |s.lanes| ==> s'.lanes[q].flag == s.lanes[q].flag;
  }

  lemma StepFenced(c: Config, s: State, a: Action)
    requires 0 < c.lanes && c.limit <= 1 && Ordered(c, s) && Fenced(c, s) && Enabled(c, s, a)
    ensures Fenced(c, Apply(c, s, a))
  {
    match a
    case Enter(q) => EnterFenced(c, s, q);
    case Copyup(i, decoded) => CopyupFenced(c, s, i, decoded);
    case _ => QuietFenced(c, s, a);
  }

  lemma {:induction false} AlwaysFenced(c: Config, tr: Trace)
    requires 0 < c.lanes && c.limit <= 1 && Valid(c, tr)
    ensures Fenced(c, After(c, tr))
  {
    if tr.Then? {
      AlwaysFenced(c, tr.before);
      AlwaysOrdered(c, tr.before);
      StepFenced(c, After(c, tr.before), tr.act);
    }
  }

  // ------------------------------------------------------------------ a copyup that cannot be decoded

  /** Position `i` of the hand-over log belongs to lane `q` and a copyup of it is still to be executed. */
  predicate Pending(c: Config, s: State, q: nat, i: nat)
    requires 0 < c.lanes
  {
    i < |s.handed| && i < |s.pending| && LaneOf(c, s.handed[i].req.name) == q && s.pending[i] > 0
  }

  /** The flag of the lane is up and no copyup is left to clear it. */
  ghost predicate Dead(c: Config, s: State, q: nat)
    requires 0 < c.lanes
  {
    q < |s.lanes| && s.lanes[q].flag && forall i: nat :: !Pending(c, s, q, i)
  }

  /** A dead lane stays dead, and nothing is handed over on it. */
  lemma DeadForever(c: Config, s: State, a: Action, q: nat)
    requires 0 < c.lanes && Ordered(c, s) && Enabled(c, s, a) && Dead(c, s, q) && |s.pending| == |s.handed|
    ensures Dead(c, Apply(c, s, a), q) && !(a.Enter? && a.q == q)
  {
    var s' := Apply(c, s, a);
    if a.Enter? {
      var x := s.lanes[a.q].worker.item;
      assert LaneOk(c, s, a.q) && x in Backlog(s.lanes[a.q]);
      BacklogIsRouted(c, s, a.q, x);
    }
    if a.Copyup? {
      assert !Pending(c, s, q, a.i);
    }
    forall i: nat
      ensures !Pending(c, s', q, i)
    {
      assert !Pending(c, s, q, i);
    }
  }

  /** On any other lane the flag is down, or a copyup is left that can take it down. */
  lemma OtherwiseClears(c: Config, s: State, q: nat)
    requires 0 < c.lanes && q < |s.lanes| && !Dead(c, s, q)
    ensures !s.lanes[q].flag || exists i: nat :: Enabled(c, s, Copyup(i, true)) && !Apply(c, s, Copyup(i, true)).lanes[q].flag
  {
    if s.lanes[q].flag {
      var i: nat :| Pending(c, s, q, i);
      assert Enabled(c, s, Copyup(i, true));
    }
  }

  /** On any lane but a dead one work that waits can go on: its worker can take a step, or a copyup of it can run. */
  lemma LaneGoesOn(c: Config, s: State, q: nat) returns (a: Action)
    requires 0 < c.lanes && Ordered(c, s) && q < |s.lanes| && !Dead(c, s, q) && (s.lanes[q].req != [] || !s.lanes[q].worker.Asleep?)
    ensures Enabled(c, s, a) && match a
            case Swap(k) => k == q
            case Sleep(k) => k == q && s.lanes[q].req == []
            case Take(k) => k == q
            case Enter(k) => k == q
            case Drained(k) => k == q
            case Copyup(i, _) => Pending(c, s, q, i) && s.lanes[q].worker.AtBarrier? && s.lanes[q].flag
            case _ => false
  {
    var l := s.lanes[q];
    assert LaneOk(c, s, q);
    if l.worker.Top? {
      a := if l.req == [] then Sleep(q) else Swap(q);
    } else if l.worker.Draining? {
      a := if l.deal == [] then Drained(q) else Take(q);
    } else if !l.flag {
      a := Enter(q);
    } else {
      var i: nat :| Pending(c, s, q, i);
      a := Copyup(i, true);
    }
  }

  /** A copyup on lane `q` has failed to be decoded. */
  ghost predicate FailedOn(c: Config, tr: Trace, q: nat)
    requires 0 < c.lanes && Valid(c, tr)
  {
    tr.Then? && (FailedOn(c, tr.before, q) || FailsOn(c, After(c, tr.before), tr.act, q))
  }

  predicate FailsOn(c: Config, s: State, a: Action, q: nat)
    requires 0 < c.lanes
  {
    a.Copyup? && !a.decoded && a.i < |s.handed| && LaneOf(c, s.handed[a.i].req.name) == q
  }

  /** The flag of a lane is up for a copyup that is still to come, or for good after one that failed. */
  ghost predicate FlagLaw(c: Config, s: State, q: nat, failed: bool)
    requires 0 < c.lanes && q < |s.lanes|
  {
    if failed then Dead(c, s, q) else s.lanes[q].flag ==> exists i: nat :: Pending(c, s, q, i)
  }

  /** At most one copyup of a lane is still to come. */
  lemma OnePending(c: Config, s: State, q: nat, i: nat, j: nat)
    requires 0 < c.lanes && Fenced(c, s) && Pending(c, s, q, i) && Pending(c, s, q, j)
    ensures i == j && s.pending[i] == 1
  {
    var lane := LaneOf(c, s.handed[i].req.name);
    assert lane == LaneOf(c, s.handed[j].req.name);
  }

  lemma CopyupFlag(c: Config, s: State, i: nat, decoded: bool, q: nat, failed: bool)
    requires 0 < c.lanes && c.limit <= 1 && Ordered(c, s) && Fenced(c, s) && Enabled(c, s, Copyup(i, decoded))
    requires q < |s.lanes| && FlagLaw(c, s, q, failed)
    ensures FlagLaw(c, Apply(c, s, Copyup(i, decoded)), q, failed || FailsOn(c, s, Copyup(i, decoded), q))
  {
    var s', mine := Apply(c, s, Copyup(i, decoded)), LaneOf(c, s.handed[i].req.name);
    assert Pending(c, s, mine, i);
    if mine == q {
      forall j: nat
        ensures !Pending(c, s', q, j)
      {
        if Pending(c, s', q, j) {
          OnePending(c, s, q, i, j);
        }
      }
    } else if !failed && s.lanes[q].flag {
      var j: nat :| Pending(c, s, q, j);
      assert Pending(c, s', q, j);
    } else if failed {
      forall j: nat
        ensures !Pending(c, s', q, j)
      {
        assert !Pending(c, s, q, j);
      }
    }
  }

  lemma EnterFlag(c: Config, s: State, a: Action, q: nat)
    requires 0 < c.lanes && Ordered(c, s) && Fenced(c, s) && a.Enter? && Enabled(c, s, a)
    requires q < |s.lanes| && FlagLaw(c, s, q, false)
    ensures FlagLaw(c, Apply(c, s, a), q, false)
  {
    var s', x := Apply(c, s, a), s.lanes[a.q].worker.item;
    assert LaneOk(c, s, a.q) && x in Backlog(s.lanes[a.q]);
    BacklogIsRouted(c, s, a.q, x);
    if s'.lanes[q].flag {
      if a.q == q {
        assert Pending(c, s', q, |s.handed|);
      } else {
        var j: nat :| Pending(c, s, q, j);
        assert Pending(c, s', q, j);
      }
    }
  }

  lemma StepFlag(c: Config, s: State, a: Action, q: nat, failed: bool)
    requires 0 < c.lanes && c.limit <= 1 && Ordered(c, s) && Fenced(c, s) && Enabled(c, s, a)
    requires q < |s.lanes| && FlagLaw(c, s, q, failed)
    ensures |Apply(c, s, a).lanes| == |s.lanes| && FlagLaw(c, Apply(c, s, a), q, failed || FailsOn(c, s, a, q))
  {
    if a.Copyup? {
      CopyupFlag(c, s, a.i, a.decoded, q, failed);
    } else if failed {
      DeadForever(c, s, a, q);
    } else if a.Enter? {
      EnterFlag(c, s, a, q);
    } else if s.lanes[q].flag {
      var j: nat :| Pending(c, s, q, j);
      assert Pending(c, Apply(c, s, a), q, j);
    }
  }

  lemma {:induction false} FlagInRun(c: Config, tr: Trace, q: nat)
    requires 0 < c.lanes && c.limit <= 1 && Valid(c, tr) && q < c.lanes
    ensures |After(c, tr).lanes| == c.lanes && FlagLaw(c, After(c, tr), q, FailedOn(c, tr, q))
  {
    if tr.Then? {
      FlagInRun(c, tr.before, q);
      AlwaysOrdered(c, tr.before);
      AlwaysFenced(c, tr.before);
      StepFlag(c, After(c, tr.before), tr.act, q, FailedOn(c, tr.before, q));
    }
  }

  /** With at most one copyup per request a lane can never hand over again exactly when one of its copyups could not be decoded. */
  lemma OneCopyupDeadIff(c: Config, tr: Trace, q: nat)
    requires 0 < c.lanes && c.limit <= 1 && Valid(c, tr) && q < c.lanes
    ensures Dead(c, After(c, tr), q) <==> FailedOn(c, tr, q)
  {
    FlagInRun(c, tr, q);
  }

  /** The step hands a request over on lane `q`: the number of its copyups. */
  function Carries(s: State, a: Action, q: nat): nat {
    if a.Enter? && a.q == q && q < |s.lanes| && s.lanes[q].worker.AtBarrier? then s.lanes[q].worker.item.req.copyups else 0
  }

  /** The step executes a copyup of lane `q`. */
  predicate Executes(c: Config, s: State, a: Action, q: nat)
    requires 0 < c.lanes
  {
    a.Copyup? && a.i < |s.handed| && LaneOf(c, s.handed[a.i].req.name) == q
  }

  /** Copyups handed over on a lane in a run, and those executed. */
  ghost function Carried(c: Config, tr: Trace, q: nat): nat
    requires 0 < c.lanes && Valid(c, tr)
  {
    if tr.Start? then 0 else Carried(c, tr.before, q) + Carries(After(c, tr.before), tr.act, q)
  }

  ghost function Executed(c: Config, tr: Trace, q: nat): nat
    requires 0 < c.lanes && Valid(c, tr)
  {
    if tr.Start? then 0 else Executed(c, tr.before, q) + if Executes(c, After(c, tr.before), tr.act, q) then 1 else 0
  }

  /** The last hand-over on the lane carried a copyup, and none of the lane's copyups was decoded since. */
  ghost predicate UndecodedSince(c: Config, tr: Trace, q: nat)
    requires 0 < c.lanes && Valid(c, tr)
  {
    tr.Then? &&
    if tr.act.Enter? && tr.act.q == q then Carries(After(c, tr.before), tr.act, q) > 0
    else UndecodedSince(c, tr.before, q) && !(Executes(c, After(c, tr.before), tr.act, q) && tr.act.decoded)
  }

  lemma FlagStep(c: Config, s: State, a: Action, q: nat)
    requires 0 < c.lanes && q < |s.lanes| && Enabled(c, s, a)
    ensures |Apply(c, s, a).lanes| == |s.lanes|
    ensures Apply(c, s, a).lanes[q].flag <==>
            if a.Enter? && a.q == q then Carries(s, a, q) > 0 else s.lanes[q].flag && !(Executes(c, s, a, q) && a.decoded)
  {
  }

  lemma {:induction false} FlagIs(c: Config, tr: Trace, q: nat)
    requires 0 < c.lanes && Valid(c, tr) && q < c.lanes
    ensures |After(c, tr).lanes| == c.lanes && (After(c, tr).lanes[q].flag <==> UndecodedSince(c, tr, q))
  {
    if tr.Then? {
      FlagIs(c, tr.before, q);
      FlagStep(c, After(c, tr.before), tr.act, q);
    }
  }

  /** Copyups of lane `q` still to be executed. */
  ghost function Open(c: Config, handed: seq<Stamped>, pending: seq<nat>, q: nat): nat
    requires 0 < c.lanes && |pending| == |handed|
  {
    if handed == [] then 0
    else
      var n := |handed| - 1;
      Open(c, handed[..n], pending[..n], q) + if LaneOf(c, handed[n].req.name) == q then pending[n] else 0
  }

  lemma {:induction false} OpenLess(c: Config, handed: seq<Stamped>, pending: seq<nat>, q: nat, i: nat)
    requires 0 < c.lanes && |pending| == |handed| && i < |handed| && pending[i] > 0
    ensures Open(c, handed, pending[i := pending[i] - 1], q) + (if LaneOf(c, handed[i].req.name) == q then 1 else 0)
            == Open(c, handed, pending, q)
  {
    var n := |handed| - 1;
    if i < n {
      OpenLess(c, handed[..n], pending[..n], q, i);
      assert pending[i := pending[i] - 1][..n] == pending[..n][i := pending[..n][i] - 1];
    } else {
      assert pending[i := pending[i] - 1][..n] == pending[..n];
    }
  }

  lemma OpenMore(c: Config, handed: seq<Stamped>, pending: seq<nat>, q: nat, x: Stamped, k: nat)
    requires 0 < c.lanes && |pending| == |handed|
    ensures Open(c, handed + [x], pending + [k], q) == Open(c, handed, pending, q) + if LaneOf(c, x.req.name) == q then k else 0
  {
    assert (handed + [x])[..|handed|] == handed && (pending + [k])[..|handed|] == pending;
  }

  lemma {:induction false} OpenIsPending(c: Config, s: State, handed: seq<Stamped>, pending: seq<nat>, q: nat)
    requires 0 < c.lanes && |s.pending| == |s.handed| && handed <= s.handed && pending <= s.pending && |pending| == |handed|
    ensures Open(c, handed, pending, q) > 0 <==> exists i: nat :: i < |handed| && Pending(c, s, q, i)
  {
    if handed != [] {
      var n := |handed| - 1;
      OpenIsPending(c, s, handed[..n], pending[..n], q);
      if LaneOf(c, handed[n].req.name) == q && pending[n] > 0 {
        assert Pending(c, s, q, n);
      }
    }
  }

  lemma EnterOpen(c: Config, s: State, a: Action, q: nat)
    requires 0 < c.lanes && Ordered(c, s) && a.Enter? && Enabled(c, s, a) && |s.pending| == |s.handed| && q < |s.lanes|
    ensures var s' := Apply(c, s, a);
            |s'.pending| == |s'.handed| &&
            Open(c, s'.handed, s'.pending, q) == Open(c, s.handed, s.pending, q) + Carries(s, a, q)
  {
    var x := s.lanes[a.q].worker.item;
    assert LaneOk(c, s, a.q) && x in Backlog(s.lanes[a.q]);
    BacklogIsRouted(c, s, a.q, x);
    OpenMore(c, s.handed, s.pending, q, x, x.req.copyups);
  }

  lemma StepOpen(c: Config, s: State, a: Action, q: nat)
    requires 0 < c.lanes && Ordered(c, s) && Enabled(c, s, a) && |s.pending| == |s.handed| && q < |s.lanes|
    ensures var s' := Apply(c, s, a);
            |s'.pending| == |s'.handed| &&
            Open(c, s'.handed, s'.pending, q) + (if Executes(c, s, a, q) then 1 else 0)
            == Open(c, s.handed, s.pending, q) + Carries(s, a, q)
  {
    match a
    case Enter(_) => EnterOpen(c, s, a, q);
    case Copyup(i, _) => OpenLess(c, s.handed, s.pending, q, i);
    case _ =>
  }

  /** In every run the copyups of a lane still to come are those handed over less those executed. */
  lemma {:induction false} OpenInRun(c: Config, tr: Trace, q: nat)
    requires 0 < c.lanes && Valid(c, tr) && q < c.lanes
    ensures var s := After(c, tr);
            |s.pending| == |s.handed| && Open(c, s.handed, s.pending, q) + Executed(c, tr, q) == Carried(c, tr, q)
  {
    if tr.Then? {
      OpenInRun(c, tr.before, q);
      AlwaysOrdered(c, tr.before);
      StepOpen(c, After(c, tr.before), tr.act, q);
    }
  }

  /**
    A lane can never hand over again exactly when every copyup handed over on it has been executed and
    none was decoded since the last hand-over, which carried one.
   */
  lemma DeadIff(c: Config, tr: Trace, q: nat)
    requires 0 < c.lanes && Valid(c, tr) && q < c.lanes
    ensures Dead(c, After(c, tr), q) <==> UndecodedSince(c, tr, q) && Executed(c, tr, q) == Carried(c, tr, q)
  {
    var s := After(c, tr);
    FlagIs(c, tr, q);
    OpenInRun(c, tr, q);
    OpenIsPending(c, s, s.handed, s.pending, q);
    assert (forall i: nat :: !Pending(c, s, q, i)) <==> Open(c, s.handed, s.pending, q) == 0;
  }

  // ------------------------------------------------------------------ both hypotheses are needed

  ghost predicate Reachable(c: Config, s: State)
    requires 0 < c.lanes
  {
    exists tr :: Valid(c, tr) && After(c, tr) == s
  }

  lemma ReachStep(c: Config, s: State, a: Action)
    requires 0 < c.lanes && Reachable(c, s) && Enabled(c, s, a)
    ensures Reachable(c, Apply(c, s, a))
  {
    var tr :| Valid(c, tr) && After(c, tr) == s;
    assert Valid(c, Then(tr, a));
  }

  /** Everything idle except one lane. */
  ghost function Solo(c: Config, q: nat, l: Lane, enq: seq<Stamped>, done: seq<Stamped>, pending: seq<nat>): State
    requires q < c.lanes
  {
    State(Init(c).lanes[q := l], Init(c).producers, enq, done, done, pending)
  }

  ghost function Resting(w: Worker, flag: bool): Lane {
    Lane([], [], [], [], [], [], w, flag)
  }

  lemma ArriveIdle(c: Config, r: Request, flag: bool, enq: seq<Stamped>, done: seq<Stamped>, pending: seq<nat>)
    requires 0 < c.lanes && 0 < c.producers && r.copyups <= c.limit
    ensures var q, s := LaneOf(c, r.name), Solo(c, LaneOf(c, r.name), Resting(Top, flag), enq, done, pending);
            Enabled(c, s, Arrive(0, r, 0, 0)) &&
            Apply(c, s, Arrive(0, r, 0, 0)) ==
              Solo(c, q, Lane([r], [0], [0], [], [], [], Top, flag), enq + [Stamped(r, 0, 0)], done, pending)
  {
    var q, l := LaneOf(c, r.name), Resting(Top, flag);
    var l' := PushOn(l, Stamped(r, 0, 0));
    assert l'.req == [r] && l'.ts == [0] && l'.per == [0];
    assert Init(c).lanes[q := l][q := l'] == Init(c).lanes[q := l'];
  }

  /** A request arriving at an idle lane gets as far as the barrier. */
  lemma ReachBarrier(c: Config, r: Request, flag: bool, enq: seq<Stamped>, done: seq<Stamped>, pending: seq<nat>)
    requires 0 < c.lanes && 0 < c.producers && r.accepted && r.copyups <= c.limit
    requires Reachable(c, Solo(c, LaneOf(c, r.name), Resting(Top, flag), enq, done, pending))
    ensures var x := Stamped(r, 0, 0);
            Reachable(c, Solo(c, LaneOf(c, r.name), Resting(AtBarrier(x), flag), enq + [x], done, pending))
  {
    var q, x := LaneOf(c, r.name), Stamped(r, 0, 0);
    var s0 := Solo(c, q, Resting(Top, flag), enq, done, pending);
    var s1 := Solo(c, q, Lane([r], [0], [0], [], [], [], Top, flag), enq + [x], done, pending);
    var s2 := Solo(c, q, Lane([], [], [], [r], [0], [0], Draining, flag), enq + [x], done, pending);
    var s3 := Solo(c, q, Resting(AtBarrier(x), flag), enq + [x], done, pending);
    ArriveIdle(c, r, flag, enq, done, pending);
    ReachStep(c, s0, Arrive(0, r, 0, 0));
    SwapOne(c, s1, s2, q);
    ReachStep(c, s1, Swap(q));
    TakeOne(c, s2, s3, q);
    ReachStep(c, s2, Take(q));
  }

  lemma SwapOne(c: Config, s: State, s': State, q: nat)
    requires 0 < c.lanes && q < |s.lanes| && s.lanes[q].worker.Top? && s.lanes[q].req != []
    requires forall p :: 0 <= p < |s.producers| ==> s.producers[p].Free?
    requires var l := s.lanes[q];
             s' == s.(lanes := s.lanes[q := Lane(l.deal, l.dealTs, l.dealPer, l.req, l.ts, l.per, Draining, l.flag)])
    ensures Apply(c, s, Swap(q)) == s'
  {
    assert Notify(s.producers, q) == s.producers;
  }

  lemma TakeOne(c: Config, s: State, s': State, q: nat)
    requires 0 < c.lanes && q < |s.lanes| && s.lanes[q].worker.Draining?
    requires |s.lanes[q].deal| == |s.lanes[q].dealTs| == |s.lanes[q].dealPer| == 1 && s.lanes[q].deal[0].accepted
    requires var l := s.lanes[q];
             s' == s.(lanes := s.lanes[q := l.(deal := [], dealTs := [], dealPer := [],
                        worker := AtBarrier(Stamped(l.deal[0], l.dealTs[0], l.dealPer[0])))])
    ensures Apply(c, s, Take(q)) == s'
  {
    var l := s.lanes[q];
    assert l.deal[1..] == [] && l.dealTs[1..] == [] && l.dealPer[1..] == [];
  }

  /** A request with two copyups can be overtaken once the first of them has run. */
  lemma TwoCopyupsAreOvertaken(c: Config) returns (s: State)
    requires 0 < c.lanes && 0 < c.producers && 2 <= c.limit
    ensures Reachable(c, s) && !Barrier(c, s)
  {
    var first, second := Request("", 0, true, 2), Request("", 1, true, 0);
    var q, x, y := LaneOf(c, ""), Stamped(first, 0, 0), Stamped(second, 0, 0);
    assert Init(c).lanes[q := Resting(Top, false)] == Init(c).lanes;
    assert Valid(c, Start);
    assert Reachable(c, Solo(c, q, Resting(Top, false), [], [], []));
    ReachBarrier(c, first, false, [], [], []);
    var s1 := Solo(c, q, Resting(AtBarrier(x), false), [x], [], []);
    var s2 := Solo(c, q, Resting(Draining, true), [x], [x], [2]);
    var s3 := Solo(c, q, Resting(Top, true), [x], [x], [2]);
    assert [] + [x] == [x];
    assert Apply(c, s1, Enter(q)) == s2 by { assert s1.lanes[q := s2.lanes[q]] == s2.lanes; }
    ReachStep(c, s1, Enter(q));
    assert Apply(c, s2, Drained(q)) == s3 by { assert s2.lanes[q := s3.lanes[q]] == s3.lanes; }
    ReachStep(c, s2, Drained(q));
    ReachBarrier(c, second, true, [x], [x], [2]);
    s := Overtaken(c, x, y);
  }

  lemma Overtaken(c: Config, x: Stamped, y: Stamped) returns (s: State)
    requires 0 < c.lanes && x.req.name == y.req.name == ""
    requires Reachable(c, Solo(c, LaneOf(c, ""), Resting(AtBarrier(y), true), [x] + [y], [x], [2]))
    ensures Reachable(c, s) && !Barrier(c, s)
  {
    var q := LaneOf(c, "");
    var s0 := Solo(c, q, Resting(AtBarrier(y), true), [x] + [y], [x], [2]);
    var s1 := Solo(c, q, Resting(AtBarrier(y), false), [x] + [y], [x], [1]);
    assert Apply(c, s0, Copyup(0, true)) == s1 by { assert s0.lanes[q := s1.lanes[q]] == s1.lanes; }
    ReachStep(c, s0, Copyup(0, true));
    s := Apply(c, s1, Enter(q));
    ReachStep(c, s1, Enter(q));
    assert s.handed[0] == x && s.handed[1] == y && s.pending[0] == 1;
  }

  /** The barrier holds in every run exactly when no request carries more than one copyup. */
  lemma BarrierIff(c: Config)
    requires 0 < c.lanes && 0 < c.producers
    ensures (forall s :: Reachable(c, s) ==> Barrier(c, s)) <==> c.limit <= 1
  {
    if c.limit <= 1 {
      forall s | Reachable(c, s)
        ensures Barrier(c, s)
      {
        var tr :| Valid(c, tr) && After(c, tr) == s;
        AlwaysFenced(c, tr);
      }
    } else {
      var s := TwoCopyupsAreOvertaken(c);
    }
  }

  // ------------------------------------------------------------------ the capacity bound is reached

  /** Reached with `k` spurious wakeups for lane `q`. */
  ghost predicate ReachedWith(c: Config, s: State, q: nat, k: nat)
    requires 0 < c.lanes
  {
    exists tr :: Valid(c, tr) && Wakeups(c, tr, q) == k && After(c, tr) == s
  }

  lemma RunOn(c: Config, s: State, q: nat, k: nat, a: Action, s': State)
    requires 0 < c.lanes && ReachedWith(c, s, q, k) && Enabled(c, s, a) && Apply(c, s, a) == s'
    ensures ReachedWith(c, s', q, k + Wakes(s, a, q))
  {
    var tr :| Valid(c, tr) && Wakeups(c, tr, q) == k && After(c, tr) == s;
    assert Valid(c, Then(tr, a)) && After(c, Then(tr, a)) == s';
  }

  const FILLER: Request := Request("", 0, true, 0)

  /** `m` requests wait in lane `q`, that of the empty name, and the producers are `ps`. */
  ghost predicate Holds(c: Config, s: State, q: nat, m: nat, ps: seq<Producer>)
    requires 0 < c.lanes
  {
    q == LaneOf(c, "") && q < |s.lanes| && |s.lanes[q].req| == m && s.producers == ps
  }

  /** The worker of lane `q` has nothing in hand. */
  ghost predicate Unworked(s: State, q: nat) {
    q < |s.lanes| && s.lanes[q].worker.Top? && s.lanes[q].deal == []
  }

  /** A free producer fills a lane up to one more than its capacity. */
  lemma {:induction false} FillUp(c: Config, s: State, q: nat, m: nat, n: nat, ps: seq<Producer>, k: nat) returns (s': State)
    requires 0 < c.lanes && ReachedWith(c, s, q, k) && Holds(c, s, q, m, ps) && 0 < |ps| && ps[0].Free? && m + n <= c.cap + 1
    ensures ReachedWith(c, s', q, k) && Holds(c, s', q, m + n, ps) && (Unworked(s, q) ==> Unworked(s', q))
    decreases n
  {
    if n == 0 {
      s' := s;
    } else {
      var t := FillOne(c, s, q, m, ps, k);
      s' := FillUp(c, t, q, m + 1, n - 1, ps, k);
    }
  }

  lemma FillOne(c: Config, s: State, q: nat, m: nat, ps: seq<Producer>, k: nat) returns (s': State)
    requires 0 < c.lanes && ReachedWith(c, s, q, k) && Holds(c, s, q, m, ps) && 0 < |ps| && ps[0].Free? && m <= c.cap
    ensures ReachedWith(c, s', q, k) && Holds(c, s', q, m + 1, ps) && (Unworked(s, q) ==> Unworked(s', q))
  {
    var a := Arrive(0, FILLER, 0, 0);
    s' := Apply(c, s, a);
    RunOn(c, s, q, k, a, s');
  }

  /** Producers from number `from` up to number `to` are as `p`, the others free. */
  ghost function Crew(c: Config, from: nat, to: nat, p: Producer): seq<Producer> {
    seq(c.producers, i => if from <= i < to then p else Free)
  }

  /** Producers arrive at a full lane one after the other and wait. */
  lemma {:induction false} AllWait(c: Config, s: State, q: nat, m: nat, n: nat, p: Producer) returns (s': State)
    requires 0 < c.lanes && 1 <= n <= c.producers && c.cap < m && p == Blocked(q, FILLER, 0)
    requires ReachedWith(c, s, q, 0) && Holds(c, s, q, m, Crew(c, 1, 1, p)) && Unworked(s, q)
    ensures ReachedWith(c, s', q, 0) && Holds(c, s', q, m, Crew(c, 1, n, p)) && Unworked(s', q)
  {
    if n == 1 {
      s' := s;
    } else {
      var t := AllWait(c, s, q, m, n - 1, p);
      var a := Arrive(n - 1, FILLER, 0, 0);
      assert Crew(c, 1, n - 1, p)[n - 1 := p] == Crew(c, 1, n, p);
      s' := Apply(c, t, a);
      RunOn(c, t, q, 0, a, s');
    }
  }

  lemma WakeAll(c: Config, q: nat)
    ensures Notify(Crew(c, 1, c.producers, Blocked(q, FILLER, 0)), q) == Crew(c, 1, c.producers, Woken(q, FILLER, 0))
  {
  }

  /** They wake up together, and each pushes without looking again. */
  lemma {:induction false} AllResume(c: Config, s: State, q: nat, m: nat, from: nat, p: Producer) returns (s': State)
    requires 0 < c.lanes && 1 <= from <= c.producers && p == Woken(q, FILLER, 0)
    requires ReachedWith(c, s, q, 0) && Holds(c, s, q, m, Crew(c, from, c.producers, p))
    ensures ReachedWith(c, s', q, 0) && Holds(c, s', q, m + (c.producers - from), Crew(c, c.producers, c.producers, p))
    decreases c.producers - from
  {
    if from == c.producers {
      s' := s;
    } else {
      var a := Resume(from, 0);
      assert Crew(c, from, c.producers, p)[from := Free] == Crew(c, from + 1, c.producers, p);
      RunOn(c, s, q, 0, a, Apply(c, s, a));
      s' := AllResume(c, Apply(c, s, a), q, m + 1, from + 1, p);
    }
  }

  /** Each spurious wakeup of a producer at a full lane adds a request. */
  lemma {:induction false} WakeMore(c: Config, s: State, q: nat, m: nat, ps: seq<Producer>, k: nat, n: nat) returns (s': State)
    requires 0 < c.lanes && ReachedWith(c, s, q, k) && Holds(c, s, q, m, ps) && 0 < |ps| && ps[0].Free? && c.cap < m
    ensures ReachedWith(c, s', q, k + n) && Holds(c, s', q, m + n, ps)
    decreases n
  {
    if n == 0 {
      s' := s;
    } else {
      var t := WakeOnce(c, s, q, m, ps, k);
      s' := WakeMore(c, t, q, m + 1, ps, k + 1, n - 1);
    }
  }

  lemma WakeOnce(c: Config, s: State, q: nat, m: nat, ps: seq<Producer>, k: nat) returns (s': State)
    requires 0 < c.lanes && ReachedWith(c, s, q, k) && Holds(c, s, q, m, ps) && 0 < |ps| && ps[0].Free? && c.cap < m
    ensures ReachedWith(c, s', q, k + 1) && Holds(c, s', q, m + 1, ps)
  {
    var waits := Apply(c, s, Arrive(0, FILLER, 0, 0));
    RunOn(c, s, q, k, Arrive(0, FILLER, 0, 0), waits);
    var woken := Apply(c, waits, Spurious(0));
    RunOn(c, waits, q, k, Spurious(0), woken);
    s' := Apply(c, woken, Resume(0, 0));
    RunOn(c, woken, q, k + 1, Resume(0, 0), s');
    assert woken.producers[0 := Free] == ps;
  }

  lemma Begin(c: Config, q: nat, p: Producer) returns (s: State)
    requires 0 < c.lanes && q == LaneOf(c, "")
    ensures ReachedWith(c, s, q, 0) && Holds(c, s, q, 0, Crew(c, 1, 1, p)) && Unworked(s, q)
  {
    s := Init(c);
    assert Valid(c, Start) && Wakeups(c, Start, q) == 0 && After(c, Start) == s;
    assert s.producers == Crew(c, 1, 1, p);
  }

  /** All but one producer wait for a full lane, which the worker then takes out: all of them wake up. */
  lemma AllWoken(c: Config, q: nat, m: nat) returns (s: State)
    requires 0 < c.lanes && 0 < c.producers && q == LaneOf(c, "") && m == c.cap + 1
    ensures ReachedWith(c, s, q, 0) && Holds(c, s, q, 0, Crew(c, 1, c.producers, Woken(q, FILLER, 0)))
  {
    var p := Blocked(q, FILLER, 0);
    var s0 := Begin(c, q, p);
    var s1 := FillUp(c, s0, q, 0, m, Crew(c, 1, 1, p), 0);
    var s2 := AllWait(c, s1, q, m, c.producers, p);
    WakeAll(c, q);
    s := Apply(c, s2, Swap(q));
    RunOn(c, s2, q, 0, Swap(q), s);
  }

  /** The bound of `CapacityBound` is reached for every number of spurious wakeups. */
  lemma CapacityReached(c: Config, q: nat, k: nat) returns (s: State)
    requires 0 < c.lanes && 0 < c.producers && q == LaneOf(c, "")
    ensures ReachedWith(c, s, q, k) && q < |s.lanes| && |s.lanes[q].req| == c.cap + c.producers + k
  {
    var p := Woken(q, FILLER, 0);
    var s0 := AllWoken(c, q, c.cap + 1);
    var s1 := FillUp(c, s0, q, 0, c.cap + 1, Crew(c, 1, c.producers, p), 0);
    var s2 := AllResume(c, s1, q, c.cap + 1, 1, p);
    s := WakeMore(c, s2, q, c.cap + c.producers, Crew(c, c.producers, c.producers, p), 0, k);
  }

  /** With spurious wakeups even one producer can grow a lane without bound. */
  lemma SpuriousBreaksCapacity(c: Config, q: nat, n: nat) returns (s: State)
    requires 0 < c.lanes && 0 < c.producers && q == LaneOf(c, "")
    ensures Reachable(c, s) && q < |s.lanes| && |s.lanes[q].req| == n
  {
    var most, ps := if n <= c.cap then n else c.cap + 1, Crew(c, 1, 1, Free);
    var s0 := Begin(c, q, Free);
    s := FillUp(c, s0, q, 0, most, ps, 0);
    if most < n {
      s := WakeMore(c, s, q, most, ps, 0, n - most);
    }
  }
}
