/**
  The per-pool I/O worker of the Ceph proxy: producers queue requests, one thread swaps the
  queue out and dispatches the batch, clients may wait until it is empty, and it can be
  stopped.

  An action is one critical section of `ioworkerLock`, or one dispatch made without the lock.
 */
module IoWorker {

  /** IO_WORKER_QUEUE_MAX_COUNT: a request is refused when more than this many are queued. */
  const QUEUE_MAX: nat := 65535

  type Request = nat

  /** How a request left the worker: no ioctx, aio refused, or handed to librados. */
  datatype Outcome = NoContext | AioFailed(ret: int) | Submitted

  /** The worker holds no lock in `Fresh` (thread created), `Dispatching`, `Waiting` and `Exited`. */
  datatype Thread = Fresh | Dispatching | Waiting(signalled: bool) | Exited

  /** A client inside `WaitForEmpty`, or back from it. */
  datatype Client = Outside | Waits(signalled: bool)

  datatype State = State(ops: seq<Request>, batch: seq<Request>, running: bool, stop: bool, emptyWait: bool,
                         thread: Thread, clients: seq<Client>,
                         accepted: seq<Request>, dispatched: seq<(Request, Outcome)>)

  datatype Action =
    | Queue(r: Request)
    | Enter
    | Dispatch(how: Outcome)
    | Relock
    | Wake
    | Spurious
    | StopProc
    | WaitForEmpty(i: nat)
    | ClientWake(i: nat)
    | ClientSpurious(i: nat)

  function Init(clients: nat): State {
    State([], [], false, false, false, Fresh, seq(clients, _ => Outside), [], [])
  }

  function NotifyThread(t: Thread): Thread {
    if t.Waiting? then Waiting(true) else t
  }

  function NotifyClients(cs: seq<Client>): (r: seq<Client>)
    ensures |r| == |cs|
    ensures forall i :: 0 <= i < |cs| ==> r[i] == if cs[i].Waits? then Waits(true) else cs[i]
  {
    seq(|cs|, i requires 0 <= i < |cs| => if cs[i].Waits? then Waits(true) else cs[i])
  }

  /** The outer loop with the lock held, up to the next unlock, wait or return. */
  function Loop(s: State): State {
    if s.stop then Leave(s) else Inner(s)
  }

  /** The inner loop test and what follows it. */
  function Inner(s: State): State {
    if s.ops != [] then s.(batch := s.ops, ops := [], running := true, thread := Dispatching)
    else
      var s' := if s.emptyWait then s.(clients := NotifyClients(s.clients)) else s;
      if s'.stop then Leave(s') else s'.(thread := Waiting(false))
  }

  function Leave(s: State): State {
    s.(clients := NotifyClients(s.clients), stop := false, thread := Exited)
  }

  predicate Enabled(s: State, a: Action) {
    match a
    case Queue(_) => true
    case Enter => s.thread.Fresh?
    case Dispatch(_) => s.thread.Dispatching? && s.batch != []
    case Relock => s.thread.Dispatching? && s.batch == []
    case Wake => s.thread.Waiting? && s.thread.signalled
    case Spurious => s.thread.Waiting?
    case StopProc => true
    case WaitForEmpty(i) => i < |s.clients| && s.clients[i].Outside?
    case ClientWake(i) => i < |s.clients| && s.clients[i].Waits? && s.clients[i].signalled
    case ClientSpurious(i) => i < |s.clients| && s.clients[i].Waits?
  }

  /** The loop of `WaitForEmpty` with the lock held: wait again or return. */
  function EmptyTest(s: State, i: nat): State
    requires i < |s.clients|
  {
    if s.ops != [] || s.running then s.(emptyWait := true, clients := s.clients[i := Waits(false)])
    else s.(emptyWait := false, clients := s.clients[i := Outside])
  }

  function Apply(s: State, a: Action): State
    requires Enabled(s, a)
  {
    match a
    case Queue(r) =>
      if |s.ops| > QUEUE_MAX then s
      else
        var s' := if s.ops == [] then s.(thread := NotifyThread(s.thread)) else s;
        s'.(ops := s'.ops + [r], accepted := s'.accepted + [r])
    case Enter => Loop(s)
    case Dispatch(how) => s.(batch := s.batch[1..], dispatched := s.dispatched + [(s.batch[0], how)])
    case Relock => Inner(s.(running := false))
    case Wake => Loop(s)
    case Spurious => Loop(s)
    case StopProc => s.(stop := true, thread := NotifyThread(s.thread))
    case WaitForEmpty(i) => EmptyTest(s, i)
    case ClientWake(i) => EmptyTest(s, i)
    case ClientSpurious(i) => EmptyTest(s, i)
  }

  datatype Trace = Start | Then(before: Trace, act: Action)

  predicate Valid(clients: nat, tr: Trace)
    decreases tr, 0
  {
    tr.Then? ==> Valid(clients, tr.before) && Enabled(After(clients, tr.before), tr.act)
  }

  function After(clients: nat, tr: Trace): State
    requires Valid(clients, tr)
    decreases tr, 1
  {
    match tr
    case Start => Init(clients)
    case Then(before, act) => Apply(After(clients, before), act)
  }

  function Requests(log: seq<(Request, Outcome)>): (r: seq<Request>)
    ensures |r| == |log| && forall i :: 0 <= i < |r| ==> r[i] == log[i].0
  {
    seq(|log|, i requires 0 <= i < |log| => log[i].0)
  }

  /** The queue never exceeds one more than its limit. */
  ghost predicate Bounded(s: State) {
    |s.ops| <= QUEUE_MAX + 1
  }

  /** First in, first out, and every accepted request exactly once. */
  ghost predicate Conserved(s: State) {
    s.accepted == Requests(s.dispatched) + s.batch + s.ops
  }

  /** `ioworkerRunning` is up exactly while the thread is dispatching; a batch exists only then. */
  ghost predicate Consistent(s: State) {
    (s.running <==> s.thread.Dispatching?) && (s.batch != [] ==> s.running)
  }

  /** Work queued or a stop requested: the thread is not asleep without a signal on its way. */
  ghost predicate NoLostWakeup(s: State) {
    (s.ops != [] || s.stop) && s.thread.Waiting? ==> s.thread.signalled
  }

  /** A client sleeps without a signal only while there is something to wait for and its flag is up. */
  ghost predicate NoLostClient(s: State) {
    forall i :: 0 <= i < |s.clients| && s.clients[i].Waits? && !s.clients[i].signalled ==>
      s.emptyWait && (s.ops != [] || s.running)
  }

  ghost predicate Inv(s: State) {
    Bounded(s) && Conserved(s) && Consistent(s) && NoLostWakeup(s) && NoLostClient(s)
  }

  lemma QueueInv(s: State, r: Request)
    requires Inv(s)
    ensures Inv(Apply(s, Queue(r)))
  {
    assert Requests(s.dispatched) + s.batch + (s.ops + [r]) == (Requests(s.dispatched) + s.batch + s.ops) + [r];
  }

  lemma DispatchInv(s: State, how: Outcome)
    requires Inv(s) && Enabled(s, Dispatch(how))
    ensures Inv(Apply(s, Dispatch(how)))
  {
    var s' := Apply(s, Dispatch(how));
    assert Requests(s'.dispatched) == Requests(s.dispatched) + [s.batch[0]];
    assert [s.batch[0]] + s'.batch == s.batch;
    assert s'.accepted == Requests(s'.dispatched) + s'.batch + s'.ops;
  }

  /** The thread with the lock held and nothing in hand keeps the laws up to its next unlock. */
  lemma LoopInv(s: State)
    requires Bounded(s) && Conserved(s) && s.batch == [] && !s.running && NoLostClient(s)
    ensures Inv(Loop(s)) && Inv(Inner(s))
  {
    assert Requests(s.dispatched) + s.ops + [] == Requests(s.dispatched) + [] + s.ops;
  }

  lemma ClientInv(s: State, i: nat)
    requires Inv(s) && i < |s.clients|
    ensures Inv(EmptyTest(s, i))
  {
  }

  lemma StepInv(s: State, a: Action)
    requires Inv(s) && Enabled(s, a)
    ensures Inv(Apply(s, a))
  {
    match a
    case Queue(r) => QueueInv(s, r);
    case Dispatch(how) => DispatchInv(s, how);
    case Enter => LoopInv(s);
    case Wake => LoopInv(s);
    case Spurious => LoopInv(s);
    case Relock => RelockInv(s);
    case WaitForEmpty(i) => ClientInv(s, i);
    case ClientWake(i) => ClientInv(s, i);
    case ClientSpurious(i) => ClientInv(s, i);
    case StopProc =>
  }

  lemma RelockInv(s: State)
    requires Inv(s) && Enabled(s, Relock)
    ensures Inv(Apply(s, Relock))
  {
  }

  /** All five hold in every reachable state, spurious wakeups and stops included. */
  lemma {:induction false} AlwaysInv(clients: nat, tr: Trace)
    requires Valid(clients, tr)
    ensures Inv(After(clients, tr))
  {
    if tr.Then? {
      AlwaysInv(clients, tr.before);
      StepInv(After(clients, tr.before), tr.act);
    }
  }

  /** `WaitForEmpty` returns only when everything accepted so far has been dispatched, in order. */
  lemma EmptyMeansDispatched(clients: nat, tr: Trace, s: State, i: nat, a: Action)
    requires Valid(clients, tr) && After(clients, tr) == s && Enabled(s, a) && i < |s.clients|
    requires a == WaitForEmpty(i) || a == ClientWake(i) || a == ClientSpurious(i)
    requires Apply(s, a).clients[i].Outside?
    ensures s.accepted == Requests(s.dispatched)
  {
    AlwaysInv(clients, tr);
  }

  /** It returns exactly when nothing is queued and no batch is being dispatched; its flag is up while it waits. */
  lemma ReturnsIff(s: State, i: nat, a: Action)
    requires Enabled(s, a) && (a == WaitForEmpty(i) || a == ClientWake(i) || a == ClientSpurious(i))
    ensures var s' := Apply(s, a);
            && (s'.clients[i].Outside? <==> s.ops == [] && !s.running)
            && (s'.emptyWait <==> !s'.clients[i].Outside?)
            && s'.ops == s.ops && s'.thread == s.thread && s'.running == s.running
  {
  }

  lemma EmptyStaysEmpty(s: State, a: Action)
    requires Inv(s) && Enabled(s, a) && !a.Queue? && s.accepted == Requests(s.dispatched)
    ensures Apply(s, a).accepted == Requests(Apply(s, a).dispatched)
  {
    assert |s.batch + s.ops| == 0;
  }

  ghost predicate NoneQueued(tr: Trace, until: Trace) {
    tr == until || (tr.Then? && !tr.act.Queue? && NoneQueued(tr.before, until))
  }

  /**
    `RadosWorker::Stop` waits for empty before it stops the thread: with no request queued in
    between, nothing accepted is ever dropped.
   */
  lemma {:induction false} StopAfterEmptyDropsNothing(clients: nat, tr: Trace, empty: Trace)
    requires Valid(clients, tr) && Valid(clients, empty) && NoneQueued(tr, empty)
    requires After(clients, empty).accepted == Requests(After(clients, empty).dispatched)
    ensures After(clients, tr).accepted == Requests(After(clients, tr).dispatched)
  {
    if tr != empty {
      StopAfterEmptyDropsNothing(clients, tr.before, empty);
      AlwaysInv(clients, tr.before);
      EmptyStaysEmpty(After(clients, tr.before), tr.act);
    }
  }

  /** A thread with work or a stop to see can take a step, until it has left; so can a client that waits for nothing. */
  lemma GoesOn(s: State, i: nat) returns (a: Action, k: Action)
    requires Inv(s) && i < |s.clients|
    ensures Enabled(s, a) && Enabled(s, k)
    ensures !s.thread.Exited? && (!s.thread.Waiting? || s.ops != [] || s.stop) ==> a.Enter? || a.Dispatch? || a.Relock? || a.Wake?
    ensures s.clients[i].Waits? && (s.clients[i].signalled || (s.ops == [] && !s.running)) ==> k == ClientWake(i)
    ensures s.clients[i].Outside? ==> k == WaitForEmpty(i)
  {
    a := match s.thread
      case Fresh => Enter
      case Dispatching => if s.batch == [] then Relock else Dispatch(Submitted)
      case Waiting(signalled) => if signalled then Wake else StopProc
      case Exited => StopProc;
    k := if s.clients[i].Outside? then WaitForEmpty(i)
         else if s.clients[i].signalled then ClientWake(i) else ClientSpurious(i);
  }

  /** A thread that has left stays away: nothing is dispatched and nothing leaves its queue. */
  lemma ExitedForever(s: State, a: Action)
    requires s.thread.Exited? && Enabled(s, a)
    ensures Apply(s, a).thread.Exited? && Apply(s, a).dispatched == s.dispatched && s.ops <= Apply(s, a).ops
  {
  }

  /** A thread that leaves wakes every client that waits and takes the stop back. */
  lemma LeavingSignals(s: State, a: Action, i: nat)
    requires Enabled(s, a) && !s.thread.Exited? && Apply(s, a).thread.Exited? && i < |s.clients|
    ensures var s' := Apply(s, a);
            s.stop && !s'.stop && |s'.clients| == |s.clients| && s'.clients[i] == if s.clients[i].Waits? then Waits(true) else Outside
  {
  }

  /** The test at the head of the outer loop sees the stop with work queued. */
  predicate LeavesWork(s: State, a: Action) {
    (a.Enter? || a.Wake? || a.Spurious?) && s.stop && s.ops != []
  }

  /** A request is accepted although the thread has left. */
  predicate QueuesLate(s: State, a: Action) {
    a.Queue? && s.thread.Exited? && |s.ops| <= QUEUE_MAX
  }

  ghost predicate Drops(clients: nat, tr: Trace)
    requires Valid(clients, tr)
  {
    tr.Then? && (Drops(clients, tr.before) || LeavesWork(After(clients, tr.before), tr.act)
                 || QueuesLate(After(clients, tr.before), tr.act))
  }

  lemma DropStep(s: State, a: Action, dropped: bool)
    requires Inv(s) && Enabled(s, a) && (dropped <==> s.thread.Exited? && s.ops != [])
    ensures var s' := Apply(s, a);
            dropped || LeavesWork(s, a) || QueuesLate(s, a) <==> s'.thread.Exited? && s'.ops != []
  {
  }

  lemma {:induction false} DropsInRun(clients: nat, tr: Trace)
    requires Valid(clients, tr)
    ensures Drops(clients, tr) <==> After(clients, tr).thread.Exited? && After(clients, tr).ops != []
  {
    if tr.Then? {
      DropsInRun(clients, tr.before);
      AlwaysInv(clients, tr.before);
      DropStep(After(clients, tr.before), tr.act, Drops(clients, tr.before));
    }
  }

  /**
    When the thread has left, everything accepted has been dispatched unless it left with work queued
    or a request came after it, and then never will be.
   */
  lemma DroppedIff(clients: nat, tr: Trace, s: State)
    requires Valid(clients, tr) && After(clients, tr) == s && s.thread.Exited?
    ensures s.accepted != Requests(s.dispatched) <==> Drops(clients, tr)
  {
    AlwaysInv(clients, tr);
    DropsInRun(clients, tr);
    assert s.batch == [] && |s.accepted| == |Requests(s.dispatched)| + |s.ops|;
  }

  /** Without that wait a stop can leave accepted requests undispatched for good. */
  lemma StopMayDrop() returns (tr: Trace)
    ensures Valid(0, tr) && After(0, tr).thread.Exited? && After(0, tr).ops != []
  {
    tr := Then(Then(Then(Start, Queue(0)), StopProc), Enter);
    var one := Then(Start, Queue(0));
    assert Valid(0, one) && Valid(0, Then(one, StopProc));
  }

  // ------------------------------------------------------------------ the code under the lock

  /** The fields of the worker that `Queue` works on; `Waiting` is what the condition variable remembers. */
  class RadosIOWorker {
    var Ops: seq<Request>
    var waiter: Thread

    constructor ()
      ensures Ops == [] && waiter.Fresh?
    {
      Ops, waiter := [], Fresh;
    }

    /** The notification is given before the push, under the lock, and only when the queue was empty. */
    method Queue(r: Request) returns (ret: int)
      modifies this
      ensures forall s: State :: s.ops == old(Ops) && s.thread == old(waiter) ==>
                var s' := Apply(s, Action.Queue(r));
                s'.ops == Ops && s'.thread == waiter && (ret == 0 <==> s'.accepted == s.accepted + [r])
      ensures ret == 0 || (ret == -1 && Ops == old(Ops) && |Ops| > QUEUE_MAX)
    {
      if |Ops| > QUEUE_MAX {
        assert forall s: State :: s.accepted != s.accepted + [r];
        return -1;
      }
      if Ops == [] {
        waiter := NotifyThread(waiter);
      }
      Ops := Ops + [r];
      ret := 0;
    }
  }

  /** The dispatch loop over a swapped-out batch: one outcome for every request, none skipped. */
  method DispatchBatch(ls: seq<Request>, known: set<Request>, aio: map<Request, int>) returns (log: seq<(Request, Outcome)>)
    ensures Requests(log) == ls
    ensures forall i :: 0 <= i < |ls| ==>
              log[i].1 == if ls[i] !in known then NoContext
                          else if ls[i] in aio && aio[ls[i]] < 0 then AioFailed(aio[ls[i]]) else Submitted
  {
    log := [];
    for i := 0 to |ls|
      invariant Requests(log) == ls[..i]
      invariant forall j :: 0 <= j < i ==>
                  log[j].1 == if ls[j] !in known then NoContext
                              else if ls[j] in aio && aio[ls[j]] < 0 then AioFailed(aio[ls[j]]) else Submitted
    {
      assert ls[..i + 1] == ls[..i] + [ls[i]];
      if ls[i] !in known {
        log := log + [(ls[i], NoContext)];
        continue;
      }
      var ret := if ls[i] in aio then aio[ls[i]] else 0;
      if ret < 0 {
        log := log + [(ls[i], AioFailed(ret))];
        continue;
      }
      log := log + [(ls[i], Submitted)];
    }
    assert ls[..|ls|] == ls;
  }
}
