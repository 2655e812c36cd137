/**
  The retry protocol of the patched Objecter for operations that go to the global cache.

  An unfinished operation waits in a session for a reply, in the retry queue of its
  partition (PT) after a retryable error, in the hang-on list while its PT is not normal, or
  in the batch of a thread that is about to submit it again.  Handlers run under `rwlock`,
  a session lock or `retrylock`, so each action below is atomic; every resubmission is its
  own action.
 */
module Objecter {
  import NodeId

  type OpId = nat
  type Tid = nat

  /** What one thread still has to submit: a PT's retry queue, a resend map, or single operations. */
  datatype Batch =
    | Fifo(pt: nat, queue: seq<OpId>)
    | ByTid(resend: map<Tid, OpId>)
    | Plain(queue: seq<OpId>)

  /**
    Operations are numbered in order of creation; `tid`, `stamp` and `ptOf` are indexed by that number.
    `finished` and `lost` log those answered for good and those a reset took out of a session and forgot.
   */
  datatype State = State(sessions: map<nat, map<Tid, OpId>>, retry: map<nat, seq<OpId>>, hangon: seq<OpId>,
                         batches: seq<Batch>, tid: seq<Tid>, stamp: seq<nat>, ptOf: seq<nat>,
                         lastTid: Tid, clock: nat, finished: set<OpId>, lost: set<OpId>)

  datatype Action =
    | NewOp(pt: nat)
    | Submit(b: nat, next: Tid, ptNormal: bool, node: nat)
    | ErrorReply(osd: nat, t: Tid, pt: nat)
    | AgainReply(osd: nat, t: Tid)
    | FinalReply(osd: nat, t: Tid)
    | PtReady(pt: nat)
    | HangonSweep(normal: set<nat>)
    | NodeView(available: set<nat>)
    | Reset(osd: nat, up: bool)

  function Init(): State {
    State(map[], map[], [], [], [], [], [], 0, 0, {}, {})
  }

  predicate InSession(s: State, osd: nat, t: Tid) {
    osd in s.sessions && t in s.sessions[osd]
  }

  function Without(s: State, osd: nat, t: Tid): State
    requires InSession(s, osd, t)
  {
    s.(sessions := s.sessions[osd := s.sessions[osd] - {t}])
  }

  /** `_op_submit`: hang on, or get a tid (once) and enter the session of the node. */
  function OpSubmit(s: State, op: OpId, ptNormal: bool, node: nat): State
    requires op < |s.tid|
  {
    if !ptNormal then s.(hangon := s.hangon + [op])
    else
      var s' := if s.tid[op] == 0 then s.(lastTid := s.lastTid + 1, tid := s.tid[op := s.lastTid + 1]) else s;
      var session: map<Tid, OpId> := if node in s'.sessions then s'.sessions[node] else map[];
      s'.(sessions := s'.sessions[node := session[s'.tid[op] := op]])
  }

  predicate HasNext(b: Batch, next: Tid) {
    if b.ByTid? then next in b.resend && forall t: Tid :: t in b.resend ==> next <= t else b.queue != []
  }

  function Next(b: Batch, next: Tid): OpId
    requires HasNext(b, next)
  {
    if b.ByTid? then b.resend[next] else b.queue[0]
  }

  function Rest(b: Batch, next: Tid): Batch
    requires HasNext(b, next)
  {
    if b.ByTid? then ByTid(b.resend - {next}) else b.(queue := b.queue[1..])
  }

  function Select(s: State, ops: seq<OpId>, normal: set<nat>, want: bool): seq<OpId> {
    if ops == [] then []
    else
      var init, last := ops[..|ops| - 1], ops[|ops| - 1];
      if (last < |s.ptOf| && s.ptOf[last] in normal) == want then Select(s, init, normal, want) + [last]
      else Select(s, init, normal, want)
  }

  function Closing(s: State, available: set<nat>): set<nat> {
    set osd | osd in s.sessions && NodeId.Closes(osd, available)
  }

  /** `need_resend`: the operations of all closing sessions, keyed by tid. */
  ghost function NeedResend(s: State, closing: set<nat>): map<Tid, OpId>
    requires KeysOk(s) && TidsOk(s)
  {
    assert forall o: nat, u: nat, t: Tid :: InSession(s, o, t) && InSession(s, u, t) ==> s.sessions[o][t] == s.sessions[u][t] by {
      SameTidSameOp(s);
    }
    map osd, t | osd in closing && osd in s.sessions && t in s.sessions[osd] && InSession(s, osd, t) :: t := s.sessions[osd][t]
  }

  ghost predicate Enabled(s: State, a: Action) {
    match a
    case NewOp(_) => true
    case Submit(b, next, _, _) => b < |s.batches| && HasNext(s.batches[b], next) && Next(s.batches[b], next) < |s.tid|
    case ErrorReply(osd, t, _) => InSession(s, osd, t) && s.sessions[osd][t] < |s.tid| && |s.stamp| == |s.tid|
    case AgainReply(osd, t) => InSession(s, osd, t) && s.sessions[osd][t] < |s.tid|
    case FinalReply(osd, t) => InSession(s, osd, t)
    case PtReady(pt) => pt in s.retry
    case HangonSweep(_) => true
    case NodeView(_) => KeysOk(s) && TidsOk(s)
    case Reset(osd, _) => osd in s.sessions && NodeId.IsCacheNode(osd)
  }

  ghost function Apply(s: State, a: Action): State
    requires Enabled(s, a)
  {
    match a
    case NewOp(pt) =>
      s.(tid := s.tid + [0], stamp := s.stamp + [0], ptOf := s.ptOf + [pt], batches := s.batches + [Plain([|s.tid|])])
    case Submit(b, next, ptNormal, node) =>
      var op := Next(s.batches[b], next);
      OpSubmit(s.(batches := s.batches[b := Rest(s.batches[b], next)]), op, ptNormal, node)
    case ErrorReply(osd, t, pt) =>
      var op := s.sessions[osd][t];
      var queue := if pt in s.retry then s.retry[pt] else [];
      Without(s, osd, t).(tid := s.tid[op := 0], stamp := s.stamp[op := s.clock + 1], clock := s.clock + 1,
                          retry := s.retry[pt := queue + [op]])
    case AgainReply(osd, t) =>
      var op := s.sessions[osd][t];
      Without(s, osd, t).(tid := s.tid[op := 0], batches := s.batches + [Plain([op])])
    case FinalReply(osd, t) => Without(s, osd, t).(finished := s.finished + {s.sessions[osd][t]})
    case PtReady(pt) => s.(retry := s.retry - {pt}, batches := s.batches + [Fifo(pt, s.retry[pt])])
    case HangonSweep(normal) =>
      s.(hangon := Select(s, s.hangon, normal, false), batches := s.batches + [Plain(Select(s, s.hangon, normal, true))])
    case NodeView(available) =>
      var closing := Closing(s, available);
      s.(sessions := s.sessions - closing, batches := s.batches + [ByTid(NeedResend(s, closing))])
    case Reset(osd, up) =>
      // an OSD map that has this number up would make the code fall through without resubmitting
      if up then s.(sessions := s.sessions - {osd}, lost := s.lost + s.sessions[osd].Values)
      else s.(sessions := s.sessions - {osd}, batches := s.batches + [ByTid(s.sessions[osd])])
  }

  // ------------------------------------------------------------------ places

  datatype Place = Session(osd: nat) | Retry(pt: nat) | Hangon | InBatch(b: nat)

  function Elems(q: seq<OpId>): set<OpId> {
    set i | 0 <= i < |q| :: q[i]
  }

  function BatchOps(b: Batch): set<OpId> {
    if b.ByTid? then b.resend.Values else Elems(b.queue)
  }

  function At(s: State, p: Place): set<OpId> {
    match p
    case Session(osd) => if osd in s.sessions then s.sessions[osd].Values else {}
    case Retry(pt) => if pt in s.retry then Elems(s.retry[pt]) else {}
    case Hangon => Elems(s.hangon)
    case InBatch(b) => if b < |s.batches| then BatchOps(s.batches[b]) else {}
  }

  predicate NoDup(q: seq<OpId>) {
    forall i, j :: 0 <= i < j < |q| ==> q[i] != q[j]
  }

  /** A given tid belongs to one operation only; zero means none was given. */
  predicate TidsOk(s: State) {
    && (forall op: OpId :: 0 <= op < |s.tid| ==> s.tid[op] <= s.lastTid)
    && (forall i, j :: 0 <= i < j < |s.tid| && s.tid[i] != 0 ==> s.tid[i] != s.tid[j])
  }

  predicate KeyOk(s: State, t: Tid, op: OpId) {
    t != 0 && op < |s.tid| && s.tid[op] == t
  }

  ghost predicate KeysOk(s: State) {
    && (forall osd: nat, t: Tid :: InSession(s, osd, t) ==> KeyOk(s, t, s.sessions[osd][t]))
    && (forall b: nat, t: Tid :: 0 <= b < |s.batches| && s.batches[b].ByTid? && t in s.batches[b].resend ==>
          KeyOk(s, t, s.batches[b].resend[t]))
  }

  lemma SameTidSameOp(s: State)
    requires KeysOk(s) && TidsOk(s)
    ensures forall o: nat, u: nat, t: Tid :: InSession(s, o, t) && InSession(s, u, t) ==> s.sessions[o][t] == s.sessions[u][t]
  {
    forall o: nat, u: nat, t: Tid | InSession(s, o, t) && InSession(s, u, t)
      ensures s.sessions[o][t] == s.sessions[u][t]
    {
      assert KeyOk(s, t, s.sessions[o][t]) && KeyOk(s, t, s.sessions[u][t]);
    }
  }

  ghost predicate QueuesOk(s: State) {
    && (forall pt :: pt in s.retry ==> NoDup(s.retry[pt]))
    && NoDup(s.hangon)
    && (forall b :: 0 <= b < |s.batches| && !s.batches[b].ByTid? ==> NoDup(s.batches[b].queue))
  }

  /** No operation is in two places, and only unfinished ones are anywhere. */
  ghost predicate Apart(s: State) {
    && (forall op: OpId, p: Place, r: Place {:trigger op in At(s, p), op in At(s, r)} ::
          op in At(s, p) && op in At(s, r) ==> p == r)
    && (forall op: OpId, p: Place {:trigger op in At(s, p)} :: op in At(s, p) ==> op < |s.tid| && op !in s.finished && op !in s.lost)
  }

  /** Every operation neither finished nor lost is somewhere. */
  ghost predicate Covered(s: State) {
    forall op: OpId :: 0 <= op < |s.tid| && op !in s.finished && op !in s.lost ==> exists p: Place :: op in At(s, p)
  }

  ghost predicate Inv(s: State) {
    && |s.tid| == |s.stamp| == |s.ptOf|
    && (forall op: OpId :: op in s.finished || op in s.lost ==> op < |s.tid|) && s.finished !! s.lost
    && TidsOk(s) && KeysOk(s) && QueuesOk(s) && Apart(s) && Covered(s)
  }

  /** Moving a set of operations to one place keeps all of them apart and covered. */
  lemma Relocated(s: State, s': State, moved: set<OpId>, to: Place)
    requires Apart(s) && Covered(s) && |s'.tid| == |s.tid| && s'.finished == s.finished && s'.lost == s.lost
    requires forall op: OpId :: op in moved ==> exists p: Place :: op in At(s, p)
    requires forall p: Place :: p != to ==> At(s', p) == At(s, p) - moved
    requires At(s', to) == At(s, to) + moved
    ensures Apart(s') && Covered(s')
  {
    forall op: OpId | 0 <= op < |s'.tid| && op !in s'.finished && op !in s'.lost
      ensures exists p: Place :: op in At(s', p)
    {
      var p: Place :| op in At(s, p);
      if op in moved || p == to {
        assert op in At(s', to);
      } else {
        assert op in At(s', p);
      }
    }
    forall op: OpId, p: Place | op in At(s', p)
      ensures op < |s'.tid| && op !in s'.finished && op !in s'.lost
    {
      if op in moved {
        var r: Place :| op in At(s, r);
      } else {
        assert op in At(s, p);
      }
    }
    forall op: OpId, p: Place, r: Place | op in At(s', p) && op in At(s', r)
      ensures p == r
    {
      if p != to && r != to {
        assert op in At(s, p) && op in At(s, r);
      }
    }
  }

  lemma ValuesRemove(s: State, m: map<Tid, OpId>, t: Tid)
    requires t in m && forall u: Tid :: u in m ==> KeyOk(s, u, m[u])
    ensures (m - {t}).Values == m.Values - {m[t]}
  {
    var r := m - {t};
    forall op: OpId
      ensures op in r.Values <==> op in m.Values - {m[t]}
    {
      if op in m.Values - {m[t]} {
        var u: Tid :| u in m && m[u] == op;
        assert u in r && r[u] == op;
      }
    }
  }

  lemma ElemsAppend(q: seq<OpId>, op: OpId)
    ensures Elems(q + [op]) == Elems(q) + {op}
    ensures NoDup(q) && op !in Elems(q) ==> NoDup(q + [op])
  {
    forall x: OpId
      ensures x in Elems(q + [op]) <==> x in Elems(q) + {op}
    {
      if x in Elems(q) {
        var i :| 0 <= i < |q| && q[i] == x;
        assert (q + [op])[i] == x;
      }
      assert (q + [op])[|q|] == op;
    }
  }

  lemma ElemsTail(q: seq<OpId>)
    requires q != [] && NoDup(q)
    ensures Elems(q[1..]) == Elems(q) - {q[0]} && NoDup(q[1..])
  {
    forall x: OpId
      ensures x in Elems(q[1..]) <==> x in Elems(q) - {q[0]}
    {
      if x in Elems(q) - {q[0]} {
        var i :| 0 <= i < |q| && q[i] == x;
        assert q[1..][i - 1] == x;
      }
    }
  }

  lemma {:induction false} SelectSplits(s: State, q: seq<OpId>, normal: set<nat>)
    requires NoDup(q)
    ensures var yes, no := Select(s, q, normal, true), Select(s, q, normal, false);
            NoDup(yes) && NoDup(no) && Elems(yes) + Elems(no) == Elems(q) && Elems(yes) !! Elems(no)
  {
    if q != [] {
      var init, last := q[..|q| - 1], q[|q| - 1];
      SelectSplits(s, init, normal);
      assert q == init + [last];
      ElemsAppend(init, last);
      ElemsAppend(Select(s, init, normal, true), last);
      ElemsAppend(Select(s, init, normal, false), last);
      assert last !in Elems(init);
    }
  }

  /** A new operation in a place of its own leaves all of them apart ... */
  lemma NewcomerApart(s: State, s': State, op: OpId, to: Place)
    requires Apart(s) && |s'.tid| == |s.tid| + 1 && s'.finished == s.finished && s'.lost == s.lost && op == |s.tid|
    requires op !in s'.finished && op !in s'.lost && forall p: Place :: At(s', p) == if p == to then {op} else At(s, p)
    ensures Apart(s')
  {
    forall x: OpId, p: Place, r: Place | x in At(s', p) && x in At(s', r)
      ensures p == r
    {
      assert p != to ==> x in At(s, p);
      assert r != to ==> x in At(s, r);
    }
    forall x: OpId, p: Place | x in At(s', p)
      ensures x < |s'.tid| && x !in s'.finished && x !in s'.lost
    {
      assert p != to ==> x in At(s, p);
    }
  }

  /** ... and covered. */
  lemma NewcomerCovered(s: State, s': State, op: OpId, to: Place)
    requires Covered(s) && |s'.tid| == |s.tid| + 1 && s'.finished == s.finished && s'.lost == s.lost && op == |s.tid|
    requires At(s, to) == {} && forall p: Place :: At(s', p) == if p == to then {op} else At(s, p)
    ensures Covered(s')
  {
    forall x: OpId | 0 <= x < |s'.tid| && x !in s'.finished && x !in s'.lost
      ensures exists p: Place :: x in At(s', p)
    {
      if x == op {
        assert x in At(s', to);
      } else {
        var p: Place :| x in At(s, p);
        assert x in At(s', p);
      }
    }
  }

  lemma NewOpPlaces(s: State, pt: nat)
    requires Inv(s)
    ensures Apart(Apply(s, NewOp(pt))) && Covered(Apply(s, NewOp(pt)))
  {
    var s', op := Apply(s, NewOp(pt)), |s.tid|;
    var to := InBatch(|s.batches|);
    assert Elems([op]) == {op} by { assert [op][0] == op; }
    forall p: Place
      ensures At(s', p) == if p == to then {op} else At(s, p)
    {
    }
    NewcomerApart(s, s', op, to);
    NewcomerCovered(s, s', op, to);
  }

  /** A new operation has no tid and joins no session. */
  lemma NewOpKeys(s: State, pt: nat)
    requires TidsOk(s) && KeysOk(s)
    ensures TidsOk(Apply(s, NewOp(pt))) && KeysOk(Apply(s, NewOp(pt)))
  {
    var s' := Apply(s, NewOp(pt));
    forall o: nat, u: Tid | InSession(s', o, u)
      ensures KeyOk(s', u, s'.sessions[o][u])
    {
      assert InSession(s, o, u);
    }
  }

  lemma NewOpInv(s: State, pt: nat)
    requires Inv(s)
    ensures Inv(Apply(s, NewOp(pt)))
  {
    NewOpPlaces(s, pt);
    NewOpKeys(s, pt);
  }

  // ------------------------------------------------------------------ resubmission

  lemma PopBatch(s: State, b: nat, next: Tid)
    requires Inv(s) && b < |s.batches| && HasNext(s.batches[b], next)
    ensures var op, rest := Next(s.batches[b], next), Rest(s.batches[b], next);
            && op in BatchOps(s.batches[b]) && op in At(s, InBatch(b))
            && BatchOps(rest) == BatchOps(s.batches[b]) - {op}
            && (!rest.ByTid? ==> NoDup(rest.queue))
            && (rest.ByTid? ==> forall t: Tid :: t in rest.resend ==> KeyOk(s, t, rest.resend[t]))
  {
    var batch := s.batches[b];
    if batch.ByTid? {
      ValuesRemove(s, batch.resend, next);
    } else {
      ElemsTail(batch.queue);
    }
    assert At(s, InBatch(b)) == BatchOps(batch);
  }

  lemma HangInv(s: State, b: nat, next: Tid, node: nat)
    requires Inv(s) && Enabled(s, Submit(b, next, false, node))
    ensures Inv(Apply(s, Submit(b, next, false, node)))
  {
    var s', op := Apply(s, Submit(b, next, false, node)), Next(s.batches[b], next);
    PopBatch(s, b, next);
    assert op !in At(s, Hangon);
    ElemsAppend(s.hangon, op);
    forall p: Place
      ensures p != Hangon ==> At(s', p) == At(s, p) - {op}
    {
      if p != InBatch(b) {
        assert op !in At(s, p);
      }
    }
    Relocated(s, s', {op}, Hangon);
  }

  /** Giving an operation without a tid the next number disturbs no key. */
  lemma AssignTid(s: State, op: OpId)
    requires TidsOk(s) && KeysOk(s) && op < |s.tid| && s.tid[op] == 0
    ensures var s' := s.(lastTid := s.lastTid + 1, tid := s.tid[op := s.lastTid + 1]);
            TidsOk(s') && KeysOk(s')
  {
  }

  lemma FreshKey(s: State, op: OpId, node: nat, b: nat)
    requires TidsOk(s) && KeysOk(s) && Apart(s) && op in At(s, InBatch(b)) && op < |s.tid| && s.tid[op] != 0
    ensures !InSession(s, node, s.tid[op])
  {
    assert InSession(s, node, s.tid[op]) ==> s.sessions[node][s.tid[op]] in At(s, Session(node));
  }

  lemma ValuesInsert(m: map<Tid, OpId>, t: Tid, op: OpId)
    requires t !in m
    ensures m[t := op].Values == m.Values + {op}
  {
    var r := m[t := op];
    forall x: OpId
      ensures x in r.Values <==> x in m.Values + {op}
    {
      if x in m.Values {
        var u: Tid :| u in m && m[u] == x;
        assert u in r && r[u] == x;
      }
      assert t in r && r[t] == op;
    }
  }

  lemma SendPlaces(s: State, b: nat, next: Tid, node: nat)
    requires Inv(s) && Enabled(s, Submit(b, next, true, node))
    requires s.tid[Next(s.batches[b], next)] != 0
    ensures var s', op := Apply(s, Submit(b, next, true, node)), Next(s.batches[b], next);
            && (forall p: Place :: p != Session(node) ==> At(s', p) == At(s, p) - {op})
            && At(s', Session(node)) == At(s, Session(node)) + {op}
  {
    var s', op := Apply(s, Submit(b, next, true, node)), Next(s.batches[b], next);
    PopBatch(s, b, next);
    FreshKey(s, op, node, b);
    ValuesInsert(if node in s.sessions then s.sessions[node] else map[], s.tid[op], op);
    forall p: Place
      ensures p != Session(node) ==> At(s', p) == At(s, p) - {op}
    {
      if p != InBatch(b) {
        assert op !in At(s, p);
      }
    }
  }

  lemma SendKeys(s: State, b: nat, next: Tid, node: nat)
    requires Inv(s) && Enabled(s, Submit(b, next, true, node))
    requires s.tid[Next(s.batches[b], next)] != 0
    ensures KeysOk(Apply(s, Submit(b, next, true, node)))
    ensures QueuesOk(Apply(s, Submit(b, next, true, node)))
  {
    var s', op := Apply(s, Submit(b, next, true, node)), Next(s.batches[b], next);
    PopBatch(s, b, next);
    forall o: nat, u: Tid | InSession(s', o, u)
      ensures KeyOk(s', u, s'.sessions[o][u])
    {
      assert (o == node && u == s.tid[op]) || InSession(s, o, u);
    }
  }

  lemma SendInv(s: State, b: nat, next: Tid, node: nat)
    requires Inv(s) && Enabled(s, Submit(b, next, true, node))
    requires s.tid[Next(s.batches[b], next)] != 0
    ensures Inv(Apply(s, Submit(b, next, true, node)))
  {
    var s', op := Apply(s, Submit(b, next, true, node)), Next(s.batches[b], next);
    PopBatch(s, b, next);
    SendPlaces(s, b, next, node);
    SendKeys(s, b, next, node);
    Relocated(s, s', {op}, Session(node));
  }

  function Numbered(s: State, op: OpId): State
    requires op < |s.tid|
  {
    s.(lastTid := s.lastTid + 1, tid := s.tid[op := s.lastTid + 1])
  }

  lemma NumberedInv(s: State, op: OpId)
    requires Inv(s) && op < |s.tid| && s.tid[op] == 0
    ensures Inv(Numbered(s, op)) && forall p: Place :: At(Numbered(s, op), p) == At(s, p)
  {
    var given := Numbered(s, op);
    AssignTid(s, op);
    assert forall p: Place :: At(given, p) == At(s, p);
    forall x: OpId | 0 <= x < |given.tid| && x !in given.finished && x !in given.lost
      ensures exists p: Place :: x in At(given, p)
    {
      var p: Place :| x in At(s, p);
      assert x in At(given, p);
    }
  }

  lemma SubmitInv(s: State, a: Action)
    requires Inv(s) && a.Submit? && Enabled(s, a)
    ensures Inv(Apply(s, a))
  {
    var op := Next(s.batches[a.b], a.next);
    if !a.ptNormal {
      HangInv(s, a.b, a.next, a.node);
    } else if s.tid[op] != 0 {
      SendInv(s, a.b, a.next, a.node);
    } else {
      NumberedInv(s, op);
      SendInv(Numbered(s, op), a.b, a.next, a.node);
      assert Apply(Numbered(s, op), a) == Apply(s, a);
    }
  }

  // ------------------------------------------------------------------ replies and bulk moves

  lemma TakeFromSession(s: State, osd: nat, t: Tid)
    requires Inv(s) && InSession(s, osd, t)
    ensures var op := s.sessions[osd][t];
            && op in At(s, Session(osd)) && op < |s.tid|
            && (forall p: Place :: At(Without(s, osd, t), p) == At(s, p) - {op})
  {
    var op := s.sessions[osd][t];
    assert InSession(s, osd, t);
    assert forall u: Tid :: u in s.sessions[osd] ==> InSession(s, osd, u);
    ValuesRemove(s, s.sessions[osd], t);
    forall p: Place
      ensures At(Without(s, osd, t), p) == At(s, p) - {op}
    {
      if p != Session(osd) {
        assert op in At(s, Session(osd));
        assert op !in At(s, p);
      }
    }
  }

  /** Once its operation has left the session, clearing a tid leaves every other key alone. */
  lemma ClearTid(s: State, osd: nat, t: Tid)
    requires Inv(s) && InSession(s, osd, t) && s.sessions[osd][t] < |s.tid|
    ensures var s' := Without(s, osd, t).(tid := s.tid[s.sessions[osd][t] := 0]);
            TidsOk(s') && KeysOk(s')
  {
    var op := s.sessions[osd][t];
    var s' := Without(s, osd, t).(tid := s.tid[op := 0]);
    assert op in At(s, Session(osd));
    forall o: nat, u: Tid | InSession(s', o, u)
      ensures KeyOk(s', u, s'.sessions[o][u])
    {
      assert InSession(s, o, u) && s'.sessions[o][u] == s.sessions[o][u];
      assert InSession(s, osd, t);
      assert s.sessions[o][u] in At(s, Session(o));
    }
    forall b: nat, u: Tid | 0 <= b < |s'.batches| && s'.batches[b].ByTid? && u in s'.batches[b].resend
      ensures KeyOk(s', u, s'.batches[b].resend[u])
    {
      assert s'.batches[b] == s.batches[b];
      assert s.batches[b].resend[u] in At(s, InBatch(b));
    }
  }

  /** A reply that requeues its operation clears its tid; only the sessions and batches matter for the keys. */
  lemma RequeuedKeys(s: State, osd: nat, t: Tid, s': State)
    requires Inv(s) && InSession(s, osd, t) && s.sessions[osd][t] < |s.tid|
    requires s'.tid == s.tid[s.sessions[osd][t] := 0] && s'.lastTid == s.lastTid && s'.sessions == Without(s, osd, t).sessions
    requires s.batches <= s'.batches && forall b: nat :: |s.batches| <= b < |s'.batches| ==> !s'.batches[b].ByTid?
    ensures TidsOk(s') && KeysOk(s')
  {
    ClearTid(s, osd, t);
    var cleared := Without(s, osd, t).(tid := s'.tid);
    forall o: nat, u: Tid | InSession(s', o, u)
      ensures KeyOk(s', u, s'.sessions[o][u])
    {
      assert InSession(cleared, o, u);
    }
    forall b: nat, u: Tid | b < |s'.batches| && s'.batches[b].ByTid? && u in s'.batches[b].resend
      ensures KeyOk(s', u, s'.batches[b].resend[u])
    {
      assert cleared.batches[b] == s'.batches[b];
    }
  }

  lemma ErrorReplyPlaces(s: State, osd: nat, t: Tid, pt: nat)
    requires Inv(s) && Enabled(s, ErrorReply(osd, t, pt))
    ensures Apart(Apply(s, ErrorReply(osd, t, pt))) && Covered(Apply(s, ErrorReply(osd, t, pt)))
    ensures s.sessions[osd][t] !in At(s, Retry(pt))
  {
    var s', op := Apply(s, ErrorReply(osd, t, pt)), s.sessions[osd][t];
    TakeFromSession(s, osd, t);
    ElemsAppend(if pt in s.retry then s.retry[pt] else [], op);
    var mid := Without(s, osd, t);
    assert op !in At(s, Retry(pt));
    forall p: Place
      ensures p != Retry(pt) ==> At(s', p) == At(s, p) - {op}
      ensures p == Retry(pt) ==> At(s', p) == At(s, p) + {op}
    {
      assert p != Retry(pt) ==> At(s', p) == At(mid, p);
    }
    Relocated(s, s', {op}, Retry(pt));
  }

  lemma ErrorReplyInv(s: State, osd: nat, t: Tid, pt: nat)
    requires Inv(s) && Enabled(s, ErrorReply(osd, t, pt))
    ensures Inv(Apply(s, ErrorReply(osd, t, pt)))
  {
    ErrorReplyPlaces(s, osd, t, pt);
    RequeuedKeys(s, osd, t, Apply(s, ErrorReply(osd, t, pt)));
    ElemsAppend(if pt in s.retry then s.retry[pt] else [], s.sessions[osd][t]);
  }

  lemma AgainReplyPlaces(s: State, osd: nat, t: Tid)
    requires Inv(s) && Enabled(s, AgainReply(osd, t))
    ensures Apart(Apply(s, AgainReply(osd, t))) && Covered(Apply(s, AgainReply(osd, t)))
  {
    var s', op := Apply(s, AgainReply(osd, t)), s.sessions[osd][t];
    TakeFromSession(s, osd, t);
    assert Elems([op]) == {op} by { assert [op][0] == op; }
    var mid, to := Without(s, osd, t), InBatch(|s.batches|);
    forall p: Place
      ensures p != to ==> At(s', p) == At(s, p) - {op}
    {
      assert p != to ==> At(s', p) == At(mid, p);
    }
    Relocated(s, s', {op}, to);
  }

  lemma AgainReplyInv(s: State, osd: nat, t: Tid)
    requires Inv(s) && Enabled(s, AgainReply(osd, t))
    ensures Inv(Apply(s, AgainReply(osd, t)))
  {
    AgainReplyPlaces(s, osd, t);
    RequeuedKeys(s, osd, t, Apply(s, AgainReply(osd, t)));
  }

  lemma FinalReplyInv(s: State, osd: nat, t: Tid)
    requires Inv(s) && Enabled(s, FinalReply(osd, t))
    ensures Inv(Apply(s, FinalReply(osd, t)))
  {
    var s', op := Apply(s, FinalReply(osd, t)), s.sessions[osd][t];
    TakeFromSession(s, osd, t);
    var mid := Without(s, osd, t);
    assert forall p: Place :: At(s', p) == At(mid, p);
    forall x: OpId | 0 <= x < |s'.tid| && x !in s'.finished && x !in s'.lost
      ensures exists p: Place :: x in At(s', p)
    {
      var p: Place :| x in At(s, p);
      assert x in At(s', p);
    }
    assert KeysOk(s') by {
      forall o: nat, u: Tid | InSession(s', o, u)
        ensures KeyOk(s', u, s'.sessions[o][u])
      {
        assert InSession(s, o, u);
      }
    }
  }

  lemma PtReadyInv(s: State, pt: nat)
    requires Inv(s) && pt in s.retry
    ensures Inv(Apply(s, PtReady(pt)))
  {
    var s', to := Apply(s, PtReady(pt)), InBatch(|s.batches|);
    var moved := At(s, Retry(pt));
    forall p: Place
      ensures p != to ==> At(s', p) == At(s, p) - moved
    {
      if p != Retry(pt) {
        assert At(s, p) !! moved;
      }
    }
    Relocated(s, s', moved, to);
  }

  lemma HangonSweepInv(s: State, normal: set<nat>)
    requires Inv(s)
    ensures Inv(Apply(s, HangonSweep(normal)))
  {
    var s', to := Apply(s, HangonSweep(normal)), InBatch(|s.batches|);
    SelectSplits(s, s.hangon, normal);
    var moved := Elems(Select(s, s.hangon, normal, true));
    assert moved <= At(s, Hangon);
    forall p: Place
      ensures p != to ==> At(s', p) == At(s, p) - moved
    {
      if p != Hangon {
        assert At(s, p) !! At(s, Hangon);
      }
    }
    Relocated(s, s', moved, to);
  }

  /** The resend map holds exactly the operations of the closing sessions, none overwritten. */
  lemma ResendIsAll(s: State, closing: set<nat>)
    requires Inv(s) && closing <= s.sessions.Keys
    ensures forall t: Tid :: t in NeedResend(s, closing) ==> KeyOk(s, t, NeedResend(s, closing)[t])
    ensures forall op: OpId :: op in NeedResend(s, closing).Values <==>
              exists osd: nat :: osd in closing && op in At(s, Session(osd))
  {
    var resend := NeedResend(s, closing);
    forall op: OpId | op in resend.Values
      ensures exists osd: nat :: osd in closing && op in At(s, Session(osd))
    {
      var t: Tid :| t in resend && resend[t] == op;
      var osd: nat :| osd in closing && InSession(s, osd, t) && s.sessions[osd][t] == op;
      assert op in At(s, Session(osd));
    }
    forall op: OpId, osd: nat | osd in closing && op in At(s, Session(osd))
      ensures op in resend.Values
    {
      var t: Tid :| t in s.sessions[osd] && s.sessions[osd][t] == op;
      assert InSession(s, osd, t);
      SameTidSameOp(s);
      assert t in resend && resend[t] == op;
    }
  }

  lemma ClosedPlaces(s: State, closing: set<nat>, moved: set<OpId>, s': State)
    requires Inv(s) && closing <= s.sessions.Keys && s'.sessions == s.sessions - closing
    requires s'.retry == s.retry && s'.hangon == s.hangon && s.batches <= s'.batches
    requires forall op: OpId :: op in moved <==> exists osd: nat :: osd in closing && op in At(s, Session(osd))
    ensures forall p: Place :: p != InBatch(|s.batches|) && (p.InBatch? ==> p.b < |s.batches|) ==> At(s', p) == At(s, p) - moved
  {
    forall p: Place | p != InBatch(|s.batches|) && (p.InBatch? ==> p.b < |s.batches|)
      ensures At(s', p) == At(s, p) - moved
    {
      if p.Session? && p.osd in closing {
        assert At(s', p) == {};
        assert forall op: OpId :: op in At(s, p) ==> op in moved;
      } else {
        assert At(s', p) == At(s, p);
        assert forall op: OpId :: op in At(s, p) ==> op !in moved;
      }
    }
  }

  lemma CloseKeys(s: State, closing: set<nat>, resend: map<Tid, OpId>, s': State)
    requires KeysOk(s) && QueuesOk(s) && forall t: Tid :: t in resend ==> KeyOk(s, t, resend[t])
    requires s' == s.(sessions := s.sessions - closing, batches := s.batches + [ByTid(resend)])
    ensures KeysOk(s') && QueuesOk(s')
  {
    assert forall o: nat, u: Tid :: InSession(s', o, u) ==> InSession(s, o, u);
  }

  lemma CloseInv(s: State, closing: set<nat>, resend: map<Tid, OpId>, s': State)
    requires Inv(s) && closing <= s.sessions.Keys
    requires forall t: Tid :: t in resend ==> KeyOk(s, t, resend[t])
    requires forall op: OpId :: op in resend.Values <==> exists osd: nat :: osd in closing && op in At(s, Session(osd))
    requires s' == s.(sessions := s.sessions - closing, batches := s.batches + [ByTid(resend)])
    ensures Inv(s')
  {
    CloseKeys(s, closing, resend, s');
    CloseApart(s, closing, resend.Values, s');
  }

  lemma CloseApart(s: State, closing: set<nat>, moved: set<OpId>, s': State)
    requires Inv(s) && closing <= s.sessions.Keys && s'.sessions == s.sessions - closing
    requires s'.retry == s.retry && s'.hangon == s.hangon && s'.tid == s.tid && s'.finished == s.finished && s'.lost == s.lost
    requires |s'.batches| == |s.batches| + 1 && s.batches <= s'.batches && BatchOps(s'.batches[|s.batches|]) == moved
    requires forall op: OpId :: op in moved <==> exists osd: nat :: osd in closing && op in At(s, Session(osd))
    ensures Apart(s') && Covered(s')
  {
    ClosedPlaces(s, closing, moved, s');
    forall op: OpId | op in moved
      ensures exists p: Place :: op in At(s, p)
    {
      var osd: nat :| osd in closing && op in At(s, Session(osd));
    }
    forall p: Place
      ensures p != InBatch(|s.batches|) ==> At(s', p) == At(s, p) - moved
    {
    }
    assert At(s', InBatch(|s.batches|)) == moved;
    Relocated(s, s', moved, InBatch(|s.batches|));
  }

  lemma NodeViewInv(s: State, available: set<nat>)
    requires Inv(s)
    ensures Inv(Apply(s, NodeView(available)))
  {
    var closing := Closing(s, available);
    ResendIsAll(s, closing);
    CloseInv(s, closing, NeedResend(s, closing), Apply(s, NodeView(available)));
  }

  lemma ResetInv(s: State, osd: nat)
    requires Inv(s) && Enabled(s, Reset(osd, false))
    ensures Inv(Apply(s, Reset(osd, false)))
  {
    forall t: Tid | t in s.sessions[osd]
      ensures KeyOk(s, t, s.sessions[osd][t])
    {
      assert InSession(s, osd, t);
    }
    assert At(s, Session(osd)) == s.sessions[osd].Values;
    CloseInv(s, {osd}, s.sessions[osd], Apply(s, Reset(osd, false)));
  }

  /** A reset of a node that is up drops the session with all it holds. */
  lemma DropInv(s: State, osd: nat)
    requires Inv(s) && Enabled(s, Reset(osd, true))
    ensures Inv(Apply(s, Reset(osd, true)))
  {
    var s', gone := Apply(s, Reset(osd, true)), s.sessions[osd].Values;
    assert At(s, Session(osd)) == gone;
    forall p: Place
      ensures At(s', p) == At(s, p) - gone
    {
      assert p != Session(osd) ==> At(s, p) !! gone;
    }
    assert KeysOk(s') by {
      assert forall o: nat, t: Tid :: InSession(s', o, t) ==> InSession(s, o, t);
    }
    forall op: OpId | 0 <= op < |s'.tid| && op !in s'.finished && op !in s'.lost
      ensures exists p: Place :: op in At(s', p)
    {
      var p: Place :| op in At(s, p);
      assert op in At(s', p);
    }
  }

  /** Every step keeps every operation in at most one place, and in one unless it is finished or lost. */
  lemma StepInv(s: State, a: Action)
    requires Inv(s) && Enabled(s, a)
    ensures Inv(Apply(s, a))
  {
    match a
    case NewOp(pt) => NewOpInv(s, pt);
    case Submit(_, _, _, _) => SubmitInv(s, a);
    case ErrorReply(osd, t, pt) => ErrorReplyInv(s, osd, t, pt);
    case AgainReply(osd, t) => AgainReplyInv(s, osd, t);
    case FinalReply(osd, t) => FinalReplyInv(s, osd, t);
    case PtReady(pt) => PtReadyInv(s, pt);
    case HangonSweep(normal) => HangonSweepInv(s, normal);
    case NodeView(available) => NodeViewInv(s, available);
    case Reset(osd, up) =>
      if up {
        DropInv(s, osd);
      } else {
        ResetInv(s, osd);
      }
  }

  lemma SelectAppend(s: State, q: seq<OpId>, op: OpId, normal: set<nat>, want: bool)
    ensures Select(s, q + [op], normal, want) ==
            if (op < |s.ptOf| && s.ptOf[op] in normal) == want then Select(s, q, normal, want) + [op]
            else Select(s, q, normal, want)
  {
    assert (q + [op])[..|q|] == q;
  }

  predicate Wanted(s: State, op: OpId, normal: set<nat>, want: bool) {
    want == (op < |s.ptOf| && s.ptOf[op] in normal)
  }

  /** A selection has the wanted members of the list and no other ... */
  lemma {:induction false} SelectMembers(s: State, q: seq<OpId>, normal: set<nat>, want: bool)
    ensures forall op :: op in Select(s, q, normal, want) <==> op in q && Wanted(s, op, normal, want)
  {
    if q != [] {
      SelectMembers(s, q[..|q| - 1], normal, want);
      assert q == q[..|q| - 1] + [q[|q| - 1]];
    }
  }

  /** ... in the order of the list: `at` are their positions. */
  lemma {:induction false} SelectInOrder(s: State, q: seq<OpId>, normal: set<nat>, want: bool) returns (at: seq<nat>)
    ensures |at| == |Select(s, q, normal, want)| && forall i, j :: 0 <= i < j < |at| ==> at[i] < at[j]
    ensures forall i :: 0 <= i < |at| ==> at[i] < |q| && Select(s, q, normal, want)[i] == q[at[i]]
    ensures forall n :: 0 <= n < |q| ==> (n in at <==> Wanted(s, q[n], normal, want))
  {
    at := [];
    if q != [] {
      var n := |q| - 1;
      at := SelectInOrder(s, q[..n], normal, want);
      if Wanted(s, q[n], normal, want) {
        at := at + [n];
      }
    }
  }

  /** After a sweep no operation whose PT is normal hangs on, and the new batch holds those and no other. */
  lemma SweepSelects(s: State, normal: set<nat>, op: OpId)
    ensures var s' := Apply(s, HangonSweep(normal));
            && (op in s'.hangon <==> op in s.hangon && Wanted(s, op, normal, false))
            && |s'.batches| == |s.batches| + 1 && s.batches <= s'.batches && s'.batches[|s.batches|].Plain?
            && (op in s'.batches[|s.batches|].queue <==> op in s.hangon && Wanted(s, op, normal, true))
  {
    SelectMembers(s, s.hangon, normal, true);
    SelectMembers(s, s.hangon, normal, false);
  }

  /** The sweep of the hang-on list: the loop erases in place and does not advance over what slid into the gap. */
  method SweepHangon(ghost s: State, ptOf: seq<nat>, list: seq<OpId>, normal: set<nat>)
    returns (left: seq<OpId>, queue: seq<OpId>)
    requires s.ptOf == ptOf && forall i :: 0 <= i < |list| ==> list[i] < |ptOf|
    ensures left == Select(s, list, normal, false) && queue == Select(s, list, normal, true)
    ensures forall op :: op in left <==> op in list && ptOf[op] !in normal
    ensures forall op :: op in queue <==> op in list && ptOf[op] in normal
    ensures s.hangon == list ==>
      var s' := Apply(s, HangonSweep(normal)); s'.hangon == left && s'.batches == s.batches + [Plain(queue)]
  {
    left, queue := list, [];
    var i := 0;
    ghost var n := 0;
    while i < |left|
      invariant 0 <= i <= |left| && 0 <= n <= |list|
      invariant left[..i] == Select(s, list[..n], normal, false) && left[i..] == list[n..]
      invariant queue == Select(s, list[..n], normal, true)
      decreases |left| - i
    {
      var op := left[i];
      assert op == left[i..][0] == list[n];
      assert left[i..][1..] == left[i + 1..] && list[n..][1..] == list[n + 1..];
      assert list[..n + 1] == list[..n] + [op];
      SelectAppend(s, list[..n], op, normal, true);
      SelectAppend(s, list[..n], op, normal, false);
      if ptOf[op] in normal {
        queue := queue + [op];
        left := left[..i] + left[i + 1..];
      } else {
        assert left[..i + 1] == left[..i] + [op];
        i := i + 1;
      }
      n := n + 1;
    }
    assert list[n..] == [];
    assert list[..n] == list && left[..i] == left;
    SelectMembers(s, list, normal, true);
    SelectMembers(s, list, normal, false);
  }

  // ------------------------------------------------------------------ order within a PT

  predicate Ascending(stamp: seq<nat>, q: seq<OpId>) {
    && (forall i :: 0 <= i < |q| ==> q[i] < |stamp|)
    && (forall i, j :: 0 <= i < j < |q| ==> stamp[q[i]] < stamp[q[j]])
  }

  /**
    `stamp` numbers the retryable errors.  Every retry queue, and every batch taken from one,
    is in the order of those errors, and a batch is older than all that queued up for its PT
    after it was taken.
   */
  ghost predicate InOrder(s: State) {
    Clocked(s) && QueuesAscend(s) && BatchesAscend(s) && BatchesOlder(s)
  }

  ghost predicate Clocked(s: State) {
    forall op: OpId :: op < |s.stamp| ==> s.stamp[op] <= s.clock
  }

  ghost predicate QueuesAscend(s: State) {
    forall pt: nat :: pt in s.retry ==> Ascending(s.stamp, s.retry[pt])
  }

  ghost predicate BatchesAscend(s: State) {
    forall b: nat :: b < |s.batches| && s.batches[b].Fifo? ==> Ascending(s.stamp, s.batches[b].queue)
  }

  ghost predicate BatchesOlder(s: State)
    requires QueuesAscend(s) && BatchesAscend(s)
  {
    forall b: nat, i: nat, j: nat ::
      b < |s.batches| && s.batches[b].Fifo? && s.batches[b].pt in s.retry
      && i < |s.batches[b].queue| && j < |s.retry[s.batches[b].pt]| ==>
        s.stamp[s.batches[b].queue[i]] < s.stamp[s.retry[s.batches[b].pt][j]]
  }

  /** An operation that waits for a reply is in no retry queue and in no batch. */
  lemma NotQueued(s: State, osd: nat, t: Tid)
    requires Inv(s) && InSession(s, osd, t)
    ensures forall k: nat :: k in s.retry ==> s.sessions[osd][t] !in s.retry[k]
    ensures forall b: nat :: b < |s.batches| && s.batches[b].Fifo? ==> s.sessions[osd][t] !in s.batches[b].queue
  {
    var op := s.sessions[osd][t];
    assert op in At(s, Session(osd));
    forall k: nat | k in s.retry
      ensures op !in s.retry[k]
    {
      assert op !in At(s, Retry(k));
    }
    forall b: nat | b < |s.batches| && s.batches[b].Fifo?
      ensures op !in s.batches[b].queue
    {
      assert op !in At(s, InBatch(b));
    }
  }

  /** A new stamp on an operation outside a queue leaves the queue ascending, and it may join at the end. */
  lemma RestampedQueue(stamp: seq<nat>, q: seq<OpId>, op: OpId, now: nat)
    requires Ascending(stamp, q) && op < |stamp| && op !in q
    requires forall x: OpId :: x < |stamp| ==> stamp[x] < now
    ensures Ascending(stamp[op := now], q) && Ascending(stamp[op := now], q + [op])
  {
  }

  /** `s'` is `s` with `op`, which is in no queue of `s`, stamped anew and queued for `pt`. */
  ghost predicate Requeued(s: State, s': State, pt: nat, op: OpId) {
    && op < |s.stamp| && s'.stamp == s.stamp[op := s.clock + 1] && s'.clock == s.clock + 1 && s'.batches == s.batches
    && s'.retry == s.retry[pt := (if pt in s.retry then s.retry[pt] else []) + [op]]
    && (forall b: nat :: b < |s.batches| && s.batches[b].Fifo? ==> op !in s.batches[b].queue)
    && (forall k: nat :: k in s.retry ==> op !in s.retry[k])
  }

  lemma RequeuedQueue(s: State, s': State, pt: nat, op: OpId, k: nat)
    requires Clocked(s) && QueuesAscend(s) && Requeued(s, s', pt, op) && k in s'.retry
    ensures Ascending(s'.stamp, s'.retry[k])
  {
    var q := if k in s.retry then s.retry[k] else [];
    assert s'.retry[k] == if k == pt then q + [op] else q;
    RestampedQueue(s.stamp, q, op, s.clock + 1);
  }

  lemma RequeuedQueues(s: State, s': State, pt: nat, op: OpId)
    requires Clocked(s) && QueuesAscend(s) && Requeued(s, s', pt, op)
    ensures QueuesAscend(s')
  {
    forall k: nat | k in s'.retry
      ensures Ascending(s'.stamp, s'.retry[k])
    {
      RequeuedQueue(s, s', pt, op, k);
    }
  }

  lemma RequeuedBatches(s: State, s': State, pt: nat, op: OpId)
    requires Clocked(s) && BatchesAscend(s) && Requeued(s, s', pt, op)
    ensures BatchesAscend(s')
  {
    forall b: nat | b < |s'.batches| && s'.batches[b].Fifo?
      ensures Ascending(s'.stamp, s'.batches[b].queue)
    {
      RestampedQueue(s.stamp, s.batches[b].queue, op, s.clock + 1);
    }
  }

  /** An older entry `q[i]` stays older than the queue `r` that `op` joins with the newest stamp. */
  lemma RestampedOlder(stamp: seq<nat>, q: seq<OpId>, r: seq<OpId>, op: OpId, now: nat, i: nat, j: nat)
    requires i < |q| && j <= |r| && op < |stamp| && q[i] < |stamp| && stamp[q[i]] < now && op !in q
    requires j < |r| ==> r[j] < |stamp| && r[j] != op && stamp[q[i]] < stamp[r[j]]
    ensures stamp[op := now][q[i]] < stamp[op := now][(r + [op])[j]]
  {
    assert q[i] in q;
  }

  lemma RequeuedEntry(s: State, s': State, pt: nat, op: OpId, b: nat, i: nat, j: nat)
    requires InOrder(s) && Requeued(s, s', pt, op) && QueuesAscend(s') && BatchesAscend(s')
    requires b < |s.batches| && s.batches[b].Fifo? && s.batches[b].pt in s'.retry
    requires i < |s.batches[b].queue| && j < |s'.retry[s.batches[b].pt]|
    ensures s'.stamp[s.batches[b].queue[i]] < s'.stamp[s'.retry[s.batches[b].pt][j]]
  {
    var q, k := s.batches[b].queue, s.batches[b].pt;
    var r := if k in s.retry then s.retry[k] else [];
    assert s'.retry[k] == if k == pt then r + [op] else r;
    assert Ascending(s.stamp, q) && (j < |r| ==> Ascending(s.stamp, r) && r[j] != op);
    RestampedOlder(s.stamp, q, r, op, s.clock + 1, i, j);
  }

  lemma RequeuedOlder(s: State, s': State, pt: nat, op: OpId)
    requires InOrder(s) && Requeued(s, s', pt, op) && QueuesAscend(s') && BatchesAscend(s')
    ensures BatchesOlder(s')
  {
    forall b: nat, i: nat, j: nat |
      b < |s'.batches| && s'.batches[b].Fifo? && s'.batches[b].pt in s'.retry
      && i < |s'.batches[b].queue| && j < |s'.retry[s'.batches[b].pt]|
      ensures s'.stamp[s'.batches[b].queue[i]] < s'.stamp[s'.retry[s'.batches[b].pt][j]]
    {
      RequeuedEntry(s, s', pt, op, b, i, j);
    }
  }

  lemma RequeuedOrder(s: State, s': State, pt: nat, op: OpId)
    requires InOrder(s) && Requeued(s, s', pt, op)
    ensures InOrder(s')
  {
    RequeuedQueues(s, s', pt, op);
    RequeuedBatches(s, s', pt, op);
    RequeuedOlder(s, s', pt, op);
  }

  /** An error reply gives its operation the newest stamp of all. */
  lemma ErrorIsNewest(s: State, a: Action, x: OpId)
    requires InOrder(s) && Enabled(s, a) && a.ErrorReply? && x < |s.stamp| && x != s.sessions[a.osd][a.t]
    ensures Apply(s, a).stamp[x] < Apply(s, a).stamp[s.sessions[a.osd][a.t]]
  {
  }

  lemma ErrorReplyOrder(s: State, osd: nat, t: Tid, pt: nat)
    requires Inv(s) && InOrder(s) && Enabled(s, ErrorReply(osd, t, pt))
    ensures InOrder(Apply(s, ErrorReply(osd, t, pt)))
  {
    NotQueued(s, osd, t);
    RequeuedOrder(s, Apply(s, ErrorReply(osd, t, pt)), pt, s.sessions[osd][t]);
  }

  lemma SubmitOrder(s: State, a: Action)
    requires Inv(s) && InOrder(s) && a.Submit? && Enabled(s, a)
    ensures InOrder(Apply(s, a))
  {
    var s' := Apply(s, a);
    assert s'.retry == s.retry && s'.stamp == s.stamp && s'.clock == s.clock;
    assert s'.batches == s.batches[a.b := Rest(s.batches[a.b], a.next)];
    if s.batches[a.b].Fifo? {
      assert forall i :: 0 <= i < |s'.batches[a.b].queue| ==> s'.batches[a.b].queue[i] == s.batches[a.b].queue[i + 1];
    }
  }

  lemma NewBatchOrder(s: State, s': State)
    requires InOrder(s) && s'.stamp == s.stamp && s'.clock == s.clock && s'.retry == s.retry
    requires s.batches <= s'.batches && forall b: nat :: |s.batches| <= b < |s'.batches| ==> !s'.batches[b].Fifo?
    ensures InOrder(s')
  {
    assert forall b: nat :: b < |s'.batches| && s'.batches[b].Fifo? ==> b < |s.batches| && s'.batches[b] == s.batches[b];
  }

  lemma StepOrder(s: State, a: Action)
    requires Inv(s) && InOrder(s) && Enabled(s, a)
    ensures InOrder(Apply(s, a))
  {
    match a
    case NewOp(pt) =>
      var grown := s.(stamp := s.stamp + [0]);
      assert InOrder(grown);
      NewBatchOrder(grown, Apply(s, a));
    case Submit(_, _, _, _) => SubmitOrder(s, a);
    case ErrorReply(osd, t, pt) => ErrorReplyOrder(s, osd, t, pt);
    case PtReady(pt) => PtReadyOrder(s, pt);
    case _ => NewBatchOrder(s, Apply(s, a));
  }

  lemma PtReadyOrder(s: State, pt: nat)
    requires InOrder(s) && pt in s.retry
    ensures InOrder(Apply(s, PtReady(pt)))
  {
    var s' := Apply(s, PtReady(pt));
    assert forall b: nat :: b < |s.batches| ==> s'.batches[b] == s.batches[b];
  }

  // ------------------------------------------------------------------ where a step takes an operation

  /** The place of operation `op` after a step, from its place before; `None` when it leaves the client. */
  ghost function Goes(s: State, a: Action, op: OpId, p: Place): Option<Place> {
    var newest := InBatch(|s.batches|);
    match a
    case NewOp(_) => Some(p)
    case Submit(b, next, ptNormal, node) =>
      if p == InBatch(b) && b < |s.batches| && HasNext(s.batches[b], next) && Next(s.batches[b], next) == op then
        Some(if ptNormal then Session(node) else Hangon)
      else Some(p)
    case ErrorReply(osd, t, pt) => if p == Session(osd) && HasTid(s, op, t) then Some(Retry(pt)) else Some(p)
    case AgainReply(osd, t) => if p == Session(osd) && HasTid(s, op, t) then Some(newest) else Some(p)
    case FinalReply(osd, t) => if p == Session(osd) && HasTid(s, op, t) then None else Some(p)
    case PtReady(pt) => if p == Retry(pt) then Some(newest) else Some(p)
    case HangonSweep(normal) => if p == Hangon && Wanted(s, op, normal, true) then Some(newest) else Some(p)
    case NodeView(available) => if p.Session? && NodeId.Closes(p.osd, available) then Some(newest) else Some(p)
    case Reset(osd, up) => if p != Session(osd) then Some(p) else if up then None else Some(newest)
  }

  predicate HasTid(s: State, op: OpId, t: Tid) { op < |s.tid| && s.tid[op] == t }

  datatype Option<T> = None | Some(value: T)

  lemma SessionOf(s: State, osd: nat, op: OpId) returns (t: Tid)
    requires Inv(s) && op in At(s, Session(osd))
    ensures InSession(s, osd, t) && s.sessions[osd][t] == op && HasTid(s, op, t)
  {
    t :| t in s.sessions[osd] && s.sessions[osd][t] == op;
    assert InSession(s, osd, t);
  }

  lemma ReplyPlace(s: State, a: Action, op: OpId, p: Place, osd: nat, t: Tid)
    requires Inv(s) && Enabled(s, a) && op in At(s, p) && (a.ErrorReply? || a.AgainReply? || a.FinalReply?)
    requires a.osd == osd && a.t == t
    ensures var q, s' := Goes(s, a, op, p), Apply(s, a);
            if q.Some? then op in At(s', q.value) else op in s'.finished
  {
    var x := s.sessions[osd][t];
    assert InSession(s, osd, t);
    assert KeyOk(s, t, x);
    TakeFromSession(s, osd, t);
    if p == Session(osd) && HasTid(s, op, t) {
      var u := SessionOf(s, osd, op);
      assert op == x;
      if a.ErrorReply? {
        ElemsAppend(if a.pt in s.retry then s.retry[a.pt] else [], op);
      } else if a.AgainReply? {
        assert [op][0] == op;
      }
    } else {
      assert op != x by {
        assert x in At(s, Session(osd));
      }
      assert op in At(Without(s, osd, t), p);
      if a.ErrorReply? {
        ElemsAppend(if a.pt in s.retry then s.retry[a.pt] else [], x);
      }
    }
  }

  lemma HangPlace(s: State, a: Action, op: OpId, p: Place)
    requires Inv(s) && Enabled(s, a) && op in At(s, p) && a.Submit? && !a.ptNormal
    ensures op in At(Apply(s, a), Goes(s, a, op, p).value)
  {
    var x := Next(s.batches[a.b], a.next);
    PopBatch(s, a.b, a.next);
    assert op == x ==> p == InBatch(a.b);
    ElemsAppend(s.hangon, x);
  }

  lemma SendPlace(s: State, a: Action, op: OpId, p: Place)
    requires Inv(s) && Enabled(s, a) && op in At(s, p) && a.Submit? && a.ptNormal
    requires s.tid[Next(s.batches[a.b], a.next)] != 0
    ensures op in At(Apply(s, a), Goes(s, a, op, p).value)
  {
    PopBatch(s, a.b, a.next);
    assert op == Next(s.batches[a.b], a.next) ==> p == InBatch(a.b);
    SendPlaces(s, a.b, a.next, a.node);
  }

  /** A submission numbers its operation itself if need be. */
  lemma NumberedGoes(s: State, a: Action, op: OpId, p: Place)
    requires Enabled(s, a) && a.Submit? && a.ptNormal && s.tid[Next(s.batches[a.b], a.next)] == 0
    ensures var given := Numbered(s, Next(s.batches[a.b], a.next));
            Enabled(given, a) && Apply(given, a) == Apply(s, a) && Goes(given, a, op, p) == Goes(s, a, op, p)
  {
  }

  lemma SubmitPlace(s: State, a: Action, op: OpId, p: Place)
    requires Inv(s) && Enabled(s, a) && op in At(s, p) && a.Submit?
    ensures op in At(Apply(s, a), Goes(s, a, op, p).value)
  {
    var x := Next(s.batches[a.b], a.next);
    if !a.ptNormal {
      HangPlace(s, a, op, p);
    } else if s.tid[x] != 0 {
      SendPlace(s, a, op, p);
    } else {
      NumberedInv(s, x);
      NumberedGoes(s, a, op, p);
      SendPlace(Numbered(s, x), a, op, p);
    }
  }

  lemma SweepPlace(s: State, normal: set<nat>, op: OpId, p: Place)
    requires Inv(s) && op in At(s, p)
    ensures op in At(Apply(s, HangonSweep(normal)), Goes(s, HangonSweep(normal), op, p).value)
  {
    SweepSelects(s, normal, op);
  }

  lemma CloseMoves(s: State, closing: set<nat>, resend: map<Tid, OpId>, op: OpId, p: Place, s': State)
    requires s' == s.(sessions := s.sessions - closing, batches := s.batches + [ByTid(resend)]) && op in At(s, p)
    ensures if p.Session? && p.osd in closing then op in resend.Values ==> op in At(s', InBatch(|s.batches|)) else op in At(s', p)
  {
  }

  lemma ClosePlace(s: State, available: set<nat>, op: OpId, p: Place)
    requires Inv(s) && op in At(s, p)
    ensures op in At(Apply(s, NodeView(available)), Goes(s, NodeView(available), op, p).value)
  {
    var closing := Closing(s, available);
    ResendIsAll(s, closing);
    assert p.Session? ==> (p.osd in closing <==> NodeId.Closes(p.osd, available));
    CloseMoves(s, closing, NeedResend(s, closing), op, p, Apply(s, NodeView(available)));
  }

  lemma OtherPlace(s: State, a: Action, op: OpId, p: Place)
    requires Inv(s) && Enabled(s, a) && op in At(s, p) && (a.NewOp? || a.PtReady? || a.Reset?)
    ensures var q, s' := Goes(s, a, op, p), Apply(s, a);
            if q.Some? then op in At(s', q.value) else op in s'.lost
  {
  }

  lemma Arrives(s: State, a: Action, op: OpId, p: Place)
    requires Inv(s) && Enabled(s, a) && op in At(s, p)
    ensures var q, s' := Goes(s, a, op, p), Apply(s, a);
            if q.Some? then op in At(s', q.value) else op in (if a.FinalReply? then s'.finished else s'.lost)
  {
    match a
    case Submit(_, _, _, _) => SubmitPlace(s, a, op, p);
    case ErrorReply(osd, t, _) => ReplyPlace(s, a, op, p, osd, t);
    case AgainReply(osd, t) => ReplyPlace(s, a, op, p, osd, t);
    case FinalReply(osd, t) => ReplyPlace(s, a, op, p, osd, t);
    case HangonSweep(normal) => SweepPlace(s, normal, op, p);
    case NodeView(available) => ClosePlace(s, available, op, p);
    case _ => OtherPlace(s, a, op, p);
  }

  lemma OnlyThere(s: State, op: OpId, q: Place)
    requires Apart(s) && op in At(s, q)
    ensures op !in s.finished && op !in s.lost && forall r :: op in At(s, r) <==> r == q
  {
  }

  /** Every step takes every unfinished operation where `Goes` says, and nowhere else. */
  lemma StepPlace(s: State, a: Action, op: OpId, p: Place)
    requires Inv(s) && Enabled(s, a) && op in At(s, p)
    ensures var s' := Apply(s, a);
            match Goes(s, a, op, p)
            case Some(q) => op !in s'.finished && op !in s'.lost && forall r :: op in At(s', r) <==> r == q
            case None => op in (if a.FinalReply? then s'.finished else s'.lost) && forall r :: op !in At(s', r)
  {
    StepInv(s, a);
    Arrives(s, a, op, p);
    if Goes(s, a, op, p).Some? {
      OnlyThere(Apply(s, a), op, Goes(s, a, op, p).value);
    }
  }

  /** A new operation begins in a batch of its own. */
  lemma Begins(s: State, pt: nat)
    requires Inv(s)
    ensures var op, s' := |s.tid|, Apply(s, NewOp(pt));
            && op !in s'.finished && op !in s'.lost && |s'.ptOf| == op + 1 && s'.ptOf[op] == pt && s.ptOf <= s'.ptOf
            && forall r :: op in At(s', r) <==> r == InBatch(|s.batches|)
  {
    var op, s' := |s.tid|, Apply(s, NewOp(pt));
    StepInv(s, NewOp(pt));
    assert [op][0] == op;
    OnlyThere(s', op, InBatch(|s.batches|));
  }

  lemma {:induction false} LeastKey(m: map<Tid, OpId>) returns (least: Tid)
    requires m != map[]
    ensures least in m && forall t: Tid :: t in m ==> least <= t
    decreases |m|
  {
    var t: Tid :| t in m;
    least := t;
    var rest := m - {t};
    assert forall u: Tid :: u in m ==> u == t || u in rest;
    if rest != map[] {
      assert rest.Keys == m.Keys - {t};
      var l := LeastKey(rest);
      least := if l < t then l else t;
    }
  }

  /** A batch that is not empty has a next operation to submit. */
  lemma BatchHasNext(b: Batch, op: OpId) returns (next: Tid)
    requires op in BatchOps(b)
    ensures HasNext(b, next) && Next(b, next) in BatchOps(b)
  {
    next := 0;
    if b.ByTid? {
      next := LeastKey(b.resend);
    }
  }

  /** Wherever an unfinished operation waits, what it waits for can happen. */
  lemma CanMove(s: State, op: OpId, p: Place)
    requires Inv(s) && op in At(s, p)
    ensures match p
            case Session(osd) => exists t: Tid :: HasTid(s, op, t) && AnyReply(s, osd, t)
            case Retry(pt) => Enabled(s, PtReady(pt))
            case Hangon => Enabled(s, HangonSweep({s.ptOf[op]})) && Wanted(s, op, {s.ptOf[op]}, true)
            case InBatch(b) => exists next: Tid :: AnySubmit(s, b, next)
  {
    match p
    case Session(osd) =>
      var t := SessionOf(s, osd, op);
      assert AnyReply(s, osd, t);
    case InBatch(b) =>
      var next := BatchHasNext(s.batches[b], op);
      assert Next(s.batches[b], next) in At(s, InBatch(b));
      assert AnySubmit(s, b, next);
    case _ =>
  }

  ghost predicate AnyReply(s: State, osd: nat, t: Tid) {
    Enabled(s, FinalReply(osd, t)) && Enabled(s, AgainReply(osd, t)) && forall pt :: Enabled(s, ErrorReply(osd, t, pt))
  }

  ghost predicate AnySubmit(s: State, b: nat, next: Tid) {
    forall ptNormal, node :: Enabled(s, Submit(b, next, ptNormal, node))
  }

  /** A submission enters the session under the operation's tid: the one it had, or one larger than all given so far. */
  lemma SubmitKey(s: State, a: Action)
    requires Inv(s) && Enabled(s, a) && a.Submit? && a.ptNormal
    ensures var op, s' := Next(s.batches[a.b], a.next), Apply(s, a);
            && InSession(s', a.node, s'.tid[op]) && s'.sessions[a.node][s'.tid[op]] == op
            && (s.tid[op] != 0 ==> s'.tid == s.tid)
            && (s.tid[op] == 0 ==> forall x: OpId :: x < |s.tid| && x != op ==> s'.tid[x] == s.tid[x] < s'.tid[op])
  {
  }

  /** An operation that is to be retried after a reply will get a new tid. */
  lemma RepliesClear(s: State, a: Action)
    requires Inv(s) && Enabled(s, a) && (a.ErrorReply? || a.AgainReply?)
    ensures Apply(s, a).tid[s.sessions[a.osd][a.t]] == 0
  {
  }

  /** A batch is submitted oldest first: in error order from a retry queue, by tid after a close, else from the front. */
  lemma SubmitsOldest(s: State, a: Action)
    requires Inv(s) && InOrder(s) && Enabled(s, a) && a.Submit?
    ensures var b, op := s.batches[a.b], Next(s.batches[a.b], a.next);
            match b
            case Fifo(_, queue) => forall x :: x in queue && x != op ==> s.stamp[op] < s.stamp[x]
            case ByTid(resend) => forall t: Tid :: t in resend && resend[t] != op ==> s.tid[op] < t
            case Plain(queue) => queue[0] == op
  {
  }

  // ------------------------------------------------------------------ runs

  datatype Trace = Start | Then(before: Trace, act: Action)

  ghost predicate Valid(tr: Trace)
    decreases tr, 0
  {
    tr.Then? ==> Valid(tr.before) && Enabled(After(tr.before), tr.act)
  }

  ghost function After(tr: Trace): State
    requires Valid(tr)
    decreases tr, 1
  {
    match tr
    case Start => Init()
    case Then(before, act) => Apply(After(before), act)
  }

  lemma {:induction false} AlwaysInv(tr: Trace)
    requires Valid(tr)
    ensures Inv(After(tr)) && InOrder(After(tr))
  {
    if tr.Then? {
      AlwaysInv(tr.before);
      StepInv(After(tr.before), tr.act);
      StepOrder(After(tr.before), tr.act);
    }
  }

  /** In every reachable state an operation is in at most one place, in one unless it is finished or lost, else in none. */
  lemma ExactlyOnePlace(tr: Trace, s: State, op: OpId)
    requires Valid(tr) && After(tr) == s && op < |s.tid|
    ensures op !in s.finished && op !in s.lost ==> exists p: Place :: op in At(s, p) && forall r: Place :: op in At(s, r) ==> r == p
    ensures op in s.finished || op in s.lost ==> forall r: Place :: op !in At(s, r)
    ensures QueuesOk(s)
  {
    AlwaysInv(tr);
    if op !in s.finished && op !in s.lost {
      var p: Place :| op in At(s, p);
      assert forall r: Place :: op in At(s, r) ==> r == p;
    }
  }

  /** Two entries of two sessions (or of one) never share a tid. */
  lemma SessionTidsUnique(tr: Trace, s: State, o: nat, u: nat, t: Tid)
    requires Valid(tr) && After(tr) == s
    requires InSession(s, o, t) && InSession(s, u, t)
    ensures o == u
  {
    AlwaysInv(tr);
    SameTidSameOp(s);
    assert s.sessions[o][t] in At(s, Session(o)) && s.sessions[u][t] in At(s, Session(u));
  }

  /** Every unfinished operation is in a session, a retry queue, the hang-on list or a batch. */
  ghost predicate NothingLost(s: State) {
    forall op: OpId :: 0 <= op < |s.tid| && op !in s.finished ==> exists p: Place :: op in At(s, p)
  }

  /** The step is a reset of a node that is up and whose session still holds an operation. */
  predicate Loses(s: State, a: Action) {
    a.Reset? && a.up && a.osd in s.sessions && s.sessions[a.osd].Keys != {}
  }

  ghost predicate NeverLoses(tr: Trace)
    requires Valid(tr)
  {
    tr.Then? ==> NeverLoses(tr.before) && !Loses(After(tr.before), tr.act)
  }

  lemma LostNow(s: State, a: Action)
    requires Enabled(s, a)
    ensures Apply(s, a).lost == {} <==> s.lost == {} && !Loses(s, a)
  {
    if Loses(s, a) {
      var t :| t in s.sessions[a.osd].Keys;
      assert s.sessions[a.osd][t] in Apply(s, a).lost;
    }
  }

  lemma {:induction false} LostInRun(tr: Trace)
    requires Valid(tr)
    ensures After(tr).lost == {} <==> NeverLoses(tr)
  {
    if tr.Then? {
      LostInRun(tr.before);
      LostNow(After(tr.before), tr.act);
    }
  }

  lemma LostIsNowhere(s: State)
    requires Inv(s)
    ensures NothingLost(s) <==> s.lost == {}
  {
    if s.lost != {} {
      var op: OpId :| op in s.lost;
      assert op < |s.tid| && op !in s.finished;
      assert forall p: Place :: op !in At(s, p);
    }
  }

  /** In every run: no unfinished operation is lost exactly when no reset of a node that is up met one in its session. */
  lemma NothingLostIff(tr: Trace)
    requires Valid(tr)
    ensures NothingLost(After(tr)) <==> NeverLoses(tr)
  {
    AlwaysInv(tr);
    LostInRun(tr);
    LostIsNowhere(After(tr));
  }

  /** A run of three steps that loses its one operation: it is created, sent, and its node is reset while up. */
  lemma LosingRun() returns (tr: Trace)
    ensures Valid(tr) && tr.Then? && tr.act == Reset(0x10_0000, true)
    ensures 0 in After(tr).lost && !NothingLost(After(tr))
  {
    var one := Then(Start, NewOp(0));
    var two := Then(one, Submit(0, 0, true, 0x10_0000));
    tr := Then(two, Reset(0x10_0000, true));
    var s1 := State(map[], map[], [], [Plain([0])], [0], [0], [0], 0, 0, {}, {});
    var s2 := State(map[0x10_0000 := map[1 := 0]], map[], [], [Plain([])], [1], [0], [0], 1, 0, {}, {});
    assert Valid(one) && After(one) == s1;
    SentIs(s1, s2);
    assert Valid(two) && After(two) == s2;
    assert Valid(tr);
    assert map[1 := 0][1] in After(tr).lost;
    LostInRun(tr);
    NothingLostIff(tr);
  }

  lemma SentIs(s1: State, s2: State)
    requires s1 == State(map[], map[], [], [Plain([0])], [0], [0], [0], 0, 0, {}, {})
    requires s2 == State(map[0x10_0000 := map[1 := 0]], map[], [], [Plain([])], [1], [0], [0], 1, 0, {}, {})
    ensures Enabled(s1, Submit(0, 0, true, 0x10_0000)) && Apply(s1, Submit(0, 0, true, 0x10_0000)) == s2
  {
    assert s1.batches[0 := Plain([])] == [Plain([])] && s1.tid[0 := 1] == [1];
    assert [0][1..] == [];
  }
}
