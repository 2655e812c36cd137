/**
  The send path of the TLS socket. Buffers are sent in batches of at most IOV_MAX; a batch is
  copied into one block and handed to `SSL_write` until it is gone or the layer stops taking
  bytes; what was sent is then cut off the front of the buffer list.

  `SSL_write` is a script of outcomes; when it runs out the layer would block.
 */
module TlsSend {

  const IOV_MAX: nat := 1024
  const RETRY_TIME: nat := 10000

  type Byte = x: int | 0 <= x < 256

  /**
    `Wrote(n)` takes `n` bytes, at least one and at most what is left. The others are results
    that are not positive: errno EINTR; errno EAGAIN or a wish to read or write first; anything
    else, with the errno found (zero if the layer left none).
   */
  datatype Outcome = Wrote(n: nat) | Interrupted | WouldBlock | Failed(errno: nat)

  // ------------------------------------------------------------------ one batch

  datatype Sent = Sent(accepted: nat, result: int, script: seq<Outcome>)

  function Taken(n: nat, remain: nat): (k: nat)
    requires remain > 0
    ensures 1 <= k <= remain
  {
    if n == 0 then 1 else if n < remain then n else remain
  }

  /** What `do_sendmsg` gets accepted and returns, with `remain` bytes to go after `sent`. */
  function SendMsg(remain: nat, sent: nat, script: seq<Outcome>): Sent
    decreases |script|
  {
    if remain == 0 || script == [] then Sent(sent, sent, script)
    else
      match script[0]
      case Wrote(n) => SendMsg(remain - Taken(n, remain), sent + Taken(n, remain), script[1..])
      case Interrupted => SendMsg(remain, sent, script[1..])
      case WouldBlock => Sent(sent, sent, script[1..])
      case Failed(errno) => Sent(sent, -(errno as int), script[1..])
  }

  lemma {:induction false} SendMsgBounds(remain: nat, sent: nat, script: seq<Outcome>)
    ensures var o := SendMsg(remain, sent, script);
            sent <= o.accepted <= sent + remain && o.result <= o.accepted && |o.script| <= |script|
    decreases |script|
  {
    if remain > 0 && script != [] {
      match script[0]
      case Wrote(n) => SendMsgBounds(remain - Taken(n, remain), sent + Taken(n, remain), script[1..]);
      case Interrupted => SendMsgBounds(remain, sent, script[1..]);
      case _ =>
    }
  }

  /** No failure without an errno follows accepted bytes before the script first stops the layer. */
  predicate Safe(script: seq<Outcome>, wrote: bool) {
    if script == [] then true
    else
      match script[0]
      case Wrote(_) => Safe(script[1..], true)
      case Interrupted => Safe(script[1..], wrote)
      case WouldBlock => true
      case Failed(errno) => errno != 0 || !wrote
  }

  lemma {:induction false} MsgLaw(remain: nat, sent: nat, script: seq<Outcome>, wrote: bool)
    requires Safe(script, wrote) && (sent > 0 ==> wrote)
    ensures var o := SendMsg(remain, sent, script);
            && (o.result >= 0 ==> o.result == o.accepted)
            && (o.result == sent + remain ==> Safe(o.script, wrote || o.accepted > sent))
    decreases |script|
  {
    if remain > 0 && script != [] {
      match script[0]
      case Wrote(n) =>
        MsgLaw(remain - Taken(n, remain), sent + Taken(n, remain), script[1..], true);
        SendMsgBounds(remain - Taken(n, remain), sent + Taken(n, remain), script[1..]);
      case Interrupted => MsgLaw(remain, sent, script[1..], wrote);
      case _ =>
    }
  }

  /** Bytes the script would take in all. */
  function Appetite(script: seq<Outcome>): nat {
    if script == [] then 0
    else (if script[0].Wrote? then (if script[0].n == 0 then 1 else script[0].n) else 0) + Appetite(script[1..])
  }

  lemma {:induction false} MsgLoss(remain: nat, sent: nat, script: seq<Outcome>, wrote: bool)
    requires !Safe(script, wrote) && (wrote ==> sent > 0) && remain > Appetite(script)
    ensures var o := SendMsg(remain, sent, script); o.result == 0 < o.accepted
    decreases |script|
  {
    match script[0]
    case Wrote(n) => MsgLoss(remain - Taken(n, remain), sent + Taken(n, remain), script[1..], true);
    case Interrupted => MsgLoss(remain, sent, script[1..], wrote);
    case _ =>
  }

  // ------------------------------------------------------------------ a list of buffers

  function Flatten(bufs: seq<seq<Byte>>): seq<Byte> {
    if bufs == [] then [] else bufs[0] + Flatten(bufs[1..])
  }

  lemma {:induction false} FlattenConcat(a: seq<seq<Byte>>, b: seq<seq<Byte>>)
    ensures Flatten(a + b) == Flatten(a) + Flatten(b)
  {
    if a == [] {
      assert a + b == b;
    } else {
      assert (a + b)[1..] == a[1..] + b;
      FlattenConcat(a[1..], b);
    }
  }

  function BatchSize(bufs: seq<seq<Byte>>): nat {
    if |bufs| < IOV_MAX then |bufs| else IOV_MAX
  }

  /** The batches of one `send`: what is accepted in all, and the result. */
  function SendBatches(bufs: seq<seq<Byte>>, sent: nat, accepted: nat, script: seq<Outcome>): Sent
    decreases |bufs|, 0
  {
    if bufs == [] then Sent(accepted, sent, script)
    else
      var size := BatchSize(bufs);
      var len := |Flatten(bufs[..size])|;
      AfterBatch(bufs[size..], len, SendMsg(len, 0, script), sent, accepted)
  }

  function AfterBatch(rest: seq<seq<Byte>>, len: nat, o: Sent, sent: nat, accepted: nat): Sent
    decreases |rest|, 1
  {
    if o.result < 0 then Sent(accepted + o.accepted, o.result, o.script)
    else if o.result < len then Sent(accepted + o.accepted, sent + o.result, o.script)
    else SendBatches(rest, sent + o.result, accepted + o.accepted, o.script)
  }

  lemma FlattenSplit(bufs: seq<seq<Byte>>, size: nat)
    requires size <= |bufs|
    ensures Flatten(bufs) == Flatten(bufs[..size]) + Flatten(bufs[size..])
  {
    assert bufs == bufs[..size] + bufs[size..];
    FlattenConcat(bufs[..size], bufs[size..]);
  }

  lemma {:induction false} BatchesBounds(bufs: seq<seq<Byte>>, sent: nat, accepted: nat, script: seq<Outcome>)
    requires sent <= accepted
    ensures var o := SendBatches(bufs, sent, accepted, script);
            accepted <= o.accepted <= accepted + |Flatten(bufs)| && o.result <= o.accepted
    decreases |bufs|
  {
    if bufs != [] {
      var size := BatchSize(bufs);
      var len := |Flatten(bufs[..size])|;
      FlattenSplit(bufs, size);
      SendMsgBounds(len, 0, script);
      var o := SendMsg(len, 0, script);
      if o.result >= len {
        BatchesBounds(bufs[size..], sent + o.result, accepted + o.accepted, o.script);
      }
    }
  }

  lemma {:induction false} BatchesLaw(bufs: seq<seq<Byte>>, sent: nat, script: seq<Outcome>, wrote: bool)
    requires Safe(script, wrote)
    ensures var o := SendBatches(bufs, sent, sent, script); o.result >= 0 ==> o.accepted == o.result
    decreases |bufs|, 0
  {
    if bufs != [] {
      var size := BatchSize(bufs);
      var len := |Flatten(bufs[..size])|;
      MsgLaw(len, 0, script, wrote);
      SendMsgBounds(len, 0, script);
      AfterBatchLaw(bufs[size..], len, SendMsg(len, 0, script), sent, wrote);
    }
  }

  lemma {:induction false} AfterBatchLaw(rest: seq<seq<Byte>>, len: nat, o: Sent, sent: nat, wrote: bool)
    requires o.result <= o.accepted <= len && (o.result >= 0 ==> o.result == o.accepted)
    requires o.result == len ==> Safe(o.script, wrote || o.accepted > 0)
    ensures var a := AfterBatch(rest, len, o, sent, sent); a.result >= 0 ==> a.accepted == a.result
    decreases |rest|, 1
  {
    if o.result >= len {
      BatchesLaw(rest, sent + o.result, o.script, wrote || o.accepted > 0);
    }
  }

  /** The result of a `send` that does not fail counts the accepted bytes, whatever the list. */
  ghost predicate Faithful(script: seq<Outcome>) {
    forall bufs :: SendBatches(bufs, 0, 0, script).result >= 0 ==>
      SendBatches(bufs, 0, 0, script).accepted == SendBatches(bufs, 0, 0, script).result
  }

  /** It does so for every list exactly when no failure without an errno follows accepted bytes. */
  lemma FaithfulIff(script: seq<Outcome>)
    ensures Faithful(script) <==> Safe(script, false)
  {
    if Safe(script, false) {
      forall bufs | SendBatches(bufs, 0, 0, script).result >= 0
        ensures SendBatches(bufs, 0, 0, script).accepted == SendBatches(bufs, 0, 0, script).result
      {
        BatchesLaw(bufs, 0, script, false);
      }
    } else {
      var len := Appetite(script) + 1;
      var block: seq<Byte> := seq(len, i => 0);
      var bufs := [block];
      assert bufs[..1] == bufs && Flatten(bufs) == block + Flatten(bufs[1..]) == block;
      MsgLoss(len, 0, script, false);
      assert SendBatches(bufs, 0, 0, script) == SendMsg(len, 0, script);
    }
  }

  /** One byte is taken, then the layer fails without an errno: `send` returns zero and will send the byte again. */
  lemma ByteSentTwice()
    ensures SendBatches([[7, 8]], 0, 0, [Wrote(1), Failed(0)]) == Sent(1, 0, [])
  {
    var bufs: seq<seq<Byte>> := [[7, 8]];
    var script := [Wrote(1), Failed(0)];
    assert bufs[..1] == bufs && Flatten(bufs) == bufs[0] + Flatten(bufs[1..]) == [7, 8];
    assert script[1..] == [Failed(0)] && script[1..][1..] == [];
    assert SendMsg(1, 1, [Failed(0)]) == Sent(1, 0, []);
    assert SendMsg(2, 0, script) == SendMsg(1, 1, script[1..]);
  }

  // ------------------------------------------------------------------ errors and batches

  /** `n` outcomes were used up; a negative result is minus the errno of the last of them, a failure. */
  ghost predicate UsedUp(o: Sent, script: seq<Outcome>, n: nat) {
    n <= |script| && o.script == script[n..] && (o.result < 0 ==> n > 0 && script[n - 1] == Failed(-o.result))
  }

  lemma UsedMore(script: seq<Outcome>, k: nat, o: Sent, n: nat)
    requires k <= |script| && UsedUp(o, script[k..], n)
    ensures UsedUp(o, script, k + n)
  {
    assert script[k..][n..] == script[k + n..];
    assert o.result < 0 ==> script[k..][n - 1] == script[k + n - 1];
  }

  lemma {:induction false} MsgErrno(remain: nat, sent: nat, script: seq<Outcome>) returns (n: nat)
    ensures UsedUp(SendMsg(remain, sent, script), script, n)
    decreases |script|
  {
    n := 0;
    if remain > 0 && script != [] {
      n := 1;
      if script[0].Wrote? || script[0].Interrupted? {
        var k := if script[0].Wrote? then Taken(script[0].n, remain) else 0;
        var m := MsgErrno(remain - k, sent + k, script[1..]);
        UsedMore(script, 1, SendMsg(remain - k, sent + k, script[1..]), m);
        n := 1 + m;
      }
    }
  }

  /** A send uses up the front of its script; a negative result is minus the errno of the failure it ended with. */
  lemma {:induction false} SendErrno(bufs: seq<seq<Byte>>, sent: nat, accepted: nat, script: seq<Outcome>) returns (n: nat)
    ensures UsedUp(SendBatches(bufs, sent, accepted, script), script, n)
    decreases |bufs|, 0
  {
    n := 0;
    if bufs != [] {
      var size := BatchSize(bufs);
      var len := |Flatten(bufs[..size])|;
      var k := MsgErrno(len, 0, script);
      n := AfterBatchErrno(bufs[size..], len, SendMsg(len, 0, script), sent, accepted, script, k);
    }
  }

  lemma {:induction false} AfterBatchErrno(rest: seq<seq<Byte>>, len: nat, m: Sent, sent: nat, accepted: nat, script: seq<Outcome>, k: nat)
    returns (n: nat)
    requires UsedUp(m, script, k)
    ensures UsedUp(AfterBatch(rest, len, m, sent, accepted), script, n)
    decreases |rest|, 1
  {
    n := k;
    if m.result >= len {
      var more := SendErrno(rest, sent + m.result, accepted + m.accepted, m.script);
      UsedMore(script, k, SendBatches(rest, sent + m.result, accepted + m.accepted, m.script), more);
      n := k + more;
    }
  }

  /** How many batches of at most 1024 buffers a list makes. */
  function Batches(n: nat): nat { (n + 1023) / 1024 }

  function Greedy(k: nat, most: nat): seq<Outcome> { seq(k, i => Wrote(most)) }

  lemma {:induction false} FlattenNonEmpty(bufs: seq<seq<Byte>>)
    requires bufs != [] && forall i :: 0 <= i < |bufs| ==> bufs[i] != []
    ensures Flatten(bufs) != []
  {
  }

  /** A layer that takes whatever it is given is asked once for each batch of 1024 buffers, and takes everything. */
  lemma {:induction false} OneWritePerBatch(bufs: seq<seq<Byte>>, sent: nat, k: nat, most: nat)
    requires (forall i :: 0 <= i < |bufs| ==> bufs[i] != []) && |Flatten(bufs)| <= most && Batches(|bufs|) <= k
    ensures SendBatches(bufs, sent, sent, Greedy(k, most)) ==
            Sent(sent + |Flatten(bufs)|, sent + |Flatten(bufs)|, Greedy(k - Batches(|bufs|), most))
    decreases |bufs|
  {
    if bufs != [] {
      var size := BatchSize(bufs);
      var len := |Flatten(bufs[..size])|;
      FlattenSplit(bufs, size);
      FlattenNonEmpty(bufs[..size]);
      assert Batches(|bufs|) == 1 + Batches(|bufs| - size);
      TakesAll(len, k, most);
      OneWritePerBatch(bufs[size..], sent + len, k - 1, most);
    }
  }

  lemma TakesAll(len: nat, k: nat, most: nat)
    requires 0 < len <= most && 0 < k
    ensures SendMsg(len, 0, Greedy(k, most)) == Sent(len, len, Greedy(k - 1, most))
  {
    assert Greedy(k, most)[1..] == Greedy(k - 1, most);
    assert SendMsg(0, len, Greedy(k - 1, most)) == Sent(len, len, Greedy(k - 1, most));
  }

  // ------------------------------------------------------------------ a run of sends

  /** The buffer list without its first `n` bytes. */
  function Trim(bufs: seq<seq<Byte>>, n: nat): (r: seq<seq<Byte>>)
    requires n <= |Flatten(bufs)|
    ensures Flatten(r) == Flatten(bufs)[n..]
  {
    if bufs == [] || n == 0 then bufs
    else if n < |bufs[0]| then
      var r := [bufs[0][n..]] + bufs[1..];
      assert r[1..] == bufs[1..];
      r
    else Trim(bufs[1..], n - |bufs[0]|)
  }

  /** What `send` leaves of the list: all of it, the bytes behind the first `n`, or nothing. */
  function Rest(bufs: seq<seq<Byte>>, n: nat): (r: seq<seq<Byte>>)
    requires n <= |Flatten(bufs)|
    ensures Flatten(r) == Flatten(bufs)[n..]
  {
    if n == 0 then bufs else if n < |Flatten(bufs)| then Trim(bufs, n) else []
  }

  /** What the layer took, what is still queued and whether no send was negative. */
  datatype Streamed = Streamed(wire: seq<Byte>, rest: seq<seq<Byte>>, ok: bool)

  /** Each chunk is queued behind what is pending and the list is sent; a negative result ends the run. */
  function Sends(chunks: seq<seq<Byte>>, pending: seq<seq<Byte>>, script: seq<Outcome>): Streamed {
    if chunks == [] then Streamed([], pending, true)
    else
      var bl := pending + [chunks[0]];
      var o := SendBatches(bl, 0, 0, script);
      BatchesBounds(bl, 0, 0, script);
      var taken := Flatten(bl)[..o.accepted];
      if o.result < 0 then Streamed(taken, bl, false)
      else
        var s := Sends(chunks[1..], Rest(bl, o.result), o.script);
        Streamed(taken + s.wire, s.rest, s.ok)
  }

  /** No failure without an errno follows bytes accepted in the same send, in any send up to a failure with an errno. */
  predicate SafeRun(script: seq<Outcome>, wrote: bool) {
    if script == [] then true
    else
      match script[0]
      case Wrote(_) => SafeRun(script[1..], true)
      case Interrupted => SafeRun(script[1..], wrote)
      case WouldBlock => SafeRun(script[1..], false)
      case Failed(errno) => errno != 0 || (!wrote && SafeRun(script[1..], false))
  }

  lemma {:induction false} SafeRunAfresh(script: seq<Outcome>)
    requires SafeRun(script, true)
    ensures SafeRun(script, false)
  {
    if script != [] && script[0].Interrupted? {
      SafeRunAfresh(script[1..]);
    }
  }

  lemma {:induction false} SafeRunIsSafe(script: seq<Outcome>, wrote: bool)
    requires SafeRun(script, wrote)
    ensures Safe(script, wrote)
  {
    if script != [] && (script[0].Wrote? || script[0].Interrupted?) {
      SafeRunIsSafe(script[1..], wrote || script[0].Wrote?);
    }
  }

  lemma {:induction false} MsgRunLaw(remain: nat, sent: nat, script: seq<Outcome>, wrote: bool)
    requires SafeRun(script, wrote) && (sent > 0 ==> wrote)
    ensures var o := SendMsg(remain, sent, script); o.result >= 0 ==> o.result == o.accepted && SafeRun(o.script, false)
    decreases |script|
  {
    if remain == 0 || script == [] {
      if wrote {
        SafeRunAfresh(script);
      }
    } else {
      match script[0]
      case Wrote(n) => MsgRunLaw(remain - Taken(n, remain), sent + Taken(n, remain), script[1..], true);
      case Interrupted => MsgRunLaw(remain, sent, script[1..], wrote);
      case _ =>
    }
  }

  lemma {:induction false} BatchesRunLaw(bufs: seq<seq<Byte>>, sent: nat, script: seq<Outcome>)
    requires SafeRun(script, false)
    ensures var o := SendBatches(bufs, sent, sent, script); o.result >= 0 ==> o.accepted == o.result && SafeRun(o.script, false)
    decreases |bufs|, 0
  {
    if bufs != [] {
      var size := BatchSize(bufs);
      var len := |Flatten(bufs[..size])|;
      MsgRunLaw(len, 0, script, false);
      AfterBatchRunLaw(bufs[size..], len, SendMsg(len, 0, script), sent);
    }
  }

  lemma {:induction false} AfterBatchRunLaw(rest: seq<seq<Byte>>, len: nat, o: Sent, sent: nat)
    requires o.result >= 0 ==> o.result == o.accepted && SafeRun(o.script, false)
    ensures var a := AfterBatch(rest, len, o, sent, sent); a.result >= 0 ==> a.accepted == a.result && SafeRun(a.script, false)
    decreases |rest|, 1
  {
    if o.result >= len {
      BatchesRunLaw(rest, sent + o.result, o.script);
    }
  }

  /** Nothing is lost, duplicated or reordered: bytes taken and residue are the bytes submitted. */
  ghost predicate KeepsBytes(chunks: seq<seq<Byte>>, script: seq<Outcome>) {
    var s := Sends(chunks, [], script);
    s.ok ==> s.wire + Flatten(s.rest) == Flatten(chunks)
  }

  lemma FlattenOne(pending: seq<seq<Byte>>, chunk: seq<Byte>)
    ensures Flatten(pending + [chunk]) == Flatten(pending) + chunk
  {
    FlattenConcat(pending, [chunk]);
    assert Flatten([chunk]) == chunk + Flatten([chunk][1..]) == chunk;
  }

  lemma {:induction false} RunKeeps(chunks: seq<seq<Byte>>, pending: seq<seq<Byte>>, script: seq<Outcome>)
    requires SafeRun(script, false)
    ensures var s := Sends(chunks, pending, script); s.ok ==> s.wire + Flatten(s.rest) == Flatten(pending) + Flatten(chunks)
  {
    if chunks != [] {
      var bl := pending + [chunks[0]];
      var o := SendBatches(bl, 0, 0, script);
      BatchesBounds(bl, 0, 0, script);
      BatchesRunLaw(bl, 0, script);
      FlattenOne(pending, chunks[0]);
      if o.result >= 0 {
        RunKeeps(chunks[1..], Rest(bl, o.result), o.script);
        var s := Sends(chunks[1..], Rest(bl, o.result), o.script);
        if s.ok {
          Rejoined(Flatten(bl), o.result, s.wire, Flatten(s.rest), Flatten(chunks[1..]));
        }
      }
    }
  }

  /** The bytes taken first, then what a run from there keeps. */
  lemma Rejoined(all: seq<Byte>, r: nat, wire: seq<Byte>, rest: seq<Byte>, more: seq<Byte>)
    requires r <= |all| && wire + rest == all[r..] + more
    ensures all[..r] + wire + rest == all + more
  {
    assert all[..r] + wire + rest == all[..r] + (wire + rest);
  }

  /** A message longer than the script's appetite is reported short, or leaves an unsafe script for the rest of it. */
  lemma {:induction false} MsgRunLoss(remain: nat, sent: nat, script: seq<Outcome>, wrote: bool)
    requires !SafeRun(script, wrote) && (wrote ==> sent > 0) && remain > Appetite(script)
    ensures var o := SendMsg(remain, sent, script);
            || o.result == 0 < o.accepted
            || (&& o.result == o.accepted && !SafeRun(o.script, false) && |o.script| < |script|
                && sent + remain > o.accepted + Appetite(o.script)
                && sent + Appetite(script) >= o.accepted + Appetite(o.script))
    decreases |script|
  {
    match script[0]
    case Wrote(n) => MsgRunLoss(remain - Taken(n, remain), sent + Taken(n, remain), script[1..], true);
    case Interrupted => MsgRunLoss(remain, sent, script[1..], wrote);
    case _ =>
  }

  function Blanks(n: nat): seq<seq<Byte>> {
    seq(n, i => [])
  }

  /** The message of a list whose first buffer exceeds the appetite is never finished. */
  lemma UnfinishedBatch(bl: seq<seq<Byte>>, script: seq<Outcome>)
    requires bl != [] && |bl[0]| > Appetite(script) && !SafeRun(script, false)
    ensures var o := SendBatches(bl, 0, 0, script);
            || o.result == 0 < o.accepted
            || (&& 0 <= o.result == o.accepted < |bl[0]| && !SafeRun(o.script, false) && |o.script| < |script|
                && |bl[0]| > o.accepted + Appetite(o.script))
  {
    var size := BatchSize(bl);
    var batch := bl[..size];
    var len := |Flatten(batch)|;
    assert batch[0] == bl[0];
    MsgRunLoss(len, 0, script, false);
    SendMsgBounds(len, 0, script);
    assert SendBatches(bl, 0, 0, script) == AfterBatch(bl[size..], len, SendMsg(len, 0, script), 0, 0);
  }

  /** What is taken and what is left never fall short of what was submitted. */
  lemma {:induction false} NeverLess(chunks: seq<seq<Byte>>, pending: seq<seq<Byte>>, script: seq<Outcome>)
    ensures var s := Sends(chunks, pending, script); s.ok ==> |s.wire| + |Flatten(s.rest)| >= |Flatten(pending)| + |Flatten(chunks)|
  {
    if chunks != [] {
      var bl := pending + [chunks[0]];
      var o := SendBatches(bl, 0, 0, script);
      BatchesBounds(bl, 0, 0, script);
      FlattenOne(pending, chunks[0]);
      if o.result >= 0 {
        NeverLess(chunks[1..], Rest(bl, o.result), o.script);
      }
    }
  }

  lemma {:induction false} BlanksFlat(n: nat)
    ensures Flatten(Blanks(n)) == []
  {
    if n > 0 {
      assert Blanks(n)[1..] == Blanks(n - 1);
      BlanksFlat(n - 1);
    }
  }

  /** On an unsafe script a long first buffer, followed by `n` empty chunks, ends with more bytes than were submitted. */
  lemma {:induction false} LossLater(pending: seq<seq<Byte>>, chunk: seq<Byte>, script: seq<Outcome>) returns (n: nat)
    requires |(pending + [chunk])[0]| > Appetite(script) && !SafeRun(script, false)
    ensures var s := Sends([chunk] + Blanks(n), pending, script);
            s.ok && |s.wire| + |Flatten(s.rest)| > |Flatten(pending)| + |chunk|
    decreases |script|
  {
    var bl := pending + [chunk];
    var o := SendBatches(bl, 0, 0, script);
    BatchesBounds(bl, 0, 0, script);
    UnfinishedBatch(bl, script);
    FlattenOne(pending, chunk);
    var left := Rest(bl, o.result);
    if o.result == 0 < o.accepted {
      n := 0;
      assert ([chunk] + Blanks(0))[1..] == [];
      assert Sends([], left, o.script) == Streamed([], left, true);
    } else {
      var m := LossLater(left, [], o.script);
      n := m + 1;
      assert ([chunk] + Blanks(n))[1..] == [[]] + Blanks(m);
    }
  }

  lemma UnsafeLoses(script: seq<Outcome>) returns (chunks: seq<seq<Byte>>)
    requires !SafeRun(script, false)
    ensures !KeepsBytes(chunks, script)
  {
    var block: seq<Byte> := seq(Appetite(script) + 1, i => 0);
    assert ([] + [block])[0] == block && Flatten([]) == [];
    var n := LossLater([], block, script);
    chunks := [block] + Blanks(n);
    BlanksFlat(n);
    FlattenConcat([block], Blanks(n));
    FlattenOne([], block);
    assert [] + [block] == [block];
  }

  /** Every run keeps its bytes exactly when the script is safe for runs. */
  lemma RunLawIff(script: seq<Outcome>)
    ensures (forall chunks :: KeepsBytes(chunks, script)) <==> SafeRun(script, false)
  {
    if SafeRun(script, false) {
      forall chunks ensures KeepsBytes(chunks, script) {
        RunKeeps(chunks, [], script);
      }
    } else {
      var _ := UnsafeLoses(script);
    }
  }

  lemma SecondSend()
    ensures Sends([[]], [[7, 8]], [Wrote(2)]) == Streamed([7, 8], [], true)
  {
    var bl: seq<seq<Byte>> := [[7, 8], []];
    assert [[7, 8]] + [[]] == bl && bl[..2] == bl && bl[1..] == [[]] && bl[1..][1..] == [];
    assert Flatten(bl) == [7, 8] + Flatten(bl[1..]) == [7, 8];
    assert SendMsg(2, 0, [Wrote(2)]) == SendMsg(0, 2, []) == Sent(2, 2, []);
    assert SendBatches(bl, 0, 0, [Wrote(2)]) == SendBatches(bl[2..], 2, 2, []) == Sent(2, 2, []);
  }

  /** The first byte of two is taken, the layer fails without an errno, and the next send begins with it again. */
  lemma DuplicateOnTheWire()
    ensures Sends([[7, 8], []], [], [Wrote(1), Failed(0), Wrote(2)]) == Streamed([7, 7, 8], [], true)
  {
    var chunks: seq<seq<Byte>>, script := [[7, 8], []], [Wrote(1), Failed(0), Wrote(2)];
    var bl := [chunks[0]];
    assert chunks[1..] == [[]] && [] + bl == bl && bl[..1] == bl && Flatten(bl) == [7, 8] + Flatten(bl[1..]) == [7, 8];
    assert script[1..] == [Failed(0), Wrote(2)] && script[1..][1..] == [Wrote(2)];
    assert SendMsg(2, 0, script) == SendMsg(1, 1, script[1..]) == Sent(1, 0, [Wrote(2)]);
    assert SendBatches(bl, 0, 0, script) == Sent(1, 0, [Wrote(2)]);
    SecondSend();
  }

  // ------------------------------------------------------------------ the socket

  class TlsSocket {
    var isHandShaked: bool
    var retryCount: nat
    var script: seq<Outcome>
    ghost var wire: seq<Byte>

    constructor (script: seq<Outcome>)
      ensures !isHandShaked && retryCount == 0 && wire == [] && this.script == script
    {
      isHandShaked, retryCount, wire := false, 0, [];
      this.script := script;
    }

    /** `done` is what `SSL_accept` or `SSL_connect` would say. */
    method TryHandShaked(done: bool) returns (r: int)
      modifies this`isHandShaked, this`retryCount
      ensures r == if old(isHandShaked) then 1 else if old(retryCount) > RETRY_TIME then -1 else if done then 1 else 0
      ensures isHandShaked <==> r == 1
      ensures retryCount == if old(isHandShaked) then old(retryCount) else old(retryCount) + 1
    {
      if isHandShaked {
        return 1;
      }
      retryCount := retryCount + 1;
      if retryCount - 1 > RETRY_TIME {
        return -1;
      }
      if !done {
        return 0;
      }
      isHandShaked := true;
      return 1;
    }

    method SslWrite(cur: seq<Byte>) returns (o: Outcome, r: nat)
      requires cur != []
      modifies this`script, this`wire
      ensures old(script) == [] ==> o == WouldBlock && script == []
      ensures old(script) != [] ==> o == old(script)[0] && script == old(script)[1..]
      ensures r == (if o.Wrote? then Taken(o.n, |cur|) else 0) && wire == old(wire) + cur[..r]
    {
      if script == [] {
        o := WouldBlock;
      } else {
        o, script := script[0], script[1..];
      }
      r := if o.Wrote? then Taken(o.n, |cur|) else 0;
      wire := wire + cur[..r];
    }

    method DoSendmsg(temp: seq<Byte>) returns (result: int)
      modifies this`script, this`wire
      ensures var o := SendMsg(|temp|, 0, old(script));
              && result == o.result && script == o.script && o.accepted <= |temp|
              && wire == old(wire) + temp[..o.accepted]
    {
      ghost var o := SendMsg(|temp|, 0, script);
      SendMsgBounds(|temp|, 0, script);
      var sent: nat, cur := 0, temp;
      while cur != []
        invariant sent <= |temp| && cur == temp[sent..] && wire == old(wire) + temp[..sent]
        invariant SendMsg(|cur|, sent, script) == o
        decreases |script|, |cur|
      {
        var outcome, r := SslWrite(cur);
        if r == 0 {
          if outcome.Interrupted? {
            continue;
          } else if outcome.WouldBlock? {
            return sent;
          } else {
            return -(outcome.errno as int);
          }
        }
        assert temp[..sent + r] == temp[..sent] + cur[..r];
        sent := sent + r;
        cur := cur[r..];
      }
      assert temp[..sent] == temp[..o.accepted];
      return sent;
    }

    /** The next batch of a list; `left` is the list behind it. */
    method SendBatch(bufs: seq<seq<Byte>>) returns (r: int, len: nat, left: seq<seq<Byte>>)
      requires bufs != []
      modifies this`script, this`wire
      ensures var size, m := BatchSize(bufs), SendMsg(len, 0, old(script));
              && len == |Flatten(bufs[..size])| && left == bufs[size..] && |left| < |bufs|
              && r == m.result && script == m.script && m.accepted <= len <= |Flatten(bufs)| && m.result <= m.accepted
              && wire == old(wire) + Flatten(bufs)[..m.accepted] && Flatten(left) == Flatten(bufs)[len..]
    {
      var size := BatchSize(bufs);
      var msg := Flatten(bufs[..size]);
      SendMsgBounds(|msg|, 0, script);
      FlattenSplit(bufs, size);
      len, left := |msg|, bufs[size..];
      r := DoSendmsg(msg);
    }

    /** The same in the terms of the whole stream `all`, of which `accepted` bytes are gone, and its outcome `o`. */
    method SendNext(bufs: seq<seq<Byte>>, sent: nat, ghost base: seq<Byte>, ghost all: seq<Byte>, ghost accepted: nat, ghost o: Sent)
      returns (r: int, len: nat, left: seq<seq<Byte>>, ghost now: nat)
      requires bufs != [] && accepted <= |all| && Flatten(bufs) == all[accepted..] && wire == base + all[..accepted]
      requires SendBatches(bufs, sent, accepted, script) == o
      modifies this`script, this`wire
      ensures now <= |all| && wire == base + all[..now] && |left| < |bufs| && r <= len
      ensures r < len ==> o == Sent(now, if r < 0 then r else sent + r, script)
      ensures r == len ==> o == SendBatches(left, sent + len, now, script) && Flatten(left) == all[now..]
    {
      ghost var m := SendMsg(|Flatten(bufs[..BatchSize(bufs)])|, 0, script);
      r, len, left := SendBatch(bufs);
      now := accepted + m.accepted;
      Advance(all, accepted, m.accepted, len);
    }

    /** The batch loop of `send`; `first` is the whole list. */
    method SendList(first: seq<seq<Byte>>) returns (result: int)
      modifies this`script, this`wire
      ensures var o := SendBatches(first, 0, 0, old(script));
              && result == o.result && script == o.script && o.accepted <= |Flatten(first)|
              && wire == old(wire) + Flatten(first)[..o.accepted]
    {
      ghost var base, all, o := wire, Flatten(first), SendBatches(first, 0, 0, script);
      var bufs, sent: nat := first, 0;
      ghost var accepted: nat := 0;
      while bufs != []
        invariant accepted <= |all| && Flatten(bufs) == all[accepted..] && wire == base + all[..accepted]
        invariant SendBatches(bufs, sent, accepted, script) == o
        decreases |bufs|
      {
        var r, len, left;
        r, len, left, accepted := SendNext(bufs, sent, base, all, accepted, o);
        if r < 0 {
          return r;
        }
        sent := sent + r;
        if r < len {
          return sent;
        }
        bufs := left;
      }
      return sent;
    }

    /** What `send` does once the handshake is done. */
    method SendOpen(bl: seq<seq<Byte>>) returns (r: int, rest: seq<seq<Byte>>)
      modifies this`script, this`wire
      ensures var o := SendBatches(bl, 0, 0, old(script));
        && r == o.result <= o.accepted <= |Flatten(bl)| && script == o.script
        && wire == old(wire) + Flatten(bl)[..o.accepted]
      ensures rest == if r < 0 then bl else Rest(bl, r)
    {
      BatchesBounds(bl, 0, 0, script);
      r := SendList(bl);
      rest := bl;
      if r > 0 {
        rest := if r < |Flatten(bl)| then Trim(bl, r) else [];
      }
    }

    /** `send`: a result `r` that is not negative leaves the list without its first `r` bytes. */
    method Send(bl: seq<seq<Byte>>, handshake: bool) returns (r: int, rest: seq<seq<Byte>>)
      modifies this
      ensures old(isHandShaked) ==> isHandShaked
      ensures isHandShaked ==> var o := SendBatches(bl, 0, 0, old(script));
        && r == o.result && script == o.script && o.accepted <= |Flatten(bl)|
        && wire == old(wire) + Flatten(bl)[..o.accepted]
      ensures !isHandShaked ==> r <= 0 && wire == old(wire) && script == old(script) && rest == bl
      ensures r < 0 ==> rest == bl
      ensures r >= 0 ==> r <= |Flatten(bl)| && rest == Rest(bl, r) && Flatten(rest) == Flatten(bl)[r..]
      ensures Safe(old(script), false) && r >= 0 ==> wire == old(wire) + Flatten(bl)[..r]
      ensures SafeRun(old(script), false) && r >= 0 ==> SafeRun(script, false)
    {
      rest := bl;
      var tryRet := TryHandShaked(handshake);
      if tryRet == -1 {
        return -1, bl;
      } else if tryRet == 0 {
        return 0, bl;
      }
      if Safe(script, false) {
        BatchesLaw(bl, 0, script, false);
      }
      if SafeRun(script, false) {
        BatchesRunLaw(bl, 0, script);
      }
      r, rest := SendOpen(bl);
    }

    /** One more chunk is queued and the list is sent. */
    method QueueAndSend(bl: seq<seq<Byte>>, chunk: seq<Byte>, handshake: bool) returns (r: int, rest: seq<seq<Byte>>)
      requires SafeRun(script, false)
      modifies this
      ensures r >= 0 ==> SafeRun(script, false) && wire + Flatten(rest) == old(wire) + (Flatten(bl) + chunk)
    {
      SafeRunIsSafe(script, false);
      FlattenOne(bl, chunk);
      var list := bl + [chunk];
      r, rest := Send(list, handshake);
      if r >= 0 {
        Halves(old(wire), Flatten(list), r);
      }
    }

    /**
      Any run of sends, each with more bytes queued first, on a script that is safe for runs: up
      to the first negative result nothing is lost, duplicated or reordered.
     */
    method Stream(chunks: seq<seq<Byte>>, handshakes: seq<bool>) returns (r: int, rest: seq<seq<Byte>>, used: nat)
      requires |handshakes| == |chunks| && SafeRun(script, false)
      modifies this
      ensures used <= |chunks| && (r >= 0 ==> used == |chunks|)
      ensures r >= 0 ==> wire + Flatten(rest) == old(wire) + Flatten(chunks)
    {
      r, rest, used := 0, [], 0;
      while used < |chunks|
        invariant used <= |chunks| && r >= 0 && SafeRun(script, false)
        invariant wire + Flatten(rest) == old(wire) + Flatten(chunks[..used])
      {
        Submitted(wire, Flatten(rest), old(wire), chunks, used);
        r, rest := QueueAndSend(rest, chunks[used], handshakes[used]);
        if r < 0 {
          return;
        }
        used := used + 1;
      }
      assert chunks[..used] == chunks;
    }

    /** A send of a socket past its handshake. */
    method SendAgain(bl: seq<seq<Byte>>) returns (r: int, rest: seq<seq<Byte>>)
      requires isHandShaked
      modifies this
      ensures var o := SendBatches(bl, 0, 0, old(script));
        && isHandShaked && r == o.result <= o.accepted <= |Flatten(bl)| && script == o.script
        && wire == old(wire) + Flatten(bl)[..o.accepted]
      ensures rest == if r < 0 then bl else Rest(bl, r)
    {
      BatchesBounds(bl, 0, 0, script);
      r, rest := Send(bl, true);
    }

    /** The sends of a socket past its handshake are those of `Sends`, on any script. */
    method StreamOpen(chunks: seq<seq<Byte>>, pending: seq<seq<Byte>>) returns (r: int, rest: seq<seq<Byte>>)
      requires isHandShaked
      modifies this
      ensures var s := Sends(chunks, pending, old(script)); (r >= 0 <==> s.ok) && rest == s.rest && wire == old(wire) + s.wire
      decreases |chunks|
    {
      if chunks == [] {
        return 0, pending;
      }
      r, rest := SendAgain(pending + [chunks[0]]);
      if r >= 0 {
        r, rest := StreamOpen(chunks[1..], rest);
      }
    }
  }

  /** Every failure of the layer leaves an errno. */
  predicate ErrnoKept(script: seq<Outcome>) {
    forall i :: 0 <= i < |script| ==> script[i] != Failed(0)
  }

  /** Such a script is safe for runs. */
  lemma {:induction false} AlwaysSafe(script: seq<Outcome>, wrote: bool)
    requires ErrnoKept(script)
    ensures SafeRun(script, wrote)
  {
    if script != [] {
      assert script[0] != Failed(0);
      if !script[0].Failed? {
        AlwaysSafe(script[1..], script[0].Wrote? || (wrote && script[0].Interrupted?));
      }
    }
  }

  lemma Halves(before: seq<Byte>, all: seq<Byte>, r: nat)
    requires r <= |all|
    ensures before + all[..r] + all[r..] == before + all
  {
  }

  lemma Submitted(wire: seq<Byte>, queued: seq<Byte>, base: seq<Byte>, chunks: seq<seq<Byte>>, n: nat)
    requires n < |chunks| && wire + queued == base + Flatten(chunks[..n])
    ensures wire + (queued + chunks[n]) == base + Flatten(chunks[..n + 1])
  {
    FlattenOne(chunks[..n], chunks[n]);
    assert chunks[..n + 1] == chunks[..n] + [chunks[n]];
    assert wire + (queued + chunks[n]) == wire + queued + chunks[n];
    assert base + (Flatten(chunks[..n]) + chunks[n]) == base + Flatten(chunks[..n]) + chunks[n];
  }

  /** Where a stream stands when `k` more of its bytes were taken and the list goes on behind `len` of them. */
  lemma Advance(all: seq<Byte>, done: nat, k: nat, len: nat)
    requires done <= |all| && k <= len <= |all| - done
    ensures all[..done] + all[done..][..k] == all[..done + k] && all[done..][len..] == all[done + len..]
  {
  }
}
