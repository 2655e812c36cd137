/**
  The write-quota limiter of the server adaptor's network module. Writes are charged, in KB, to
  the current cycle; a request that fills the quota sleeps until the cycle is over while it
  holds the limiter's mutex, so calls follow one another.

  The clock is the field `now`, in nanoseconds: it never runs backwards and a sleep lasts at
  least as long as asked. `drift(k)` is what passes, or is overslept, before reading or sleep number `k`
  returns; it is any function. The quota service answers with any sequence of write ratios.
 */
module WriteLimiter {

  const SA_THOUSAND_DEC: nat := 1000
  const UINT32: nat := 0x1_0000_0000
  const ULLONG_MAX: nat := 0xFFFF_FFFF_FFFF_FFFF
  const NS_PER_MS: nat := 1_000_000
  const NS_PER_US: nat := 1000

  datatype Kind = Write | WriteFull | Other
  datatype SubOp = SubOp(kind: Kind, length: nat)

  /** What a request is charged. */
  function Kilobytes(ops: seq<SubOp>): nat {
    if ops == [] then 0
    else (if ops[0].kind.Other? then 0 else ops[0].length / 1024) + Kilobytes(ops[1..])
  }

  /** A write or a full write is charged its whole KB, anything else nothing ... */
  lemma KilobytesOfOne(ops: seq<SubOp>)
    ensures |ops| == 1 ==>
      Kilobytes(ops) == match ops[0].kind case Write => ops[0].length / 1024 case WriteFull => ops[0].length / 1024 case Other => 0
  {
    if |ops| == 1 {
      assert ops[1..] == [];
    }
  }

  /** ... and the operations of a request are charged one by one. */
  lemma {:induction false} KilobytesConcat(a: seq<SubOp>, b: seq<SubOp>)
    ensures Kilobytes(a + b) == Kilobytes(a) + Kilobytes(b)
  {
    if a == [] {
      assert a + b == b;
    } else {
      assert (a + b)[1..] == a[1..] + b;
      KilobytesConcat(a[1..], b);
    }
  }

  /** `duration_cast` to milliseconds. */
  function Ms(ns: nat): nat { ns / NS_PER_MS }

  /** The quota of one cycle from the ratio per second, in 32-bit arithmetic. */
  function Quota(ratio: nat, cycle: nat): nat
    requires 1 <= cycle
  {
    if cycle < SA_THOUSAND_DEC then ratio / (SA_THOUSAND_DEC / cycle)
    else (ratio * (cycle / SA_THOUSAND_DEC)) % UINT32
  }

  /** The argument `usleep` receives for a wait in milliseconds: a 32-bit product. */
  function SleepUs(ms: nat): nat { (ms * SA_THOUSAND_DEC) % UINT32 }

  // ------------------------------------------------------------------ quota arithmetic

  lemma Scaled(a: nat, b: nat, c: nat)
    requires a <= b
    ensures a * c <= b * c
  {
  }

  lemma Divided(n: nat, d: nat)
    requires d > 0
    ensures (n / d) * d <= n < (n / d) * d + d
  {
  }

  lemma Regrouped(a: nat, b: nat, c: nat)
    ensures (a * b) * c == a * (b * c) == (b * c) * a
  {
  }

  lemma AtMostTwice(ratio: nat, cycle: nat, k: nat, q: nat, t: nat)
    requires t <= 2 * (k * cycle) && q * k <= ratio
    ensures t * q <= 2 * (ratio * cycle)
  {
    Scaled(t, 2 * (k * cycle), q);
    Regrouped(q, k, cycle);
    Scaled(q * k, ratio, cycle);
  }

  lemma AtLeastRounded(ratio: nat, cycle: nat, k: nat, q: nat, t: nat)
    requires cycle > 0 && k * cycle <= t && ratio + 1 <= (q + 1) * k
    ensures ratio * cycle < t * (q + 1)
  {
    Scaled(ratio + 1, (q + 1) * k, cycle);
    Regrouped(q + 1, k, cycle);
    Scaled(k * cycle, t, q + 1);
  }

  lemma QuotaShortCycle(ratio: nat, cycle: nat)
    requires 1 <= cycle < SA_THOUSAND_DEC
    ensures SA_THOUSAND_DEC * Quota(ratio, cycle) <= 2 * (ratio * cycle)
    ensures ratio * cycle < SA_THOUSAND_DEC * (Quota(ratio, cycle) + 1)
  {
    var k := SA_THOUSAND_DEC / cycle;
    Divided(SA_THOUSAND_DEC, cycle);
    Divided(ratio, k);
    Scaled(1, k, cycle);
    AtMostTwice(ratio, cycle, k, ratio / k, SA_THOUSAND_DEC);
    AtLeastRounded(ratio, cycle, k, ratio / k, SA_THOUSAND_DEC);
  }

  lemma QuotaLongCycle(ratio: nat, cycle: nat)
    requires SA_THOUSAND_DEC <= cycle && ratio * (cycle / SA_THOUSAND_DEC) < UINT32
    ensures SA_THOUSAND_DEC * Quota(ratio, cycle) <= ratio * cycle <= 2 * (SA_THOUSAND_DEC * Quota(ratio, cycle))
  {
    var m := cycle / SA_THOUSAND_DEC;
    assert m * SA_THOUSAND_DEC <= cycle <= 2 * (m * SA_THOUSAND_DEC);
    assert ratio * (m * SA_THOUSAND_DEC) <= ratio * cycle <= ratio * (2 * (m * SA_THOUSAND_DEC));
    assert ratio * (m * SA_THOUSAND_DEC) == SA_THOUSAND_DEC * (ratio * m);
  }

  /** Without overflow the quota is within a factor of two, up to rounding, of `ratio * cycle / 1000`. */
  lemma QuotaFactorTwo(ratio: nat, cycle: nat)
    requires 1 <= cycle && ratio * (cycle / SA_THOUSAND_DEC) < UINT32
    ensures SA_THOUSAND_DEC * Quota(ratio, cycle) <= 2 * (ratio * cycle)
    ensures ratio * cycle < 2 * SA_THOUSAND_DEC * (Quota(ratio, cycle) + 1)
  {
    if cycle < SA_THOUSAND_DEC {
      QuotaShortCycle(ratio, cycle);
    } else {
      QuotaLongCycle(ratio, cycle);
    }
  }

  /**
    Below a second the quota is the largest that as many cycles as fit a second keep within the ratio;
    from a second on it is the ratio for every whole second.
   */
  lemma QuotaIs(ratio: nat, cycle: nat, q: nat)
    requires 1 <= cycle
    ensures cycle < SA_THOUSAND_DEC ==> (q <= Quota(ratio, cycle) <==> q * (SA_THOUSAND_DEC / cycle) <= ratio)
    ensures SA_THOUSAND_DEC <= cycle && ratio * (cycle / SA_THOUSAND_DEC) < UINT32 ==>
      Quota(ratio, cycle) * SA_THOUSAND_DEC == ratio * (cycle - cycle % SA_THOUSAND_DEC)
  {
    if cycle < SA_THOUSAND_DEC {
      var k := SA_THOUSAND_DEC / cycle;
      Divided(ratio, k);
      if q <= ratio / k {
        Scaled(q, ratio / k, k);
      } else {
        Scaled(ratio / k + 1, q, k);
      }
    } else {
      var m := cycle / SA_THOUSAND_DEC;
      Regrouped(ratio, m, SA_THOUSAND_DEC);
      assert m * SA_THOUSAND_DEC == cycle - cycle % SA_THOUSAND_DEC;
    }
  }

  /** A ratio of 3000000000 KB/s over two seconds wraps to less than a third of its quota. */
  lemma QuotaOverflows()
    ensures Quota(3_000_000_000, 2000) == 1_705_032_704 < (3_000_000_000 * 2000 / SA_THOUSAND_DEC) / 3
  {
  }

  // ------------------------------------------------------------------ sleep arithmetic

  /**
    A reading `t` of the clock at most a cycle after its begin: the sleep that follows reaches
    the end of the cycle exactly when the 32-bit product does not wrap.
   */
  lemma SleepReachesIff(begin: nat, t: nat, cycle: nat)
    requires begin <= t && Ms(t - begin) <= cycle
    ensures Ms(t + SleepUs(cycle - Ms(t - begin)) * NS_PER_US - begin) >= cycle <==>
            (cycle - Ms(t - begin)) * SA_THOUSAND_DEC < UINT32
  {
    var wait := (cycle - Ms(t - begin)) * SA_THOUSAND_DEC;
    assert wait == UINT32 * (wait / UINT32) + SleepUs(cycle - Ms(t - begin));
  }

  /** A sleep that fits ends in the first millisecond after the cycle. */
  lemma SleepEndsOnTime(begin: nat, t: nat, cycle: nat)
    requires begin <= t && Ms(t - begin) <= cycle && (cycle - Ms(t - begin)) * SA_THOUSAND_DEC < UINT32
    ensures Ms(t + SleepUs(cycle - Ms(t - begin)) * NS_PER_US - begin) == cycle
  {
    assert SleepUs(cycle - Ms(t - begin)) == (cycle - Ms(t - begin)) * SA_THOUSAND_DEC;
  }

  /** With `ms` of a cycle gone, the cycle is over or the microseconds to its end fit 32 bits. */
  predicate SleepFits(cycle: nat, ms: nat) {
    cycle <= ms || (cycle - ms) * SA_THOUSAND_DEC < UINT32
  }

  // ------------------------------------------------------------------ the limiter

  /** One cycle: its quota and the charges made in it, oldest first. */
  datatype Cycle = Cycle(quota: nat, charges: seq<nat>)

  ghost function Total(charges: seq<nat>): nat {
    if charges == [] then 0 else Total(charges[..|charges| - 1]) + charges[|charges| - 1]
  }

  /** Before the last charge there was room, or it was the first. */
  ghost predicate Within(c: Cycle) {
    |c.charges| <= 1 || Total(c.charges[..|c.charges| - 1]) < c.quota
  }

  /** A cycle never takes more than its quota plus its last request. */
  lemma ChargeBound(c: Cycle)
    requires Within(c) && c.charges != []
    ensures Total(c.charges) <= c.quota + c.charges[|c.charges| - 1]
  {
    assert |c.charges| == 1 ==> c.charges[..0] == [];
  }

  lemma TotalPush(charges: seq<nat>, kb: nat)
    ensures Total(charges + [kb]) == Total(charges) + kb
  {
    assert (charges + [kb])[..|charges|] == charges;
  }

  predicate SomeQuota(answers: seq<nat>) {
    exists i :: 0 <= i < |answers| && answers[i] != 0
  }

  function FirstQuota(answers: seq<nat>): (r: nat)
    requires SomeQuota(answers)
    ensures r != 0 && r in answers
  {
    if answers[0] != 0 then answers[0] else assert SomeQuota(answers[1..]); FirstQuota(answers[1..])
  }

  lemma {:induction false} FirstQuotaAt(answers: seq<nat>, i: nat)
    requires i < |answers| && answers[i] != 0 && forall j :: 0 <= j < i ==> answers[j] == 0
    ensures FirstQuota(answers) == answers[i]
  {
    if i > 0 {
      FirstQuotaAt(answers[1..], i - 1);
    }
  }

  /** How many answers come before the first ratio that is not zero. */
  function Refusals(answers: seq<nat>): nat {
    if answers == [] || answers[0] != 0 then 0 else 1 + Refusals(answers[1..])
  }

  lemma {:induction false} RefusalsAt(answers: seq<nat>, i: nat)
    requires i < |answers| && answers[i] != 0 && forall j :: 0 <= j < i ==> answers[j] == 0
    ensures Refusals(answers) == i
  {
    if i > 0 {
      RefusalsAt(answers[1..], i - 1);
    }
  }

  /** `n` sleeps of a whole cycle, in nanoseconds. */
  function Pauses(n: nat, cycle: nat): nat {
    if n == 0 then 0 else Pauses(n - 1, cycle) + SleepUs(cycle) * NS_PER_US
  }

  /** All that was charged, cycle after cycle; the field `charged` of a limiter. */
  ghost function Charged(history: seq<Cycle>): seq<nat> {
    if history == [] then [] else Charged(history[..|history| - 1]) + history[|history| - 1].charges
  }

  /** What requests are charged. */
  function Charges(requests: seq<(seq<SubOp>, seq<nat>)>): seq<nat> {
    if requests == [] then [] else Charges(requests[..|requests| - 1]) + [Kilobytes(requests[|requests| - 1].0)]
  }

  lemma ChargesPush(requests: seq<(seq<SubOp>, seq<nat>)>, i: nat, base: seq<nat>, charged: seq<nat>)
    requires i < |requests| && charged == base + Charges(requests[..i])
    ensures charged + [Kilobytes(requests[i].0)] == base + Charges(requests[..i + 1])
  {
    assert requests[..i + 1][..i] == requests[..i];
  }

  lemma ChargedLater(before: seq<Cycle>, after: seq<Cycle>, kb: nat)
    requires before != [] && |after| == |before| && after[..|after| - 1] == before[..|after| - 1]
    requires after[|after| - 1].charges == before[|after| - 1].charges + [kb]
    ensures Charged(after) == Charged(before) + [kb]
  {
  }

  lemma ChargedFresh(before: seq<Cycle>, after: seq<Cycle>)
    requires |after| == |before| + 1 && after[..|before|] == before && after[|before|].charges == []
    ensures Charged(after) == Charged(before)
  {
  }

  class Limiter {
    const getQuotaCycle: nat
    const drift: nat -> nat
    var calls: nat
    var now: nat
    var cycleBegin: nat
    var periodBW: nat
    var wcacheBW: nat
    ghost var history: seq<Cycle>
    ghost var charged: seq<nat>

    /** The configuration check admits any 32-bit cycle but zero. */
    ghost predicate Valid()
      reads this
    {
      && 1 <= getQuotaCycle < UINT32 && cycleBegin <= now
      && history != [] && history[|history| - 1].quota == wcacheBW
      && Total(history[|history| - 1].charges) == periodBW && charged == Charged(history)
    }

    /** What a return leaves: room in the cycle, or a cycle that is over. */
    ghost predicate Settled()
      reads this
      requires Valid()
    {
      periodBW < wcacheBW || Ms(now - cycleBegin) >= getQuotaCycle
    }

    ghost predicate AllWithin()
      reads this
    {
      forall i :: 0 <= i < |history| ==> Within(history[i])
    }

    constructor (cycle: nat, start: nat, drift: nat -> nat)
      requires 1 <= cycle < UINT32
      ensures Valid() && Settled() && AllWithin() && getQuotaCycle == cycle && history == [Cycle(ULLONG_MAX, [])] && charged == []
      ensures this.drift == drift && calls == 0 && now == cycleBegin == start
    {
      this.drift, calls := drift, 0;
      getQuotaCycle, now, cycleBegin, periodBW, wcacheBW := cycle, start, start, 0, ULLONG_MAX;
      history, charged := [Cycle(ULLONG_MAX, [])], [];
    }

    method Now() returns (t: nat)
      modifies this`now, this`calls
      ensures now == t == old(now) + drift(old(calls)) && calls == old(calls) + 1
    {
      now := now + drift(calls);
      calls := calls + 1;
      t := now;
    }

    method SleepMs(ms: nat)
      modifies this`now, this`calls
      ensures now == old(now) + SleepUs(ms) * NS_PER_US + drift(old(calls)) && calls == old(calls) + 1
    {
      now := now + SleepUs(ms) * NS_PER_US + drift(calls);
      calls := calls + 1;
    }

    /** The quota loop: ask until the ratio is not zero, then open a cycle. */
    method OpenCycle(answers: seq<nat>)
      requires Valid() && SomeQuota(answers)
      modifies this
      ensures Valid() && periodBW == 0 && wcacheBW == Quota(FirstQuota(answers), getQuotaCycle)
      ensures now == cycleBegin >= old(now) && calls > old(calls) && history == old(history) + [Cycle(wcacheBW, [])]
      ensures charged == old(charged)
      ensures calls == old(calls) + Refusals(answers) + 1 && now >= old(now) + Pauses(Refusals(answers), getQuotaCycle)
    {
      var i := 0;
      var writeRatio := answers[0];
      while writeRatio == 0
        invariant 0 <= i < |answers| && writeRatio == answers[i]
        invariant now >= old(now) + Pauses(i, getQuotaCycle) && calls == old(calls) + i
        invariant forall j :: 0 <= j < i ==> answers[j] == 0
        invariant cycleBegin == old(cycleBegin) && history == old(history) && charged == old(charged)
        decreases |answers| - i
      {
        wcacheBW := Quota(writeRatio, getQuotaCycle);
        SleepMs(getQuotaCycle);
        i := i + 1;
        writeRatio := answers[i];
      }
      FirstQuotaAt(answers, i);
      RefusalsAt(answers, i);
      wcacheBW := Quota(writeRatio, getQuotaCycle);
      periodBW := 0;
      cycleBegin := Now();
      history := history + [Cycle(wcacheBW, [])];
      ChargedFresh(old(history), history);
    }

    /** The charging loop over the operations of a request. */
    method ChargeOps(ops: seq<SubOp>)
      requires Valid()
      modifies this`periodBW, this`history, this`charged
      ensures Valid() && periodBW == old(periodBW) + Kilobytes(ops)
      ensures |history| == |old(history)| && history[..|history| - 1] == old(history)[..|history| - 1]
      ensures history[|history| - 1].charges == old(history[|history| - 1].charges) + [Kilobytes(ops)]
      ensures AllWithin() <==> old(AllWithin()) && (old(history[|history| - 1].charges) == [] || old(periodBW) < wcacheBW)
      ensures charged == old(charged) + [Kilobytes(ops)]
      ensures |ops| == 1 ==>
        (var kb := periodBW - old(periodBW);
         kb == match ops[0].kind case Write => ops[0].length / 1024 case WriteFull => ops[0].length / 1024 case Other => 0)
    {
      KilobytesOfOne(ops);
      var i := 0;
      while i < |ops|
        invariant 0 <= i <= |ops| && periodBW + Kilobytes(ops[i..]) == old(periodBW) + Kilobytes(ops)
        invariant history == old(history) && charged == old(charged)
      {
        assert ops[i..][1..] == ops[i + 1..];
        if ops[i].kind.Write? || ops[i].kind.WriteFull? {
          periodBW := periodBW + ops[i].length / 1024;
        }
        i := i + 1;
      }
      ghost var last := history[|history| - 1];
      TotalPush(last.charges, Kilobytes(ops));
      history := history[|history| - 1 := Cycle(last.quota, last.charges + [Kilobytes(ops)])];
      WithinKept(old(history), history, Kilobytes(ops));
      ChargedLater(old(history), history, Kilobytes(ops));
      charged := charged + [Kilobytes(ops)];
    }

    /** What the clock shows next, in milliseconds of the cycle. */
    ghost function NextMs(): nat
      reads this
      requires Valid()
    {
      Ms(now + drift(calls) - cycleBegin)
    }

    /** When a request that has been charged returns: at once if there is room, else once it has slept. */
    ghost function ReturnsAt(): nat
      reads this
      requires Valid()
    {
      var t := now + drift(calls);
      if periodBW < wcacheBW then now
      else if NextMs() >= getQuotaCycle then t
      else t + SleepUs(getQuotaCycle - NextMs()) * NS_PER_US + drift(calls + 1)
    }

    /**
      A request that has filled its cycle sleeps until the cycle is over. Without oversleeping, it
      leaves room or a cycle that is over exactly when the microseconds to sleep fit 32 bits.
     */
    method WaitForCycle()
      requires Valid()
      modifies this`now, this`calls
      ensures Valid() && now == old(ReturnsAt()) >= old(now) && calls >= old(calls)
      ensures getQuotaCycle * SA_THOUSAND_DEC < UINT32 ==> Settled()
      ensures drift(old(calls) + 1) == 0 ==>
        (Settled() <==> periodBW < wcacheBW || SleepFits(getQuotaCycle, old(NextMs())))
    {
      if periodBW >= wcacheBW {
        var nowTime := Now();
        var timeInterval := Ms(nowTime - cycleBegin);
        if timeInterval <= getQuotaCycle {
          var iWait := getQuotaCycle - timeInterval;
          if iWait != 0 {
            SleepReachesIff(cycleBegin, nowTime, getQuotaCycle);
            SleepMs(iWait);
          }
        }
      }
    }

    /** Whether the call found the current cycle over, nothing charged to it yet, or room in it. */
    ghost predicate InTime()
      reads this
      requires Valid()
    {
      NextMs() >= getQuotaCycle || history[|history| - 1].charges == [] || periodBW < wcacheBW
    }

    /** The turn of the cycle: a new one is opened if the clock shows that this one is over. */
    method Turn(answers: seq<nat>) returns (begun: bool)
      requires Valid() && SomeQuota(answers)
      modifies this
      ensures Valid() && now >= old(now) && calls > old(calls) && (AllWithin() <==> old(AllWithin()))
      ensures charged == old(charged)
      ensures begun <==> old(NextMs()) >= getQuotaCycle
      ensures begun ==> periodBW == 0 && wcacheBW == Quota(FirstQuota(answers), getQuotaCycle) && now == cycleBegin
      ensures begun ==> history[|history| - 1].charges == []
      ensures !begun ==> periodBW == old(periodBW) && wcacheBW == old(wcacheBW) && history == old(history)
      ensures !begun ==> cycleBegin == old(cycleBegin) && now - cycleBegin == old(now + drift(calls) - cycleBegin)
    {
      var nowTime := Now();
      begun := Ms(nowTime - cycleBegin) >= getQuotaCycle;
      if begun {
        ghost var before := history;
        OpenCycle(answers);
        FreshWithin(before, history);
      }
    }

    /** The turn of the cycle, then the charge. */
    method Charge(ops: seq<SubOp>, answers: seq<nat>) returns (begun: bool)
      requires Valid() && SomeQuota(answers)
      modifies this
      ensures Valid() && now >= old(now) && calls > old(calls)
      ensures begun <==> old(NextMs()) >= getQuotaCycle
      ensures begun ==> periodBW == Kilobytes(ops) && wcacheBW == Quota(FirstQuota(answers), getQuotaCycle)
      ensures !begun ==> periodBW == old(periodBW) + Kilobytes(ops) && wcacheBW == old(wcacheBW) && cycleBegin == old(cycleBegin)
      ensures Ms(now - cycleBegin) == if begun then 0 else old(NextMs())
      ensures history[|history| - 1].charges == (if begun then [] else old(history[|history| - 1].charges)) + [Kilobytes(ops)]
      ensures AllWithin() <==> old(AllWithin()) && old(InTime())
      ensures charged == old(charged) + [Kilobytes(ops)]
    {
      begun := Turn(answers);
      ChargeOps(ops);
    }

    /**
      `begun` tells whether the call opened a new cycle. The law breaks exactly at a call that finds
      a filled cycle not over; without oversleeping a call leaves one exactly when the microseconds
      it has to sleep do not fit 32 bits.
     */
    method LimitWrite(ops: seq<SubOp>, answers: seq<nat>) returns (begun: bool)
      requires Valid() && SomeQuota(answers)
      modifies this
      ensures Valid() && now >= old(now) && calls > old(calls)
      ensures getQuotaCycle * SA_THOUSAND_DEC < UINT32 ==> Settled()
      ensures begun <==> old(NextMs()) >= getQuotaCycle
      ensures begun ==> periodBW == Kilobytes(ops) && wcacheBW == Quota(FirstQuota(answers), getQuotaCycle)
      ensures !begun ==> periodBW == old(periodBW) + Kilobytes(ops) && wcacheBW == old(wcacheBW)
      ensures !begun ==> cycleBegin == old(cycleBegin)
      ensures history[|history| - 1].charges == (if begun then [] else old(history[|history| - 1].charges)) + [Kilobytes(ops)]
      ensures AllWithin() <==> old(AllWithin()) && old(InTime())
      ensures charged == old(charged) + [Kilobytes(ops)]
      ensures (forall k :: k > old(calls) ==> drift(k) == 0) ==>
        (Settled() <==> periodBW < wcacheBW || SleepFits(getQuotaCycle, if begun then 0 else old(NextMs())))
    {
      begun := Charge(ops, answers);
      ghost var k, elapsed := calls, if begun then 0 else old(NextMs());
      assert (forall j :: j > old(calls) ==> drift(j) == 0) ==> drift(k) == 0 && drift(k + 1) == 0 && NextMs() == elapsed;
      WaitForCycle();
    }

    /**
      Any run of requests: every cycle in its history kept to the law exactly when every call was in
      time, and it always did unless a sleep can wrap.
     */
    method Serve(requests: seq<(seq<SubOp>, seq<nat>)>) returns (ghost inTime: seq<bool>)
      requires Valid() && Settled() && AllWithin()
      requires forall i :: 0 <= i < |requests| ==> SomeQuota(requests[i].1)
      modifies this
      ensures Valid() && |inTime| == |requests| && (AllWithin() <==> false !in inTime)
      ensures getQuotaCycle * SA_THOUSAND_DEC < UINT32 ==> Settled() && AllWithin()
      ensures charged == old(charged) + Charges(requests)
    {
      inTime := [];
      ghost var base, done := charged, charged;
      for i := 0 to |requests|
        invariant charged == done && done == base + Charges(requests[..i])
        invariant Valid() && |inTime| == i && (AllWithin() <==> false !in inTime)
        invariant getQuotaCycle * SA_THOUSAND_DEC < UINT32 ==> Settled() && AllWithin()
      {
        ChargesPush(requests, i, base, done);
        inTime, done := inTime + [InTime()], done + [Kilobytes(requests[i].0)];
        var begun := LimitWrite(requests[i].0, requests[i].1);
      }
      assert requests[..|requests|] == requests;
    }
  }

  /**
    A cycle of 4294968 ms, which the start-up check accepts: 5000 KB are charged to a quota of 4294 KB,
    the sleep lasts 704 microseconds, and the call returns with the quota filled and the cycle hardly begun.
   */
  method OverlongCycle() returns (l: Limiter)
    ensures l.Valid() && l.getQuotaCycle == 4_294_968 && l.periodBW == 5000 && l.wcacheBW == 4294 && !l.Settled()
  {
    var ops, answers := [SubOp(Write, 5000 * 1024)], [1];
    OneWrite(5000, ops, 4_294_968, answers);
    l := new Limiter(4_294_968, 0, _ => 0);
    l.OpenCycle(answers);
    l.ChargeOps(ops);
    l.WaitForCycle();
  }

  lemma OneWrite(kb: nat, ops: seq<SubOp>, cycle: nat, answers: seq<nat>)
    requires ops == [SubOp(Write, kb * 1024)] && SA_THOUSAND_DEC <= cycle < UINT32 && answers == [1]
    ensures Kilobytes(ops) == kb && SomeQuota(answers) && FirstQuota(answers) == 1 && Quota(1, cycle) == cycle / SA_THOUSAND_DEC
  {
    assert answers[0] == 1;
    assert Kilobytes(ops) == kb * 1024 / 1024 + Kilobytes(ops[1..]);
  }

  /** One request that fills the quota of a cycle whose sleep wraps returns with the cycle full and not over. */
  method FillCycle(l: Limiter, ops: seq<SubOp>, answers: seq<nat>)
    requires l.Valid() && l.NextMs() >= l.getQuotaCycle && UINT32 <= l.getQuotaCycle * SA_THOUSAND_DEC
    requires forall k :: k > l.calls ==> l.drift(k) == 0
    requires SomeQuota(answers) && Kilobytes(ops) == Quota(FirstQuota(answers), l.getQuotaCycle)
    modifies l
    ensures l.Valid() && !l.InTime()
  {
    var begun := l.LimitWrite(ops, answers);
    assert !l.Settled() && l.drift(l.calls) == 0;
  }

  /**
    Every cycle of 4294968 ms and more that the start-up check accepts has a run that breaks the law: two
    requests that fill the quota, on a clock that never oversleeps.
   */
  method BreakingRun(cycle: nat) returns (l: Limiter)
    requires cycle < UINT32 <= cycle * SA_THOUSAND_DEC
    ensures l.Valid() && l.getQuotaCycle == cycle && !l.AllWithin()
  {
    var kb := cycle / SA_THOUSAND_DEC;
    var ops, answers := [SubOp(Write, kb * 1024)], [1];
    OneWrite(kb, ops, cycle, answers);
    l := new Limiter(cycle, 0, k => if k == 0 then cycle * NS_PER_MS else 0);
    assert l.NextMs() == Ms(cycle * NS_PER_MS) == cycle;
    FillCycle(l, ops, answers);
    var begun := l.LimitWrite(ops, answers);
  }

  /** Opening a cycle changes no verdict. */
  lemma FreshWithin(before: seq<Cycle>, after: seq<Cycle>)
    requires |after| == |before| + 1 && after[..|before|] == before && after[|before|].charges == []
    ensures (forall i :: 0 <= i < |after| ==> Within(after[i])) <==> (forall i :: 0 <= i < |before| ==> Within(before[i]))
  {
    assert forall i :: 0 <= i < |before| ==> after[i] == after[..|before|][i] == before[i];
  }

  /** A charge keeps every cycle within exactly when it goes to a cycle with room or to a fresh one. */
  lemma WithinKept(before: seq<Cycle>, after: seq<Cycle>, kb: nat)
    requires before != [] && |after| == |before| && after[..|after| - 1] == before[..|after| - 1]
    requires after[|after| - 1] == Cycle(before[|after| - 1].quota, before[|after| - 1].charges + [kb])
    ensures var last := before[|before| - 1];
            (forall i :: 0 <= i < |before| ==> Within(before[i])) && (last.charges == [] || Total(last.charges) < last.quota)
            <==> (forall i :: 0 <= i < |after| ==> Within(after[i]))
  {
    var n := |after| - 1;
    assert forall i :: 0 <= i < n ==> after[i] == after[..n][i] == before[..n][i] == before[i];
    assert after[n].charges[..|after[n].charges| - 1] == before[n].charges;
  }
}
