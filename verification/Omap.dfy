/**
  Omap payloads on the wire: strings are a 32-bit little-endian length and the bytes, a map is
  a count and its keys and values in turn. The server adaptor cuts a map out of a request
  without decoding it, decodes the copy into an ordered map, and encodes replies by hand.

  Decoding past the end of a buffer throws in the source; here it gives `None`.
 */
module Omap {

  const UINT32: nat := 0x1_0000_0000

  type Byte = x: int | 0 <= x < 256
  type Bytes = seq<Byte>

  datatype Option<T> = None | Some(value: T)
  datatype Read<T> = Read(item: T, rest: Bytes)
  datatype Pair = Pair(key: Bytes, value: Bytes)

  // ------------------------------------------------------------------ strings

  /** The low `k` bytes of `n`, the lowest first. */
  function Little(n: nat, k: nat): (b: Bytes)
    ensures |b| == k
  {
    if k == 0 then [] else [n % 256] + Little(n / 256, k - 1)
  }

  function ReadLittle(s: Bytes, k: nat): nat
    requires |s| >= k
  {
    if k == 0 then 0 else (s[0] as nat) + 256 * ReadLittle(s[1..], k - 1)
  }

  function Bound(k: nat): (b: nat)
    ensures b > 0
  {
    if k == 0 then 1 else 256 * Bound(k - 1)
  }

  lemma {:induction false} LittleRoundTrip(n: nat, k: nat, rest: Bytes)
    requires n < Bound(k)
    ensures ReadLittle(Little(n, k) + rest, k) == n && (Little(n, k) + rest)[k..] == rest
  {
    if k > 0 {
      LittleRoundTrip(n / 256, k - 1, rest);
      assert (Little(n, k) + rest)[1..] == Little(n / 256, k - 1) + rest;
    }
  }

  lemma {:induction false} ReadLittleBound(s: Bytes, k: nat)
    requires |s| >= k
    ensures ReadLittle(s, k) < Bound(k)
  {
    if k > 0 {
      ReadLittleBound(s[1..], k - 1);
    }
  }

  function U32(n: nat): (b: Bytes)
    requires n < UINT32
    ensures |b| == 4
  {
    Little(n, 4)
  }

  function ReadU32(s: Bytes): (n: nat)
    requires |s| >= 4
    ensures n < UINT32
  {
    assert Bound(4) == UINT32 by { assert Bound(1) == 256 && Bound(2) == 65536 && Bound(3) == 16777216; }
    ReadLittleBound(s, 4);
    ReadLittle(s, 4)
  }

  lemma U32RoundTrip(n: nat, rest: Bytes)
    requires n < UINT32
    ensures ReadU32(U32(n) + rest) == n && (U32(n) + rest)[4..] == rest
  {
    assert Bound(4) == UINT32 by { assert Bound(1) == 256 && Bound(2) == 65536 && Bound(3) == 16777216; }
    LittleRoundTrip(n, 4, rest);
  }

  lemma LittleNext(n: nat, k: nat)
    ensures Little(n, k + 1) == [n % 256] + Little(n / 256, k)
  {
  }

  /** A length is written with its lowest byte first. */
  lemma U32OnTheWire(n: nat, b: Bytes)
    requires n < UINT32 && b == U32(n)
    ensures |b| == 4 && b[0] == n % 256 && b[1] == n / 256 % 256 && b[2] == n / 65536 % 256 && b[3] == n / 16777216
  {
    assert n / 256 / 256 == n / 65536 && n / 65536 / 256 == n / 16777216 < 256;
    LittleNext(n / 16777216, 0);
    LittleNext(n / 65536, 1);
    LittleNext(n / 256, 2);
    LittleNext(n, 3);
  }

  lemma Reassembled(n: nat)
    ensures n % 256 + 256 * (n / 256 % 256) + 65536 * (n / 65536 % 256) + 16777216 * (n / 16777216) == n
  {
    var b, c, d := n / 256, n / 65536, n / 16777216;
    assert b / 256 == c && c / 256 == d;
    assert n == 256 * b + n % 256 && b == 256 * c + b % 256 && c == 256 * d + c % 256;
  }

  function EncodeStr(x: Bytes): (b: Bytes)
    requires |x| < UINT32
  {
    U32(|x|) + x
  }

  /** A string on the wire: four bytes of length, then its bytes. */
  lemma StrOnTheWire(x: Bytes, b: Bytes)
    requires |x| < UINT32 && b == EncodeStr(x)
    ensures |b| == 4 + |x| && b[4..] == x
    ensures (b[0] as nat) + 256 * (b[1] as nat) + 65536 * (b[2] as nat) + 16777216 * (b[3] as nat) == |x|
  {
    U32OnTheWire(|x|, U32(|x|));
    Reassembled(|x|);
  }

  function ReadStr(s: Bytes): Option<Read<Bytes>> {
    if |s| < 4 || |s| - 4 < ReadU32(s) then None
    else Some(Read(s[4..4 + ReadU32(s)], s[4 + ReadU32(s)..]))
  }

  lemma StrRoundTrip(x: Bytes, rest: Bytes)
    requires |x| < UINT32
    ensures ReadStr(EncodeStr(x) + rest) == Some(Read(x, rest))
  {
    U32RoundTrip(|x|, x + rest);
    var s := EncodeStr(x) + rest;
    assert s == U32(|x|) + (x + rest);
    assert s[4..4 + |x|] == x && s[4 + |x|..] == rest;
  }

  // ------------------------------------------------------------------ sequences of strings

  ghost predicate Short(ss: seq<Bytes>) {
    forall i :: 0 <= i < |ss| ==> |ss[i]| < UINT32
  }

  ghost function EncodeStrs(ss: seq<Bytes>): Bytes
    requires Short(ss)
  {
    if ss == [] then [] else EncodeStr(ss[0]) + EncodeStrs(ss[1..])
  }

  ghost function ReadStrs(s: Bytes, n: nat): Option<Read<seq<Bytes>>> {
    if n == 0 then Some(Read([], s))
    else
      match ReadStr(s)
      case None => None
      case Some(head) =>
        match ReadStrs(head.rest, n - 1)
        case None => None
        case Some(tail) => Some(Read([head.item] + tail.item, tail.rest))
  }

  lemma ReadFirst(ss: seq<Bytes>, rest: Bytes)
    requires Short(ss) && ss != []
    ensures ReadStr(EncodeStrs(ss) + rest) == Some(Read(ss[0], EncodeStrs(ss[1..]) + rest))
  {
    FirstOf(EncodeStrs(ss), ss[0], EncodeStrs(ss[1..]), rest);
  }

  lemma FirstOf(s: Bytes, x: Bytes, tail: Bytes, rest: Bytes)
    requires |x| < UINT32 && s == EncodeStr(x) + tail
    ensures ReadStr(s + rest) == Some(Read(x, tail + rest))
  {
    assert s + rest == EncodeStr(x) + (tail + rest);
    StrRoundTrip(x, tail + rest);
  }

  lemma {:induction false} StrsRoundTrip(ss: seq<Bytes>, rest: Bytes)
    requires Short(ss)
    ensures ReadStrs(EncodeStrs(ss) + rest, |ss|) == Some(Read(ss, rest))
  {
    if ss == [] {
      assert EncodeStrs(ss) + rest == rest;
    } else {
      StrsRoundTrip(ss[1..], rest);
      ReadFirst(ss, rest);
      OneMoreStr(ss, rest, EncodeStrs(ss) + rest, EncodeStrs(ss[1..]) + rest);
    }
  }

  lemma OneMoreStr(ss: seq<Bytes>, rest: Bytes, s: Bytes, tail: Bytes)
    requires ss != [] && ReadStr(s) == Some(Read(ss[0], tail)) && ReadStrs(tail, |ss| - 1) == Some(Read(ss[1..], rest))
    ensures ReadStrs(s, |ss|) == Some(Read(ss, rest))
  {
    ReadOneMore(s, |ss|, ss[0], tail, ss[1..], rest);
    assert ss == [ss[0]] + ss[1..];
  }

  lemma ReadOneMore(s: Bytes, n: nat, head: Bytes, tail: Bytes, items: seq<Bytes>, rest: Bytes)
    requires n > 0 && ReadStr(s) == Some(Read(head, tail)) && ReadStrs(tail, n - 1) == Some(Read(items, rest))
    ensures ReadStrs(s, n) == Some(Read([head] + items, rest))
  {
  }

  /** Asking for more strings than were written fails when fewer than four bytes follow. */
  lemma {:induction false} TooFewStrs(ss: seq<Bytes>, rest: Bytes, n: nat)
    requires Short(ss) && n > |ss| && |rest| < 4
    ensures ReadStrs(EncodeStrs(ss) + rest, n) == None
  {
    if ss == [] {
      assert EncodeStrs(ss) + rest == rest;
    } else {
      ReadFirst(ss, rest);
      TooFewStrs(ss[1..], rest, n - 1);
    }
  }

  // ------------------------------------------------------------------ cutting a map out of a request

  ghost function Items(ps: seq<Pair>): (ss: seq<Bytes>)
    ensures |ss| == 2 * |ps|
  {
    if ps == [] then [] else [ps[0].key, ps[0].value] + Items(ps[1..])
  }

  /** Keys and values in turn. */
  lemma {:induction false} ItemsAt(ps: seq<Pair>, i: nat)
    requires i < |ps|
    ensures Items(ps)[2 * i] == ps[i].key && Items(ps)[2 * i + 1] == ps[i].value
  {
    if i > 0 {
      ItemsAt(ps[1..], i - 1);
    }
  }

  ghost function EncodeMap(ps: seq<Pair>): Bytes
    requires |ps| < UINT32 && Short(Items(ps))
  {
    U32(|ps|) + EncodeStrs(Items(ps))
  }

  /** What remains after `n` strings. */
  ghost function SkipStrs(s: Bytes, n: nat): Option<Bytes> {
    if n == 0 then Some(s)
    else
      match ReadStr(s)
      case None => None
      case Some(head) => SkipStrs(head.rest, n - 1)
  }

  lemma {:induction false} SkipIsRead(s: Bytes, n: nat)
    ensures SkipStrs(s, n) == match ReadStrs(s, n) case None => None case Some(r) => Some(r.rest)
  {
    if n > 0 && ReadStr(s).Some? {
      SkipIsRead(ReadStr(s).value.rest, n - 1);
    }
  }

  ghost function SkipMap(s: Bytes): Option<Bytes> {
    if |s| < 4 then None else SkipStrs(s[4..], 2 * ReadU32(s))
  }

  /** Where a string that begins at `p` ends, if it does. */
  ghost function StrEnd(buf: Bytes, p: nat): (q: Option<nat>)
    requires p <= |buf|
    ensures q.Some? ==> p < q.value <= |buf| && ReadStr(buf[p..]).Some? && ReadStr(buf[p..]).value.rest == buf[q.value..]
    ensures q.None? ==> ReadStr(buf[p..]).None?
  {
    match ReadStr(buf[p..])
    case None => None
    case Some(r) => Some(|buf| - |r.rest|)
  }

  /** `ends` tells of every position of `buf` where a string that begins there ends. */
  ghost predicate EndsOf(buf: Bytes, ends: seq<Option<nat>>) {
    |ends| == |buf| + 1 && forall p: nat {:trigger StrEnd(buf, p)} :: p <= |buf| ==> ends[p] == StrEnd(buf, p)
  }

  lemma MakeEnds(buf: Bytes) returns (ends: seq<Option<nat>>)
    ensures EndsOf(buf, ends)
  {
    ends := seq(|buf| + 1, p requires 0 <= p <= |buf| => StrEnd(buf, p));
  }

  /** Where a pair of strings that begins at `p` ends, and where `n` of them do. */
  ghost function PairEnd(ends: seq<Option<nat>>, p: nat): Option<nat> {
    if p < |ends| && ends[p].Some? && ends[p].value < |ends| then ends[ends[p].value] else None
  }

  ghost function PairsEnd(ends: seq<Option<nat>>, p: nat, n: nat): Option<nat>
    decreases n
  {
    if n == 0 then Some(p)
    else match PairEnd(ends, p) case None => None case Some(q) => PairsEnd(ends, q, n - 1)
  }

  lemma SkipOneStr(buf: Bytes, ends: seq<Option<nat>>, p: nat, n: nat)
    requires p <= |buf| && EndsOf(buf, ends) && n > 0
    ensures ends[p] == None ==> SkipStrs(buf[p..], n) == None
    ensures ends[p].Some? ==> ends[p].value <= |buf| && SkipStrs(buf[p..], n) == SkipStrs(buf[ends[p].value..], n - 1)
  {
    assert ends[p] == StrEnd(buf, p);
  }

  lemma SkipOnePair(buf: Bytes, ends: seq<Option<nat>>, p: nat, n: nat)
    requires p <= |buf| && EndsOf(buf, ends) && n > 1
    ensures match PairEnd(ends, p)
            case None => SkipStrs(buf[p..], n) == None
            case Some(q) => q <= |buf| && SkipStrs(buf[p..], n) == SkipStrs(buf[q..], n - 2)
  {
    SkipOneStr(buf, ends, p, n);
    if ends[p].Some? {
      SkipOneStr(buf, ends, ends[p].value, n - 1);
    }
  }

  lemma {:induction false} PairsEndIs(buf: Bytes, ends: seq<Option<nat>>, p: nat, n: nat, m: nat)
    requires p <= |buf| && EndsOf(buf, ends) && m == 2 * n
    ensures match PairsEnd(ends, p, n)
            case None => SkipStrs(buf[p..], m) == None
            case Some(q) => q <= |buf| && SkipStrs(buf[p..], m) == Some(buf[q..])
    decreases n
  {
    if n > 0 {
      SkipOnePair(buf, ends, p, m);
      if PairEnd(ends, p).Some? {
        PairsEndIs(buf, ends, PairEnd(ends, p).value, n - 1, m - 2);
      }
    }
  }

  /** `decode(l, p); p.advance(l);` at position `p`. */
  method SkipOne(buf: Bytes, p: nat, ghost ends: seq<Option<nat>>) returns (ok: bool, l: nat, next: nat)
    requires p <= |buf| && EndsOf(buf, ends)
    ensures ends[p] == if ok then Some(next) else None
    ensures ok ==> next == p + 4 + l <= |buf|
  {
    ok, l, next := false, 0, p;
    if |buf| - p >= 4 {
      l := ReadU32(buf[p..]);
      if |buf| - p - 4 >= l {
        ok, next := true, p + 4 + l;
      }
    }
    assert StrEnd(buf, p) == if ok then Some(next) else None;
  }

  /** The body of the loop: a key, then a value; the length is kept in 32 bits. */
  method SkipPair(buf: Bytes, p: nat, len: nat, ghost ends: seq<Option<nat>>, ghost n: nat)
    returns (ok: bool, next: nat, total: nat)
    requires len <= p <= |buf| < UINT32 && n > 0 && EndsOf(buf, ends)
    ensures !ok ==> PairsEnd(ends, p, n) == None
    ensures ok ==> p < next <= |buf| && PairsEnd(ends, p, n) == PairsEnd(ends, next, n - 1) && total == len + (next - p)
  {
    total := len;
    var l;
    ok, l, next := SkipOne(buf, p, ends);
    if ok {
      total := (total + 4 + l) % UINT32;
      ok, l, next := SkipOne(buf, next, ends);
      total := (total + 4 + l) % UINT32;
    }
  }

  /** The loop of `decode_str_str_map_to_bl`: `count` pairs from position `from`, the length kept beside it. */
  method SkipPairs(buf: Bytes, from: nat, count: nat, start: nat, ghost ends: seq<Option<nat>>)
    returns (ok: bool, p: nat, len: nat)
    requires start <= from <= |buf| < UINT32 && EndsOf(buf, ends)
    ensures PairsEnd(ends, from, count) == if ok then Some(p) else None
    ensures ok ==> from <= p <= |buf| && len == p - start
  {
    ok, p, len := true, from, from - start;
    ghost var goal := PairsEnd(ends, from, count);
    var n := count;
    while n > 0
      invariant ok && from <= p <= |buf| && len == p - start
      invariant PairsEnd(ends, p, n) == goal
    {
      ok, p, len := SkipPair(buf, p, len, ends, n);
      n := n - 1;
      if !ok {
        return;
      }
    }
  }

  /** `decode_str_str_map_to_bl`. */
  method DecodeStrStrMapToBl(buf: Bytes, start: nat) returns (ok: bool, p: nat, out: Bytes)
    requires start <= |buf| < UINT32
    ensures ok <==> SkipMap(buf[start..]).Some?
    ensures ok ==> start <= p <= |buf| && SkipMap(buf[start..]).value == buf[p..] && out == buf[start..p]
  {
    ok, p, out := false, start, [];
    if |buf| - p < 4 {
      return;
    }
    var n := ReadU32(buf[p..]);
    ghost var ends := MakeEnds(buf);
    assert buf[start..][4..] == buf[start + 4..];
    PairsEndIs(buf, ends, start + 4, n, 2 * n);
    var len;
    ok, p, len := SkipPairs(buf, start + 4, n, start, ends);
    if ok {
      out := buf[start..start + len];
    }
  }

  lemma MapHead(ps: seq<Pair>, suffix: Bytes)
    requires |ps| < UINT32 && Short(Items(ps))
    ensures var s := EncodeMap(ps) + suffix;
            |s| >= 4 && ReadU32(s) == |ps| && s[4..] == EncodeStrs(Items(ps)) + suffix
  {
    var items := EncodeStrs(Items(ps));
    assert U32(|ps|) + items + suffix == U32(|ps|) + (items + suffix);
    U32RoundTrip(|ps|, items + suffix);
  }

  lemma SkipsEncoded(ss: seq<Bytes>, suffix: Bytes)
    requires Short(ss)
    ensures SkipStrs(EncodeStrs(ss) + suffix, |ss|) == Some(suffix)
  {
    StrsRoundTrip(ss, suffix);
    SkipIsRead(EncodeStrs(ss) + suffix, |ss|);
  }

  lemma SkipMapAt(s: Bytes, ss: seq<Bytes>, suffix: Bytes)
    requires |s| >= 4 && 2 * ReadU32(s) == |ss| && Short(ss) && s[4..] == EncodeStrs(ss) + suffix
    ensures SkipMap(s) == Some(suffix)
  {
    SkipsEncoded(ss, suffix);
  }

  /** Any map followed by anything: exactly the map is cut out and the reader stands at what follows. */
  lemma CutsExactly(ps: seq<Pair>, suffix: Bytes)
    requires |ps| < UINT32 && Short(Items(ps))
    ensures SkipMap(EncodeMap(ps) + suffix) == Some(suffix)
  {
    MapHead(ps, suffix);
    SkipMapAt(EncodeMap(ps) + suffix, Items(ps), suffix);
  }

  method CutMap(ghost ps: seq<Pair>, ghost suffix: Bytes, buf: Bytes) returns (out: Bytes, p: nat)
    requires |ps| < UINT32 && Short(Items(ps)) && buf == EncodeMap(ps) + suffix && |buf| < UINT32
    ensures out == EncodeMap(ps) && p <= |buf| && buf[p..] == suffix
  {
    CutsExactly(ps, suffix);
    assert buf[0..] == buf;
    var ok;
    ok, p, out := DecodeStrStrMapToBl(buf, 0);
    assert |buf[p..]| == |suffix|;
  }

  // ------------------------------------------------------------------ the ordered map

  /** The order of `std::string`: byte by byte, a prefix first. */
  predicate Less(a: Bytes, b: Bytes) {
    b != [] && (a == [] || a[0] < b[0] || (a[0] == b[0] && Less(a[1..], b[1..])))
  }

  predicate FirstDifference(a: Bytes, b: Bytes, n: nat) {
    n <= |a| && n < |b| && a[..n] == b[..n] && (n == |a| || a[n] < b[n])
  }

  /** The order of strings by their bytes. */
  ghost predicate Before(a: Bytes, b: Bytes) {
    exists n: nat :: FirstDifference(a, b, n)
  }

  lemma {:induction false} DifferenceDecides(a: Bytes, b: Bytes, n: nat)
    requires FirstDifference(a, b, n)
    ensures Less(a, b)
  {
    if n > 0 {
      assert a[0] == a[..n][0] == b[..n][0] == b[0];
      assert a[1..][..n - 1] == a[..n][1..] == b[..n][1..] == b[1..][..n - 1];
      DifferenceDecides(a[1..], b[1..], n - 1);
    }
  }

  lemma {:induction false} DifferenceExists(a: Bytes, b: Bytes) returns (n: nat)
    requires Less(a, b)
    ensures FirstDifference(a, b, n)
  {
    n := 0;
    if a != [] && a[0] == b[0] {
      var m := DifferenceExists(a[1..], b[1..]);
      assert a[..m + 1] == [a[0]] + a[1..][..m] && b[..m + 1] == [b[0]] + b[1..][..m];
      n := m + 1;
    }
  }

  /** At the first byte that differs the smaller one decides; a prefix comes first. */
  lemma LessIff(a: Bytes, b: Bytes)
    ensures Less(a, b) <==> Before(a, b)
  {
    if Less(a, b) {
      var n := DifferenceExists(a, b);
    }
    forall n: nat | FirstDifference(a, b, n)
      ensures Less(a, b)
    {
      DifferenceDecides(a, b, n);
    }
  }

  lemma {:induction false} LessTransitive(a: Bytes, b: Bytes, c: Bytes)
    requires Less(a, b) && Less(b, c)
    ensures Less(a, c)
  {
    if a != [] && a[0] == b[0] == c[0] {
      LessTransitive(a[1..], b[1..], c[1..]);
    }
  }

  lemma {:induction false} LessTotal(a: Bytes, b: Bytes)
    ensures Less(a, b) || Less(b, a) || a == b
    ensures !(Less(a, b) && Less(b, a)) && !Less(a, a)
    decreases |a|
  {
    if a != [] && b != [] {
      LessTotal(a[1..], b[1..]);
      LessTotal(a[1..], a[1..]);
      assert a[1..] == b[1..] && a[0] == b[0] ==> a == [a[0]] + a[1..] == b;
    } else if a != [] {
      LessTotal(a[1..], a[1..]);
    }
  }

  ghost predicate Sorted(ps: seq<Pair>) {
    forall i, j :: 0 <= i < j < |ps| ==> Less(ps[i].key, ps[j].key)
  }

  /** `m[key] = value`. */
  function Put(ps: seq<Pair>, p: Pair): seq<Pair> {
    if ps == [] || Less(p.key, ps[0].key) then [p] + ps
    else if p.key == ps[0].key then [p] + ps[1..]
    else [ps[0]] + Put(ps[1..], p)
  }

  lemma {:induction false} PutSorted(ps: seq<Pair>, p: Pair)
    requires Sorted(ps)
    ensures Sorted(Put(ps, p))
    ensures forall q :: q in Put(ps, p) <==> q == p || (q in ps && q.key != p.key)
  {
    if ps != [] {
      LessTotal(p.key, ps[0].key);
      if Less(p.key, ps[0].key) {
        forall i | 0 <= i < |ps|
          ensures Less(p.key, ps[i].key) && ps[i].key != p.key
        {
          if i > 0 {
            LessTransitive(p.key, ps[0].key, ps[i].key);
          }
          LessTotal(p.key, ps[i].key);
        }
      } else if p.key == ps[0].key {
        forall i | 0 < i < |ps|
          ensures ps[i].key != p.key
        {
          LessTotal(p.key, ps[i].key);
        }
      } else {
        PutSorted(ps[1..], p);
        var r := Put(ps[1..], p);
        forall i | 0 <= i < |r|
          ensures Less(ps[0].key, r[i].key)
        {
          assert r[i] == p || r[i] in ps[1..];
        }
      }
    }
  }

  /** The map a list of pairs decodes into, in the order its items are visited. */
  function Collect(ps: seq<Pair>): seq<Pair> {
    if ps == [] then [] else Put(Collect(ps[..|ps| - 1]), ps[|ps| - 1])
  }

  ghost predicate LastWord(ps: seq<Pair>, q: Pair) {
    exists i :: 0 <= i < |ps| && ps[i] == q && NotLater(ps, i, q.key)
  }

  ghost predicate NotLater(ps: seq<Pair>, i: nat, key: Bytes) {
    forall j :: i < j < |ps| ==> ps[j].key != key
  }

  lemma LastWordPush(ps: seq<Pair>, p: Pair, q: Pair)
    ensures LastWord(ps + [p], q) <==> q == p || (LastWord(ps, q) && q.key != p.key)
  {
    var all := ps + [p];
    if LastWord(all, q) && q != p {
      var i :| 0 <= i < |all| && all[i] == q && NotLater(all, i, q.key);
      assert all[|ps|] == p;
      assert ps[i] == q && NotLater(ps, i, q.key) by {
        assert forall j :: i < j < |ps| ==> ps[j] == all[j];
      }
    }
    if q == p {
      assert all[|ps|] == q && NotLater(all, |ps|, q.key);
    } else if LastWord(ps, q) && q.key != p.key {
      var i :| 0 <= i < |ps| && ps[i] == q && NotLater(ps, i, q.key);
      assert all[i] == q && NotLater(all, i, q.key);
    }
  }

  /** The items come out in key order, each key once, with the value written last. */
  lemma {:induction false} CollectMeaning(ps: seq<Pair>)
    ensures Sorted(Collect(ps))
    ensures forall q :: q in Collect(ps) <==> LastWord(ps, q)
  {
    if ps != [] {
      var n := |ps| - 1;
      CollectMeaning(ps[..n]);
      PutSorted(Collect(ps[..n]), ps[n]);
      assert ps == ps[..n] + [ps[n]];
      forall q: Pair
        ensures q in Collect(ps) <==> LastWord(ps, q)
      {
        LastWordPush(ps[..n], ps[n], q);
      }
    }
  }

  lemma {:induction false} PutLast(ps: seq<Pair>, p: Pair)
    requires Sorted(ps + [p])
    ensures Put(ps, p) == ps + [p]
  {
    if ps != [] {
      assert (ps + [p])[0] == ps[0] && (ps + [p])[|ps|] == p;
      LessTotal(ps[0].key, p.key);
      assert ps[1..] + [p] == (ps + [p])[1..];
      PutLast(ps[1..], p);
    }
  }

  /** The items of an ordered map come out as they are. */
  lemma {:induction false} CollectOrdered(ps: seq<Pair>)
    requires Sorted(ps)
    ensures Collect(ps) == ps
  {
    if ps != [] {
      var n := |ps| - 1;
      CollectOrdered(ps[..n]);
      assert ps == ps[..n] + [ps[n]];
      PutLast(ps[..n], ps[n]);
    }
  }

  lemma NextItem(ps: seq<Pair>, i: nat)
    requires i < |ps| && Short(Items(ps[i..]))
    ensures Short(Items(ps[i + 1..])) && |ps[i].key| < UINT32 && |ps[i].value| < UINT32
    ensures EncodeStrs(Items(ps[i..])) ==
            EncodeStr(ps[i].key) + (EncodeStr(ps[i].value) + EncodeStrs(Items(ps[i + 1..])))
  {
    var ss, tail := Items(ps[i..]), Items(ps[i + 1..]);
    assert ps[i..][1..] == ps[i + 1..];
    assert ss == [ps[i].key, ps[i].value] + tail;
    assert ss[0] == ps[i].key && ss[1] == ps[i].value;
    assert forall j :: 0 <= j < |tail| ==> tail[j] == ss[j + 2];
    assert ss[1..][1..] == tail;
    assert EncodeStrs(ss[1..]) == EncodeStr(ss[1..][0]) + EncodeStrs(ss[1..][1..]);
  }

  /** What is left to decode is a key and a value, then the rest. */
  lemma ReadsNext(ps: seq<Pair>, i: nat, cur: Bytes, behind: Bytes)
    requires i < |ps| && Short(Items(ps[i..])) && cur == EncodeStrs(Items(ps[i..]))
    requires Short(Items(ps[i + 1..])) && behind == EncodeStrs(Items(ps[i + 1..]))
    ensures ReadStr(cur).Some? && ReadStr(cur).value.item == ps[i].key
    ensures ReadStr(ReadStr(cur).value.rest) == Some(Read(ps[i].value, behind))
  {
    NextItem(ps, i);
    StrRoundTrip(ps[i].key, EncodeStr(ps[i].value) + behind);
    StrRoundTrip(ps[i].value, behind);
  }

  lemma CollectNext(ps: seq<Pair>, i: nat)
    requires i < |ps|
    ensures Collect(ps[..i + 1]) == Put(Collect(ps[..i]), ps[i])
  {
    assert ps[..i + 1][..i] == ps[..i];
  }

  /** `decode` of an ordered map from a buffer that holds one. */
  method DecodeIntoMap(bl: Bytes, ghost ps: seq<Pair>) returns (m: seq<Pair>)
    requires |ps| < UINT32 && Short(Items(ps)) && bl == EncodeMap(ps)
    ensures m == Collect(ps)
  {
    MapHead(ps, []);
    assert bl + [] == bl;
    var n, cur := ReadU32(bl), bl[4..];
    assert ps[0..] == ps;
    m := DecodeItems(cur, n, ps);
  }

  method DecodeItems(first: Bytes, count: nat, ghost ps: seq<Pair>) returns (m: seq<Pair>)
    requires count == |ps| && Short(Items(ps[0..])) && first == EncodeStrs(Items(ps[0..]))
    ensures m == Collect(ps)
  {
    var n, cur := count, first;
    ghost var i: nat := 0;
    m := [];
    while n > 0
      invariant i + n == |ps| && Short(Items(ps[i..])) && cur == EncodeStrs(Items(ps[i..])) && m == Collect(ps[..i])
    {
      NextItem(ps, i);
      ReadsNext(ps, i, cur, EncodeStrs(Items(ps[i + 1..])));
      CollectNext(ps, i);
      var key := ReadStr(cur).value;
      var value := ReadStr(key.rest).value;
      m, cur, n := Put(m, Pair(key.item, value.item)), value.rest, n - 1;
      i := i + 1;
    }
    assert ps[..i] == ps;
  }

  /** Each key comes before the next ones in the order of their bytes. */
  ghost predicate Ascends(keys: seq<Bytes>) {
    forall i, j :: 0 <= i < j < |keys| ==> Before(keys[i], keys[j])
  }

  lemma KeysAscend(m: seq<Pair>, keys: seq<Bytes>)
    requires Sorted(m) && |keys| == |m| && forall i :: 0 <= i < |m| ==> keys[i] == m[i].key
    ensures Ascends(keys)
  {
    forall i, j | 0 <= i < j < |keys|
      ensures Before(keys[i], keys[j])
    {
      assert Less(m[i].key, m[j].key) && keys[i] == m[i].key && keys[j] == m[j].key;
      LessIff(keys[i], keys[j]);
    }
  }

  /** The loop over the items of the map. */
  method EmitItems(toSet: seq<Pair>) returns (keys: seq<Bytes>, values: seq<Bytes>)
    ensures |keys| == |values| == |toSet|
    ensures forall i :: 0 <= i < |keys| ==> Pair(keys[i], values[i]) == toSet[i]
  {
    keys, values := [], [];
    for i := 0 to |toSet|
      invariant |keys| == |values| == i
      invariant forall j :: 0 <= j < i ==> Pair(keys[j], values[j]) == toSet[j]
    {
      keys, values := keys + [toSet[i].key], values + [toSet[i].value];
    }
  }

  /** The OMAPSETVALS branch of `ConvertOmapOp`. */
  method ConvertOmapSetVals(indata: Bytes, ghost ps: seq<Pair>, ghost suffix: Bytes)
    returns (keys: seq<Bytes>, values: seq<Bytes>)
    requires |ps| < UINT32 && Short(Items(ps)) && indata == EncodeMap(ps) + suffix && |indata| < UINT32
    ensures |keys| == |values| == |Collect(ps)|
    ensures forall i :: 0 <= i < |keys| ==> Pair(keys[i], values[i]) == Collect(ps)[i]
    ensures Ascends(keys) && (Sorted(ps) ==> Collect(ps) == ps)
  {
    var toSetBl, p := CutMap(ps, suffix, indata);
    var toSet := DecodeIntoMap(toSetBl, ps);
    keys, values := EmitItems(toSet);
    CollectMeaning(ps);
    KeysAscend(toSet, keys);
    if Sorted(ps) {
      CollectOrdered(ps);
    }
  }

  // ------------------------------------------------------------------ replies

  ghost function NonEmpty(ss: seq<Bytes>): seq<Bytes> {
    if ss == [] then []
    else if ss[0] == [] then NonEmpty(ss[1..])
    else [ss[0]] + NonEmpty(ss[1..])
  }

  ghost predicate AllNonEmpty(ss: seq<Bytes>) {
    forall i :: 0 <= i < |ss| ==> ss[i] != []
  }

  lemma {:induction false} NonEmptyLength(ss: seq<Bytes>)
    ensures AllNonEmpty(ss) ==> NonEmpty(ss) == ss
    ensures !AllNonEmpty(ss) ==> |NonEmpty(ss)| < |ss|
    ensures |NonEmpty(ss)| <= |ss| && (Short(ss) ==> Short(NonEmpty(ss)))
  {
    if ss != [] {
      NonEmptyLength(ss[1..]);
      assert AllNonEmpty(ss) <==> ss[0] != [] && AllNonEmpty(ss[1..]) by {
        assert forall i :: 0 < i < |ss| ==> ss[i] == ss[1..][i - 1];
      }
      assert ss == [ss[0]] + ss[1..];
    }
  }

  datatype Reply = Reply(items: seq<Bytes>, more: bool)

  /** How a client reads a reply: a count, twice as many strings, a flag. */
  ghost function DecodeReply(s: Bytes): Option<Reply> {
    if |s| < 4 then None
    else
      match ReadStrs(s[4..], 2 * ReadU32(s))
      case None => None
      case Some(r) => if r.rest == [] then None else Some(Reply(r.item, r.rest[0] != 0))
  }

  ghost function Getvals(kvs: seq<Pair>): Bytes
    requires |kvs| < UINT32 && Short(NonEmpty(Items(kvs)))
  {
    U32(|kvs|) + (EncodeStrs(NonEmpty(Items(kvs))) + [0])
  }

  lemma GetvalsHead(kvs: seq<Pair>)
    requires |kvs| < UINT32 && Short(NonEmpty(Items(kvs)))
    ensures var s := Getvals(kvs);
            |s| >= 4 && ReadU32(s) == |kvs| && s[4..] == EncodeStrs(NonEmpty(Items(kvs))) + [0]
  {
    U32RoundTrip(|kvs|, EncodeStrs(NonEmpty(Items(kvs))) + [0]);
  }

  lemma DecodeBody(s: Bytes, ss: seq<Bytes>)
    requires |s| >= 4 && Short(ss) && s[4..] == EncodeStrs(ss) + [0]
    ensures 2 * ReadU32(s) == |ss| ==> DecodeReply(s) == Some(Reply(ss, false))
    ensures 2 * ReadU32(s) > |ss| ==> DecodeReply(s) == None
  {
    if 2 * ReadU32(s) == |ss| {
      StrsRoundTrip(ss, [0]);
    } else if 2 * ReadU32(s) > |ss| {
      TooFewStrs(ss, [0], 2 * ReadU32(s));
    }
  }

  lemma ReplyBody(s: Bytes, n: nat, items: seq<Bytes>)
    requires |items| == 2 * n && Short(NonEmpty(items)) && |s| >= 4 && ReadU32(s) == n
    requires s[4..] == EncodeStrs(NonEmpty(items)) + [0]
    ensures AllNonEmpty(items) ==> DecodeReply(s) == Some(Reply(items, false))
    ensures !AllNonEmpty(items) ==> DecodeReply(s) == None
  {
    NonEmptyLength(items);
    DecodeBody(s, NonEmpty(items));
  }

  /** A reply reads back as the pairs that went in exactly when no key and no value is empty; else it does not read at all. */
  lemma GetvalsIff(kvs: seq<Pair>, items: seq<Bytes>, s: Bytes)
    requires |kvs| < UINT32 && items == Items(kvs) && Short(NonEmpty(items)) && s == Getvals(kvs)
    ensures AllNonEmpty(items) <==> DecodeReply(s) == Some(Reply(items, false))
    ensures !AllNonEmpty(items) ==> DecodeReply(s) == None
  {
    GetvalsHead(kvs);
    ReplyBody(s, |kvs|, items);
  }

  lemma {:induction false} EncodePush(ss: seq<Bytes>, x: Bytes)
    requires Short(ss) && |x| < UINT32
    ensures Short(ss + [x]) && EncodeStrs(ss + [x]) == EncodeStrs(ss) + EncodeStr(x)
  {
    if ss == [] {
      assert ss + [x] == [x];
      assert EncodeStrs([x]) == EncodeStr(x) + EncodeStrs([x][1..]) == EncodeStr(x);
    } else {
      var t := ss[1..];
      EncodePush(t, x);
      assert (ss + [x])[1..] == t + [x];
      assert EncodeStr(ss[0]) + EncodeStrs(t) + EncodeStr(x) == EncodeStr(ss[0]) + (EncodeStrs(t) + EncodeStr(x));
    }
  }

  lemma {:induction false} NonEmptyPush(ss: seq<Bytes>, x: Bytes)
    ensures NonEmpty(ss + [x]) == if x == [] then NonEmpty(ss) else NonEmpty(ss) + [x]
  {
    if ss == [] {
      assert ss + [x] == [x];
    } else {
      assert (ss + [x])[1..] == ss[1..] + [x];
      NonEmptyPush(ss[1..], x);
    }
  }

  lemma {:induction false} ItemsPush(ps: seq<Pair>, p: Pair)
    ensures Items(ps + [p]) == Items(ps) + [p.key] + [p.value]
  {
    if ps == [] {
      assert ps + [p] == [p];
      assert Items([p]) == [p.key, p.value] + Items([p][1..]);
    } else {
      assert (ps + [p])[1..] == ps[1..] + [p];
      ItemsPush(ps[1..], p);
    }
  }

  /** A string is encoded unless it is empty. */
  method AppendUnlessEmpty(bl: Bytes, x: Bytes, ghost ss: seq<Bytes>) returns (out: Bytes)
    requires |x| < UINT32 && Short(NonEmpty(ss)) && bl == EncodeStrs(NonEmpty(ss))
    ensures Short(NonEmpty(ss + [x])) && out == EncodeStrs(NonEmpty(ss + [x]))
  {
    NonEmptyPush(ss, x);
    out := bl;
    if x != [] {
      EncodePush(NonEmpty(ss), x);
      out := bl + EncodeStr(x);
    }
  }

  /** `EncodeOmapGetvals`. */
  method EncodeOmapGetvals(kvs: seq<Pair>) returns (outdata: Bytes)
    requires |kvs| < UINT32 && forall i :: 0 <= i < |kvs| ==> |kvs[i].key| < UINT32 && |kvs[i].value| < UINT32
    ensures Short(NonEmpty(Items(kvs))) && outdata == Getvals(kvs)
  {
    var bl: Bytes := [];
    for j := 0 to |kvs|
      invariant Short(NonEmpty(Items(kvs[..j]))) && bl == EncodeStrs(NonEmpty(Items(kvs[..j])))
    {
      assert kvs[..j + 1] == kvs[..j] + [kvs[j]];
      ItemsPush(kvs[..j], kvs[j]);
      bl := AppendUnlessEmpty(bl, kvs[j].key, Items(kvs[..j]));
      bl := AppendUnlessEmpty(bl, kvs[j].value, Items(kvs[..j]) + [kvs[j].key]);
    }
    assert kvs[..|kvs|] == kvs;
    outdata := U32(|kvs|) + (bl + [0]);
  }
}
