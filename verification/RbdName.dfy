/**
  From the name of an RBD data object to the packed id the cache is keyed by. A name is
  `rbd_data.image.index` or `rbd_data.pool.image.index`; image and index are hexadecimal, the
  pool is decimal. The image is read with a `1` in front, so that leading zeros count.
 */
module RbdName {

  const UINT32: nat := 0x1_0000_0000
  const UINT40: nat := 0x100_0000_0000
  const UINT64: nat := 0x1_0000_0000_0000_0000
  const ULLONG_MAX: nat := UINT64 - 1

  // ------------------------------------------------------------------ strtok_r

  function RunLength(s: string): (k: nat)
    ensures k <= |s| && forall i :: 0 <= i < k ==> s[i] != '.'
    ensures k < |s| ==> s[k] == '.'
  {
    if s == "" || s[0] == '.' then 0 else 1 + RunLength(s[1..])
  }

  function SkipDots(s: string): (r: string)
    ensures |r| <= |s| && (r != "" ==> r[0] != '.')
  {
    if s == "" || s[0] != '.' then s else SkipDots(s[1..])
  }

  /** The maximal stretches without a dot. */
  function Tokens(s: string): seq<string>
    decreases |s|
  {
    var t := SkipDots(s);
    if t == "" then []
    else
      assert RunLength(t) >= 1;
      [t[..RunLength(t)]] + Tokens(t[RunLength(t)..])
  }

  method Split(name: string) returns (vecObj: seq<string>)
    ensures vecObj == Tokens(name)
  {
    vecObj := [];
    var rest := SkipDots(name);
    while rest != ""
      invariant rest != "" ==> rest[0] != '.'
      invariant vecObj + Tokens(rest) == Tokens(name)
      decreases |rest|
    {
      var k := RunLength(rest);
      OneToken(rest, k);
      AfterDots(rest[k..]);
      MoveOver(vecObj, rest[..k], Tokens(rest[k..]));
      vecObj := vecObj + [rest[..k]];
      rest := SkipDots(rest[k..]);
    }
  }

  lemma MoveOver(v: seq<string>, t: string, ts: seq<string>)
    ensures v + ([t] + ts) == v + [t] + ts
  {
  }

  lemma AfterDots(s: string)
    ensures Tokens(SkipDots(s)) == Tokens(s)
  {
    assert SkipDots(SkipDots(s)) == SkipDots(s);
  }

  predicate Token(t: string) { t != "" && forall i :: 0 <= i < |t| ==> t[i] != '.' }

  function Join(ts: seq<string>): string {
    if ts == [] then "" else if |ts| == 1 then ts[0] else ts[0] + "." + Join(ts[1..])
  }

  lemma {:induction false} RunStops(t: string, rest: string)
    requires Token(t) && (rest == "" || rest[0] == '.')
    ensures RunLength(t + rest) == |t|
  {
    if |t| == 1 {
      assert (t + rest)[1..] == rest;
    } else {
      assert (t + rest)[1..] == t[1..] + rest;
      assert t[1..][0] == t[1];
      RunStops(t[1..], rest);
    }
  }

  lemma {:induction false} TokensJoin(ts: seq<string>)
    requires forall i :: 0 <= i < |ts| ==> Token(ts[i])
    ensures Tokens(Join(ts)) == ts
  {
    if ts != [] {
      var rest := if |ts| == 1 then "" else "." + Join(ts[1..]);
      var s := ts[0] + rest;
      assert Join(ts) == s;
      RunStops(ts[0], rest);
      assert s[..|ts[0]|] == ts[0] && s[|ts[0]|..] == rest;
      if |ts| > 1 {
        TokensJoin(ts[1..]);
        assert rest[1..] == Join(ts[1..]);
        DotFirst(Join(ts[1..]));
      }
      assert ts == [ts[0]] + ts[1..];
    }
  }

  lemma DotFirst(s: string)
    ensures Tokens("." + s) == Tokens(s)
  {
    assert ("." + s)[1..] == s;
    AfterDots(s);
    AfterDots("." + s);
  }

  /** A dot ends a token wherever it stands: splitting at any dot and then splitting both sides gives the same tokens. */
  lemma {:induction false} TokensConcat(a: string, b: string)
    ensures Tokens(a + "." + b) == Tokens(a) + Tokens(b)
    decreases |a|
  {
    var s := a + "." + b;
    if a == "" {
      assert s == "." + b;
      DotFirst(b);
    } else if a[0] == '.' {
      assert a == "." + a[1..] && s == "." + (a[1..] + "." + b);
      TokensConcat(a[1..], b);
      DotFirst(a[1..]);
      DotFirst(a[1..] + "." + b);
    } else {
      var k := RunLength(a);
      RunOn(a, "." + b);
      assert s == a + ("." + b) && s[k..] == a[k..] + "." + b && s[..k] == a[..k];
      OneToken(a, k);
      OneToken(s, k);
      TokensConcat(a[k..], b);
    }
  }

  lemma OneToken(s: string, k: nat)
    requires s != "" && s[0] != '.' && k == RunLength(s)
    ensures 1 <= k && Tokens(s) == [s[..k]] + Tokens(s[k..])
  {
    assert SkipDots(s) == s;
  }

  /** A run that ends at a dot or at the end of `a` ends there too when a dot follows `a`. */
  lemma {:induction false} RunOn(a: string, rest: string)
    requires rest != "" && rest[0] == '.'
    ensures RunLength(a + rest) == RunLength(a)
  {
    if a == "" {
      assert a + rest == rest;
    } else if a[0] != '.' {
      assert (a + rest)[1..] == a[1..] + rest;
      RunOn(a[1..], rest);
    }
  }

  // ------------------------------------------------------------------ strtoull

  /** Only two bases are ever used. */
  datatype Base = Dec | Hexa

  function Radix(base: Base): nat { if base.Dec? then 10 else 16 }

  function Digit(c: char): nat {
    if '0' <= c <= '9' then (c as int) - ('0' as int)
    else if 'a' <= c <= 'f' then (c as int) - ('a' as int) + 10
    else if 'A' <= c <= 'F' then (c as int) - ('A' as int) + 10
    else 16
  }

  /** The digits are those of C, in either case ... */
  lemma DigitAt(i: nat)
    requires i < 16
    ensures Digit("0123456789abcdef"[i]) == i && Digit("0123456789ABCDEF"[i]) == i
  {
  }

  /** ... and no other. */
  lemma NoDigit(c: char)
    ensures Digit(c) >= 16 <==> !('0' <= c <= '9') && !('a' <= c <= 'f') && !('A' <= c <= 'F')
  {
  }

  predicate AllDigits(s: string, base: Base) { forall i :: 0 <= i < |s| ==> Digit(s[i]) < Radix(base) }

  /** The digits at the front of a string. */
  function Digits(s: string, base: Base): (d: string)
    ensures AllDigits(d, base)
  {
    if s == "" || Digit(s[0]) >= Radix(base) then "" else [s[0]] + Digits(s[1..], base)
  }

  lemma {:induction false} DigitsAll(s: string, base: Base)
    requires AllDigits(s, base)
    ensures Digits(s, base) == s
  {
    if s != "" {
      DigitsAll(s[1..], base);
      assert s == [s[0]] + s[1..];
    }
  }

  function Shifted(v: nat, base: Base): nat { if base.Dec? then 10 * v else 16 * v }

  function Value(d: string, base: Base): nat {
    if d == "" then 0 else Shifted(Value(d[..|d| - 1], base), base) + Digit(d[|d| - 1])
  }

  lemma ValuePush(d: string, c: char, base: Base)
    ensures Value(d + [c], base) == Shifted(Value(d, base), base) + Digit(c)
  {
    assert (d + [c])[..|d|] == d;
  }

  predicate Space(c: char) { c == ' ' || '\t' <= c <= '\r' }

  function SkipSpaces(s: string): string {
    if s == "" || !Space(s[0]) then s else SkipSpaces(s[1..])
  }

  function SkipSign(s: string): string {
    if s != "" && (s[0] == '-' || s[0] == '+') then s[1..] else s
  }

  function SkipPrefix(s: string, base: Base): string {
    if base.Hexa? && |s| >= 3 && s[0] == '0' && (s[1] == 'x' || s[1] == 'X') && Digit(s[2]) < 16 then s[2..] else s
  }

  /** `strtoull(s, 0, base)`, and `strtoul` on a 64-bit platform. */
  function Strtoull(s: string, base: Base): (v: nat)
    ensures v < UINT64
  {
    var t := SkipSpaces(s);
    Saturated(Value(Digits(SkipPrefix(SkipSign(t), base), base), base), t != "" && t[0] == '-')
  }

  function Saturated(v: nat, negative: bool): (r: nat)
    ensures r < UINT64
  {
    if v > ULLONG_MAX then ULLONG_MAX else if negative then (UINT64 - v) % UINT64 else v
  }

  lemma {:induction false} SpacesSkipped(spaces: string, t: string)
    requires (forall i :: 0 <= i < |spaces| ==> Space(spaces[i])) && (t == "" || !Space(t[0]))
    ensures SkipSpaces(spaces + t) == t
  {
    if spaces == "" {
      assert spaces + t == t;
    } else {
      assert (spaces + t)[1..] == spaces[1..] + t;
      SpacesSkipped(spaces[1..], t);
    }
  }

  lemma {:induction false} DigitsStop(d: string, rest: string, base: Base)
    requires AllDigits(d, base) && (rest == "" || Digit(rest[0]) >= Radix(base))
    ensures Digits(d + rest, base) == d
  {
    if d == "" {
      assert d + rest == rest;
    } else {
      assert (d + rest)[1..] == d[1..] + rest;
      DigitsStop(d[1..], rest, base);
      assert d == [d[0]] + d[1..];
    }
  }

  /** The number a string of digits stands for, cut to 64 bits the way C does. */
  ghost predicate Reads(v: nat, d: string, base: Base, negative: bool) {
    v == if Value(d, base) >= UINT64 then UINT64 - 1 else if negative then (UINT64 - Value(d, base)) % UINT64 else Value(d, base)
  }

  /** Spaces, a sign and `0x` before hexadecimal digits are skipped; the digits end at the first other character. */
  lemma StrtoullReads(spaces: string, sign: string, prefix: string, d: string, rest: string, base: Base)
    requires forall i :: 0 <= i < |spaces| ==> spaces[i] in " \t\n\r" || spaces[i] == 11 as char || spaces[i] == 12 as char
    requires sign in ["", "+", "-"] && AllDigits(d, base) && d != "" && (rest == "" || Digit(rest[0]) >= Radix(base))
    requires prefix == "" || (base.Hexa? && prefix in ["0x", "0X"])
    requires prefix == "" && base.Hexa? && d == "0" ==> rest == "" || (rest[0] != 'x' && rest[0] != 'X')
    ensures Reads(Strtoull(spaces + sign + prefix + d + rest, base), d, base, sign == "-")
  {
    var body := prefix + (d + rest);
    var s, t := spaces + sign + prefix + d + rest, sign + body;
    Regrouped(spaces, sign, prefix, d, rest);
    SignSkipped(sign, body);
    SpacesSkipped(spaces, t);
    PrefixSkipped(prefix, d, rest, base);
    DigitsStop(d, rest, base);
    StrtoullOn(s, t, body, d + rest, d, base, sign == "-");
  }

  lemma Regrouped(spaces: string, sign: string, prefix: string, d: string, rest: string)
    requires d != ""
    ensures spaces + sign + prefix + d + rest == spaces + (sign + (prefix + (d + rest)))
    ensures (prefix + (d + rest))[0] == if prefix == "" then d[0] else prefix[0]
  {
  }

  lemma StrtoullOn(s: string, t: string, u: string, v: string, d: string, base: Base, negative: bool)
    requires SkipSpaces(s) == t && SkipSign(t) == u && SkipPrefix(u, base) == v && Digits(v, base) == d
    requires negative <==> t != "" && t[0] == '-'
    ensures Strtoull(s, base) == Saturated(Value(d, base), negative)
  {
  }

  lemma SignSkipped(sign: string, body: string)
    requires sign in ["", "+", "-"] && body != "" && Digit(body[0]) < 16
    ensures SkipSign(sign + body) == body && !Space((sign + body)[0])
    ensures sign == "-" <==> (sign + body)[0] == '-'
  {
    if sign == "" {
      assert sign + body == body;
    } else {
      assert (sign + body)[1..] == body && (sign + body)[0] == sign[0];
    }
  }

  lemma PrefixSkipped(prefix: string, d: string, rest: string, base: Base)
    requires AllDigits(d, base) && d != "" && (rest == "" || Digit(rest[0]) >= Radix(base))
    requires prefix == "" || (base.Hexa? && prefix in ["0x", "0X"])
    requires prefix == "" && base.Hexa? && d == "0" ==> rest == "" || (rest[0] != 'x' && rest[0] != 'X')
    ensures SkipPrefix(prefix + (d + rest), base) == d + rest
  {
    var s := prefix + (d + rest);
    if prefix == "" {
      assert s == d + rest;
      if base.Hexa? && |s| >= 3 && s[0] == '0' {
        assert |d| == 1 ==> d == [d[0]] && s[1] == rest[0];
        assert |d| > 1 ==> Digit(d[1]) < 16 && s[1] == d[1];
      }
    } else {
      assert s[2] == d[0] && Digit(d[0]) < 16;
      assert s[2..] == d + rest;
    }
  }

  /** A string without a digit in front is zero. */
  lemma StrtoullOfNothing(s: string, base: Base)
    requires s == "" || (Digit(s[0]) >= Radix(base) && !Space(s[0]) && s[0] != '-' && s[0] != '+')
    ensures Strtoull(s, base) == 0
  {
  }

  lemma NothingSkipped(s: string, base: Base)
    requires AllDigits(s, base) && s != ""
    ensures SkipSpaces(s) == s && SkipSign(s) == s && SkipPrefix(s, base) == s && s[0] != '-'
  {
    assert Digit(s[0]) < Radix(base);
    assert |s| >= 3 ==> Digit(s[1]) < Radix(base);
  }

  lemma PlainNumber(s: string, base: Base)
    requires AllDigits(s, base) && s != ""
    ensures Strtoull(s, base) == Saturated(Value(s, base), false)
  {
    NothingSkipped(s, base);
    DigitsAll(s, base);
  }

  // ------------------------------------------------------------------ the packed id

  datatype Option<T> = None | Some(value: T)

  /** What the head is read from. */
  function Prefixed(image: string): (s: string)
    ensures |s| == |image| + 1 && s[0] == '1' && forall i :: 0 <= i < |image| ==> s[i + 1] == image[i]
  {
    "1" + image
  }

  lemma PrefixedPush(image: string, k: nat)
    requires |image| == k + 1
    ensures Prefixed(image) == Prefixed(image[..k]) + [image[k]]
  {
  }

  datatype Parsed =
    | NotRbd
    | Rejected
    | BadPool
    | Id(poolId: nat, head: nat, objSeq: nat, format: nat)

  function FromNumbers(pool: Option<nat>, head: nat, objSeq: nat): Parsed {
    if pool.None? then Id(0, head, objSeq % UINT40, 0)
    else if pool.value / UINT32 > 0 then BadPool
    else Id(pool.value, head, objSeq % UINT40, 1)
  }

  function FromTokens(v: seq<string>): Parsed {
    if v == [] || v[0] != "rbd_data" then NotRbd
    else if |v| < 3 then Rejected
    else FromNumbers(if |v| == 3 then None else Some(Strtoull(v[|v| - 3], Dec)),
                     Strtoull(Prefixed(v[|v| - 2]), Hexa), Strtoull(v[|v| - 1], Hexa))
  }

  function Parse(name: string): Parsed { FromTokens(Tokens(name)) }

  /** The name handling of `ProcessOpReq` for a request with at least one operation. */
  method ConvertName(name: string) returns (r: Parsed)
    ensures r == Parse(name)
  {
    var vecObj := Split(name);
    var isRbd := false;
    if |vecObj| != 0 && vecObj[0] == "rbd_data" {
      if |vecObj| >= 3 {
        isRbd := true;
      } else {
        return Rejected;
      }
    }
    if !isRbd {
      return NotRbd;
    }
    var imageId := Prefixed(vecObj[|vecObj| - 2]);
    r := Id(0, Strtoull(imageId, Hexa), Strtoull(vecObj[|vecObj| - 1], Hexa) % UINT40, 0);
    if |vecObj| > 3 {
      var poolId := Strtoull(vecObj[|vecObj| - 3], Dec);
      if poolId / UINT32 > 0 {
        return BadPool;
      }
      r := r.(poolId := poolId, format := 1);
    }
  }

  // ------------------------------------------------------------------ printing

  datatype Name = Name(pool: Option<nat>, image: string, index: nat)

  function HexDigit(n: nat): (c: char)
    requires n < 16
    ensures Digit(c) == n && LowerHex(c)
  {
    "0123456789abcdef"[n]
  }

  predicate LowerHex(c: char) { '0' <= c <= '9' || 'a' <= c <= 'f' }

  /** `n` in `w` hexadecimal digits. */
  function Hex(n: nat, w: nat): (s: string)
    ensures |s| == w && AllDigits(s, Hexa) && forall i :: 0 <= i < w ==> LowerHex(s[i])
  {
    if w == 0 then "" else Hex(n / 16, w - 1) + [HexDigit(n % 16)]
  }

  function Decimal(n: nat): (s: string)
    ensures s != "" && AllDigits(s, Dec)
  {
    if n < 10 then [HexDigit(n)] else Decimal(n / 10) + [HexDigit(n % 10)]
  }

  function Pow16(w: nat): (p: nat)
    ensures p > 0
  {
    if w == 0 then 1 else 16 * Pow16(w - 1)
  }

  lemma LastHexDigit(n: nat, p: nat)
    requires n < 16 * p
    ensures n / 16 < p && n % 16 < 16 && 16 * (n / 16) + n % 16 == n
  {
  }

  lemma HexLast(n: nat, w: nat)
    requires w > 0
    ensures Hex(n, w) == Hex(n / 16, w - 1) + [HexDigit(n % 16)]
  {
  }

  /** The value of a string `s` in front of one more digit. */
  lemma PushedValue(s: string, n: nat)
    requires AllDigits(s, Hexa) && Value(s, Hexa) == n / 16
    ensures Value(s + [HexDigit(n % 16)], Hexa) == n
  {
    ValuePush(s, HexDigit(n % 16), Hexa);
  }

  lemma {:induction false} HexValue(n: nat, w: nat)
    requires n < Pow16(w)
    ensures Value(Hex(n, w), Hexa) == n
  {
    if w > 0 {
      LastHexDigit(n, Pow16(w - 1));
      HexValue(n / 16, w - 1);
      HexLast(n, w);
      PushedValue(Hex(n / 16, w - 1), n);
    }
  }

  lemma {:induction false} DecimalValue(n: nat)
    ensures Value(Decimal(n), Dec) == n
  {
    if n < 10 {
      ValuePush("", HexDigit(n), Dec);
      assert "" + [HexDigit(n)] == [HexDigit(n)];
    } else {
      DecimalValue(n / 10);
      ValuePush(Decimal(n / 10), HexDigit(n % 10), Dec);
    }
  }

  /** An image id as the cluster hands them out, an index and a pool that fit their fields. */
  predicate Valid(n: Name) {
    && 1 <= |n.image| <= 15 && (forall i :: 0 <= i < |n.image| ==> LowerHex(n.image[i]))
    && n.index < UINT40 && (n.pool.Some? ==> n.pool.value < UINT32)
  }

  /** The index can be printed in `w` digits. */
  predicate Fits(n: Name, w: nat) { w > 0 && n.index < Pow16(w) }

  function Parts(n: Name, w: nat): seq<string> {
    if n.pool.Some? then ["rbd_data", Decimal(n.pool.value), n.image, Hex(n.index, w)]
    else ["rbd_data", n.image, Hex(n.index, w)]
  }

  function Print(n: Name, w: nat): string { Join(Parts(n, w)) }

  function Pack(n: Name): Parsed {
    Id(if n.pool.Some? then n.pool.value else 0, HeadValue(n.image), n.index, if n.pool.Some? then 1 else 0)
  }

  // ------------------------------------------------------------------ the image id

  /** An image id as a number whose leading digit is the `1` in front. */
  function HeadValue(image: string): nat {
    if image == "" then 1 else 16 * HeadValue(image[..|image| - 1]) + Digit(image[|image| - 1])
  }

  lemma {:induction false} HeadValueIs(image: string)
    ensures Value(Prefixed(image), Hexa) == HeadValue(image)
  {
    if image == "" {
      assert Prefixed(image) == "" + ['1'];
      ValuePush("", '1', Hexa);
    } else {
      var k := |image| - 1;
      HeadValueIs(image[..k]);
      PrefixedPush(image, k);
      ValuePush(Prefixed(image[..k]), image[k], Hexa);
    }
  }

  /** A `1` and then `k` digits lies between 16^k and twice that. */
  lemma {:induction false} HeadBounds(image: string)
    requires AllDigits(image, Hexa)
    ensures Pow16(|image|) <= HeadValue(image) < 2 * Pow16(|image|)
  {
    if image != "" {
      var k := |image| - 1;
      assert Digit(image[k]) < 16;
      HeadBounds(image[..k]);
    }
  }

  lemma Pow16Values()
    ensures Pow16(16) == UINT64 && Pow16(10) == UINT40 && 16 * Pow16(15) == UINT64
  {
    assert Pow16(4) == 65536;
    assert Pow16(8) == UINT32;
    assert Pow16(10) == 256 * Pow16(8);
    assert Pow16(12) == 65536 * Pow16(8);
    assert Pow16(15) == 4096 * Pow16(12);
  }

  lemma {:induction false} Pow16Grows(a: nat, b: nat)
    requires a <= b
    ensures Pow16(a) <= Pow16(b)
  {
    if a < b {
      Pow16Grows(a, b - 1);
    }
  }

  /** The head is exact up to 15 digits and saturates from 16 on, whatever the image. */
  lemma HeadSaturatesIff(image: string)
    requires AllDigits(image, Hexa)
    ensures Strtoull(Prefixed(image), Hexa) == ULLONG_MAX <==> |image| >= 16
    ensures |image| <= 15 ==> Strtoull(Prefixed(image), Hexa) == HeadValue(image)
  {
    HeadNumber(image);
    HeadBounds(image);
    Pow16Values();
    if |image| >= 16 {
      Pow16Grows(16, |image|);
    } else {
      Pow16Grows(|image|, 15);
    }
  }

  lemma HeadNumber(image: string)
    requires AllDigits(image, Hexa)
    ensures Strtoull(Prefixed(image), Hexa) == Saturated(HeadValue(image), false)
  {
    var s := Prefixed(image);
    assert forall i :: 0 < i < |s| ==> s[i] == image[i - 1];
    PlainNumber(s, Hexa);
    HeadValueIs(image);
  }

  lemma LowerHexDigit(a: char, b: char)
    requires LowerHex(a) && LowerHex(b) && Digit(a) == Digit(b)
    ensures a == b
  {
  }

  ghost predicate LowerHexString(s: string) { forall i :: 0 <= i < |s| ==> LowerHex(s[i]) }

  lemma SplitHex(x: nat, a: nat, y: nat, b: nat)
    requires a < 16 && b < 16 && 16 * x + a == 16 * y + b
    ensures x == y && a == b
  {
  }

  ghost predicate SameDigitValues(a: string, b: string) {
    |a| == |b| && forall i :: 0 <= i < |a| ==> Digit(a[i]) == Digit(b[i])
  }

  lemma {:induction false} DigitsRecovered(a: string, b: string)
    requires AllDigits(a, Hexa) && AllDigits(b, Hexa) && HeadValue(a) == HeadValue(b)
    ensures SameDigitValues(a, b)
  {
    if a != "" && b != "" {
      var i, j := |a| - 1, |b| - 1;
      assert Digit(a[i]) < 16 && Digit(b[j]) < 16;
      SplitHex(HeadValue(a[..i]), Digit(a[i]), HeadValue(b[..j]), Digit(b[j]));
      DigitsRecovered(a[..i], b[..j]);
      assert forall k :: 0 <= k < i ==> a[k] == a[..i][k] && b[k] == b[..j][k];
    } else {
      HeadPositive(a);
      HeadPositive(b);
    }
  }

  lemma ImageRecovered(a: string, b: string)
    requires LowerHexString(a) && LowerHexString(b) && HeadValue(a) == HeadValue(b)
    ensures a == b
  {
    DigitsRecovered(a, b);
    forall i | 0 <= i < |a|
      ensures a[i] == b[i]
    {
      LowerHexDigit(a[i], b[i]);
    }
  }

  lemma HeadPositive(a: string)
    requires AllDigits(a, Hexa)
    ensures HeadValue(a) >= 1 && (a != "" ==> HeadValue(a) >= 16)
  {
    if a != "" {
      HeadBounds(a[..|a| - 1]);
    }
  }

  // ------------------------------------------------------------------ main results

  /** Packing forgets nothing. */
  lemma PackInjective(a: Name, b: Name)
    requires Valid(a) && Valid(b) && Pack(a) == Pack(b)
    ensures a == b
  {
    ImageRecovered(a.image, b.image);
  }

  lemma HexNumber(n: nat, w: nat, h: string)
    requires n < Pow16(w) && n < UINT64 && w > 0 && h == Hex(n, w)
    ensures Strtoull(h, Hexa) == n
  {
    HexValue(n, w);
    PlainNumber(h, Hexa);
  }

  lemma HexToken(n: nat, w: nat, h: string)
    requires w > 0 && h == Hex(n, w)
    ensures Token(h)
  {
  }

  lemma DecimalPool(pool: nat)
    requires pool < UINT32
    ensures Strtoull(Decimal(pool), Dec) == pool
  {
    DecimalValue(pool);
    PlainNumber(Decimal(pool), Dec);
  }

  lemma DecimalToken(pool: nat, d: string)
    requires d == Decimal(pool)
    ensures Token(d)
  {
    assert forall i :: 0 <= i < |d| ==> Digit(d[i]) < 10;
  }

  /** Three tokens, or four with a pool in the second. */
  lemma WithoutPool(v: seq<string>, h: nat, i: nat)
    requires |v| == 3 && v[0] == "rbd_data" && Strtoull(Prefixed(v[1]), Hexa) == h && Strtoull(v[2], Hexa) == i
    ensures FromTokens(v) == FromNumbers(None, h, i)
  {
  }

  lemma WithPool(v: seq<string>, p: nat, h: nat, i: nat)
    requires |v| == 4 && v[0] == "rbd_data" && Strtoull(v[1], Dec) == p
    requires Strtoull(Prefixed(v[2]), Hexa) == h && Strtoull(v[3], Hexa) == i
    ensures FromTokens(v) == FromNumbers(Some(p), h, i)
  {
  }

  lemma PackNumbers(n: Name)
    requires Valid(n)
    ensures FromNumbers(n.pool, HeadValue(n.image), n.index) == Pack(n)
  {
  }

  lemma PooledRead(n: Name, pool: string, last: string)
    requires Valid(n) && n.pool.Some? && Strtoull(pool, Dec) == n.pool.value && Strtoull(last, Hexa) == n.index
    requires Strtoull(Prefixed(n.image), Hexa) == HeadValue(n.image)
    ensures FromTokens(["rbd_data", pool, n.image, last]) == Pack(n)
  {
    WithPool(["rbd_data", pool, n.image, last], n.pool.value, HeadValue(n.image), n.index);
    PackNumbers(n);
  }

  lemma PlainRead(n: Name, last: string)
    requires Valid(n) && n.pool.None? && Strtoull(last, Hexa) == n.index
    requires Strtoull(Prefixed(n.image), Hexa) == HeadValue(n.image)
    ensures FromTokens(["rbd_data", n.image, last]) == Pack(n)
  {
    WithoutPool(["rbd_data", n.image, last], HeadValue(n.image), n.index);
    PackNumbers(n);
  }

  lemma PartsRead(n: Name, w: nat)
    requires Valid(n) && Fits(n, w)
    ensures FromTokens(Parts(n, w)) == Pack(n)
  {
    HexNumber(n.index, w, Hex(n.index, w));
    HeadSaturatesIff(n.image);
    if n.pool.Some? {
      DecimalPool(n.pool.value);
      PooledRead(n, Decimal(n.pool.value), Hex(n.index, w));
    } else {
      PlainRead(n, Hex(n.index, w));
    }
  }

  lemma PartsAreTokens(n: Name, w: nat)
    requires Valid(n) && Fits(n, w)
    ensures forall i :: 0 <= i < |Parts(n, w)| ==> Token(Parts(n, w)[i])
  {
    assert Token("rbd_data") && Token(n.image);
    HexToken(n.index, w, Hex(n.index, w));
    if n.pool.Some? {
      DecimalToken(n.pool.value, Decimal(n.pool.value));
    }
  }

  predicate IsRbd(ts: seq<string>) { ts != [] && ts[0] == "rbd_data" }

  lemma RbdTokens(ts: seq<string>, pool: Option<nat>, head: nat, objSeq: nat)
    requires IsRbd(ts) && |ts| >= 3 && pool == if |ts| == 3 then None else Some(Strtoull(ts[|ts| - 3], Dec))
    requires head == Strtoull(Prefixed(ts[|ts| - 2]), Hexa) && objSeq == Strtoull(ts[|ts| - 1], Hexa)
    ensures FromTokens(ts) == FromNumbers(pool, head, objSeq)
  {
  }

  /** What becomes of the parts of a name. */
  lemma PartsOutcome(ts: seq<string>, p: Parsed)
    requires p == FromTokens(ts)
    ensures p == NotRbd <==> !IsRbd(ts)
    ensures p == Rejected <==> IsRbd(ts) && |ts| < 3
    ensures p == BadPool <==> IsRbd(ts) && |ts| >= 4 && Strtoull(ts[|ts| - 3], Dec) >= UINT32
    ensures p.Id? ==> p.format == (if |ts| == 3 then 0 else 1) && p.poolId == if |ts| == 3 then 0 else Strtoull(ts[|ts| - 3], Dec)
    ensures p.Id? ==> p.head == Strtoull("1" + ts[|ts| - 2], Hexa) && p.objSeq == Strtoull(ts[|ts| - 1], Hexa) % UINT40
  {
    if IsRbd(ts) && |ts| >= 3 {
      var pool := if |ts| == 3 then None else Some(Strtoull(ts[|ts| - 3], Dec));
      RbdTokens(ts, pool, Strtoull(Prefixed(ts[|ts| - 2]), Hexa), Strtoull(ts[|ts| - 1], Hexa));
    }
  }

  /** What becomes of a name whose parts are `ts`: any name, if only it is made of tokens. */
  lemma Outcomes(ts: seq<string>, name: string)
    requires (forall i :: 0 <= i < |ts| ==> Token(ts[i])) && name == Join(ts)
    ensures Parse(name) == NotRbd <==> !IsRbd(ts)
    ensures Parse(name) == Rejected <==> IsRbd(ts) && |ts| < 3
    ensures Parse(name) == BadPool <==> IsRbd(ts) && |ts| >= 4 && Strtoull(ts[|ts| - 3], Dec) >= UINT32
  {
    TokensJoin(ts);
    PartsOutcome(ts, Parse(name));
  }

  /** Parsing a name, printed with any number of leading zeros in the index, gives its packed id. */
  lemma ParsePrint(n: Name, w: nat)
    requires Valid(n) && Fits(n, w)
    ensures Parse(Print(n, w)) == Pack(n)
  {
    PartsRead(n, w);
    PartsAreTokens(n, w);
    TokensJoin(Parts(n, w));
  }

  /** Different names get different ids. */
  lemma ParseInjective(a: Name, v: nat, b: Name, w: nat)
    requires Valid(a) && Fits(a, v) && Valid(b) && Fits(b, w) && Parse(Print(a, v)) == Parse(Print(b, w))
    ensures a == b
  {
    ParsePrint(a, v);
    ParsePrint(b, w);
    PackInjective(a, b);
  }

  // ------------------------------------------------------------------ the limits

  lemma {:induction false} SameDigits(a: string, b: string)
    requires SameDigitValues(a, b)
    ensures HeadValue(a) == HeadValue(b)
  {
    if a != "" {
      SameDigits(a[..|a| - 1], b[..|b| - 1]);
    }
  }

  /**
    Two hexadecimal images share a head exactly when both have 16 or more digits, or when they have as
    many digits and of the same values: case does not count.
   */
  lemma SameHeadIff(a: string, b: string)
    requires AllDigits(a, Hexa) && AllDigits(b, Hexa)
    ensures Strtoull(Prefixed(a), Hexa) == Strtoull(Prefixed(b), Hexa) <==>
            (|a| >= 16 && |b| >= 16) || SameDigitValues(a, b)
  {
    HeadSaturatesIff(a);
    HeadSaturatesIff(b);
    if |a| <= 15 && |b| <= 15 {
      if HeadValue(a) == HeadValue(b) {
        DigitsRecovered(a, b);
      } else if SameDigitValues(a, b) {
        SameDigits(a, b);
      }
    }
  }

  /** Without the `1` in front leading zeros would not count. */
  lemma {:induction false} ZerosVanish(image: string)
    requires AllDigits(image, Hexa)
    ensures Value("0" + image, Hexa) == Value(image, Hexa)
  {
    if image == "" {
      assert "0" + image == "0" && Value("0", Hexa) == 16 * Value("", Hexa) by { assert "0"[..0] == ""; }
    } else {
      var i := |image| - 1;
      ZerosVanish(image[..i]);
      assert "0" + image == ("0" + image[..i]) + [image[i]];
      ValuePush("0" + image[..i], image[i], Hexa);
    }
  }
}
