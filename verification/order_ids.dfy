/**
 * Order identifiers `OR-<siswaId>-<serial>`, as the order model's
 * `beforeValidate` hook builds them: the serial continues the number found
 * after the last `-` of the student's latest order id (read with
 * JavaScript's `parseInt(…, 10) || 0`), zero-padded to four digits, and
 * moves on until the id is not taken.
 */
module OrderIds {
  import opened Wrappers

  // ---------------------------------------------------------------------------
  // Decimal digits
  // ---------------------------------------------------------------------------

  predicate IsDigit(c: char) {
    '0' <= c <= '9'
  }

  predicate AllDigits(s: string) {
    forall i :: 0 <= i < |s| ==> IsDigit(s[i])
  }

  function DigitValue(c: char): nat
    requires IsDigit(c)
  {
    (c as int) - ('0' as int)
  }

  function DigitChar(d: nat): (c: char)
    requires d < 10
    ensures IsDigit(c) && DigitValue(c) == d
  {
    (('0' as int) + d) as char
  }

  /** The number a string of decimal digits denotes; the empty string denotes 0. */
  function DigitsValue(ds: string): nat
    requires AllDigits(ds)
  {
    if |ds| == 0 then 0 else DigitsValue(ds[..|ds| - 1]) * 10 + DigitValue(ds[|ds| - 1])
  }

  /** `String(n)` for a non-negative integer: its decimal digits, without leading zeros. */
  function NatToString(n: nat): (str: string)
    ensures |str| > 0 && AllDigits(str)
    ensures |str| > 1 ==> str[0] != '0'
  {
    if n < 10 then [DigitChar(n)] else NatToString(n / 10) + [DigitChar(n % 10)]
  }

  lemma {:induction false} NatToStringValue(n: nat)
    ensures DigitsValue(NatToString(n)) == n
  {
    if n >= 10 {
      var str := NatToString(n);
      assert str[..|str| - 1] == NatToString(n / 10);
      NatToStringValue(n / 10);
    }
  }

  function Repeat(c: char, count: nat): (s: string)
    ensures |s| == count && forall i :: 0 <= i < count ==> s[i] == c
  {
    if count == 0 then [] else [c] + Repeat(c, count - 1)
  }

  /** `str.padStart(width, pad)` with a one-character `pad`. */
  function PadStart(str: string, width: nat, pad: char): (p: string)
    ensures |p| == if |str| >= width then |str| else width
    ensures p[|p| - |str|..] == str
    ensures forall i :: 0 <= i < |p| - |str| ==> p[i] == pad
  {
    if |str| >= width then str else Repeat(pad, width - |str|) + str
  }

  lemma {:induction false} LeadingZerosValue(z: nat, ds: string)
    requires AllDigits(ds)
    ensures AllDigits(Repeat('0', z) + ds)
    ensures DigitsValue(Repeat('0', z) + ds) == DigitsValue(ds)
  {
    var padded := Repeat('0', z) + ds;
    assert AllDigits(padded) by {
      forall i | 0 <= i < |padded| ensures IsDigit(padded[i]) {
        if i >= z { assert padded[i] == ds[i - z]; }
      }
    }
    if |ds| == 0 {
      ZerosValue(z);
      assert padded == Repeat('0', z);
    } else {
      var front := ds[..|ds| - 1];
      assert padded[..|padded| - 1] == Repeat('0', z) + front;
      LeadingZerosValue(z, front);
    }
  }

  lemma {:induction false} ZerosValue(z: nat)
    ensures AllDigits(Repeat('0', z)) && DigitsValue(Repeat('0', z)) == 0
  {
    if z > 0 {
      var zs := Repeat('0', z);
      assert zs[..z - 1] == Repeat('0', z - 1);
      ZerosValue(z - 1);
    }
  }

  // ---------------------------------------------------------------------------
  // JavaScript's parseInt(s, 10)
  // ---------------------------------------------------------------------------

  /** The white space and line terminators `parseInt` skips: ECMAScript's `StrWhiteSpaceChar`. */
  predicate IsJsSpace(c: char) {
    var x := c as int;
    x == 0x09 || x == 0x0A || x == 0x0B || x == 0x0C || x == 0x0D || x == 0x20 || x == 0xA0 ||
    x == 0x1680 || (0x2000 <= x <= 0x200A) || x == 0x2028 || x == 0x2029 || x == 0x202F ||
    x == 0x205F || x == 0x3000 || x == 0xFEFF
  }

  /** `s` without its leading white space. */
  function TrimStart(s: string): (t: string)
    ensures |t| <= |s| && t == s[|s| - |t|..]
    ensures |t| > 0 ==> !IsJsSpace(t[0])
    ensures |s| > 0 && !IsJsSpace(s[0]) ==> t == s
  {
    if |s| > 0 && IsJsSpace(s[0]) then TrimStart(s[1..]) else s
  }

  /** The longest prefix of `s` made of decimal digits. */
  function DigitPrefix(s: string): (ds: string)
    ensures AllDigits(ds) && ds <= s
    ensures |ds| < |s| ==> !IsDigit(s[|ds|])
  {
    if |s| > 0 && IsDigit(s[0]) then [s[0]] + DigitPrefix(s[1..]) else []
  }

  /** The number the leading digits of `body` denote; `None` when it does not start with a digit. */
  function LeadingNumber(body: string): (r: Option<nat>)
    ensures r.None? <==> |body| == 0 || !IsDigit(body[0])
  {
    var ds := DigitPrefix(body);
    if |ds| == 0 then None else Some(DigitsValue(ds))
  }

  /**
   * `parseInt(s, 10)`: leading white space, an optional sign, then the
   * longest run of digits; `None` is `NaN` (no digit at all).
   */
  function ParseInt(s: string): (r: Option<int>)
    ensures |TrimStart(s)| == 0 ==> r.None?
    ensures r.Some? && r.value < 0 ==> TrimStart(s)[0] == '-'
    ensures |TrimStart(s)| > 0 && !IsDigit(TrimStart(s)[0]) && TrimStart(s)[0] != '-' && TrimStart(s)[0] != '+' ==> r.None?
  {
    var t := TrimStart(s);
    var negative := |t| > 0 && t[0] == '-';
    var body := if |t| > 0 && (t[0] == '-' || t[0] == '+') then t[1..] else t;
    match LeadingNumber(body)
    case None => None
    case Some(magnitude) => if negative then Some(-(magnitude as int)) else Some(magnitude as int)
  }

  /** What `s.split('-').pop()` yields: everything after the last `-`, or all of `s`. */
  function LastSegment(s: string): (seg: string)
    ensures '-' !in seg && |seg| <= |s| && seg == s[|s| - |seg|..]
  {
    if |s| == 0 then []
    else if s[|s| - 1] == '-' then []
    else LastSegment(s[..|s| - 1]) + [s[|s| - 1]]
  }

  /** `parseInt(id.split('-').pop(), 10) || 0`: the serial a previous order id ends in. */
  function LastNumber(id: string): (n: int)
    ensures n >= 0
  {
    var seg := LastSegment(id);
    var t := TrimStart(seg);
    assert |t| > 0 ==> t[0] == seg[|seg| - |t|];
    ParseInt(seg).GetOr(0)
  }

  // ---------------------------------------------------------------------------
  // Identifiers
  // ---------------------------------------------------------------------------

  /** `String(n).padStart(4, '0')`. */
  function Serial(n: nat): (str: string)
    ensures |str| >= 4 && AllDigits(str) && '-' !in str
  {
    var digits := NatToString(n);
    var p := PadStart(digits, 4, '0');
    assert AllDigits(p) by {
      forall i | 0 <= i < |p| ensures IsDigit(p[i]) {
        if i >= |p| - |digits| { assert p[i] == p[|p| - |digits|..][i - (|p| - |digits|)]; }
      }
    }
    p
  }

  function OrderIdFor(siswaId: string, n: nat): string {
    "OR-" + siswaId + "-" + Serial(n)
  }

  lemma {:induction false} LastSegmentAfterDash(prefix: string, tail: string)
    requires '-' !in tail
    ensures LastSegment(prefix + "-" + tail) == tail
  {
    var s := prefix + "-" + tail;
    if |tail| == 0 {
      assert s[|s| - 1] == '-';
    } else {
      assert s[|s| - 1] == tail[|tail| - 1];
      assert s[..|s| - 1] == prefix + "-" + tail[..|tail| - 1];
      LastSegmentAfterDash(prefix, tail[..|tail| - 1]);
    }
  }

  lemma SerialValue(n: nat)
    ensures DigitsValue(Serial(n)) == n
  {
    var digits := NatToString(n);
    NatToStringValue(n);
    if |digits| < 4 {
      assert Serial(n) == Repeat('0', 4 - |digits|) + digits;
      LeadingZerosValue(4 - |digits|, digits);
    }
  }

  lemma DigitPrefixOfDigits(p: string)
    requires AllDigits(p)
    ensures DigitPrefix(p) == p
  {
  }

  /** Without leading space or sign, `parseInt` reads the leading number of the string itself. */
  lemma ParseUnsigned(p: string)
    requires |p| > 0 && IsDigit(p[0])
    ensures ParseInt(p) == Some(LeadingNumber(p).value as int)
  {
    assert !IsJsSpace(p[0]);
    assert TrimStart(p) == p;
  }

  /** A string of digits parses as the number it denotes. */
  lemma DigitsParse(p: string)
    requires |p| > 0 && AllDigits(p)
    ensures ParseInt(p) == Some(DigitsValue(p) as int)
  {
    assert IsDigit(p[0]);
    ParseUnsigned(p);
    DigitPrefixOfDigits(p);
  }

  lemma SerialParses(n: nat)
    ensures ParseInt(Serial(n)) == Some(n)
  {
    SerialValue(n);
    DigitsParse(Serial(n));
  }

  /** The serial of a generated id reads back as the number it was built from, whatever the student id. */
  lemma SerialRoundTrip(siswaId: string, n: nat)
    ensures LastNumber(OrderIdFor(siswaId, n)) == n
  {
    assert OrderIdFor(siswaId, n) == ("OR-" + siswaId) + "-" + Serial(n);
    LastSegmentAfterDash("OR-" + siswaId, Serial(n));
    SerialParses(n);
  }

  /** Distinct serials give distinct ids. */
  lemma OrderIdForInjective(siswaId: string, m: nat, n: nat)
    requires OrderIdFor(siswaId, m) == OrderIdFor(siswaId, n)
    ensures m == n
  {
    SerialRoundTrip(siswaId, m);
    SerialRoundTrip(siswaId, n);
  }

  // ---------------------------------------------------------------------------
  // The search for a free id
  // ---------------------------------------------------------------------------

  /**
   * The first serial from `n` on whose id `idOf` gives is not in `taken`;
   * `bound` is one known to be free.
   */
  function FirstFreeSerial(taken: set<string>, idOf: nat -> string, n: nat, ghost bound: nat): (m: nat)
    requires n <= bound && idOf(bound) !in taken
    ensures n <= m <= bound && idOf(m) !in taken
    ensures forall k :: n <= k < m ==> idOf(k) in taken
    decreases bound - n
  {
    if idOf(n) !in taken then n else FirstFreeSerial(taken, idOf, n + 1, bound)
  }

  lemma {:induction false} TakenSerialsCount(taken: set<string>, siswaId: string, n: nat, count: nat)
    requires forall k :: n <= k < n + count ==> OrderIdFor(siswaId, k) in taken
    ensures |taken| >= count
  {
    if count > 0 {
      var last := OrderIdFor(siswaId, n + count - 1);
      var rest := taken - {last};
      forall k | n <= k < n + count - 1 ensures OrderIdFor(siswaId, k) in rest {
        if OrderIdFor(siswaId, k) == last { OrderIdForInjective(siswaId, k, n + count - 1); }
      }
      TakenSerialsCount(rest, siswaId, n, count - 1);
    }
  }

  /** Among `|taken| + 1` consecutive serials at least one is free. */
  lemma FreeSerialWithin(taken: set<string>, siswaId: string, n: nat)
    ensures exists k :: n <= k <= n + |taken| && OrderIdFor(siswaId, k) !in taken
  {
    if forall k :: n <= k <= n + |taken| ==> OrderIdFor(siswaId, k) in taken {
      TakenSerialsCount(taken, siswaId, n, |taken| + 1);
    }
  }

  /** The serial the hook starts from: one past the number the latest order id ends in, or 1. */
  function StartSerial(latest: Option<string>): (n: nat)
    ensures n >= 1
  {
    if latest.Some? && latest.value != "" then LastNumber(latest.value) + 1 else 1
  }

  /**
   * The hook's id for a new order of `siswaId`, given `taken` (the ids in
   * use) and `latest` (the id of the student's most recent order, if any).
   */
  function NewOrderId(taken: set<string>, siswaId: string, latest: Option<string>): (id: string)
    ensures id !in taken
    ensures exists m: nat :: StartSerial(latest) <= m && id == OrderIdFor(siswaId, m) &&
                             forall k :: StartSerial(latest) <= k < m ==> OrderIdFor(siswaId, k) in taken
  {
    var n := StartSerial(latest);
    var idOf: nat -> string := (k: nat) => OrderIdFor(siswaId, k);
    FreeSerialWithin(taken, siswaId, n);
    var bound: nat :| n <= bound && OrderIdFor(siswaId, bound) !in taken;
    var m := FirstFreeSerial(taken, idOf, n, bound);
    assert forall k :: n <= k < m ==> idOf(k) == OrderIdFor(siswaId, k) && idOf(k) in taken;
    assert n <= m && forall k :: n <= k < m ==> OrderIdFor(siswaId, k) in taken;
    OrderIdFor(siswaId, m)
  }

  /** After an order whose id ends in serial `n`, the next order of the student gets a larger serial. */
  lemma NewOrderIdContinuesSerial(taken: set<string>, siswaId: string, n: nat)
    ensures var id := NewOrderId(taken, siswaId, Some(OrderIdFor(siswaId, n)));
            exists m: nat :: n < m && id == OrderIdFor(siswaId, m)
  {
    var latest := Some(OrderIdFor(siswaId, n));
    var id := NewOrderId(taken, siswaId, latest);
    SerialRoundTrip(siswaId, n);
    assert OrderIdFor(siswaId, n) != "" by { assert OrderIdFor(siswaId, n)[0] == 'O'; }
    assert StartSerial(latest) == n + 1;
    var m: nat :| StartSerial(latest) <= m && id == OrderIdFor(siswaId, m) &&
                  forall k :: StartSerial(latest) <= k < m ==> OrderIdFor(siswaId, k) in taken;
    assert n < m;
  }
}
