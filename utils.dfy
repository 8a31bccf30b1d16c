/** Device classification and the session-id parity rule (app/behavior/utils.ts).
    `generateSessionId` reads the clock and a random source and is not part of
    this model; its output shape, "<decimal millis>-<suffix>", is what
    `ParityOfGeneratedId` is about. */
module Utils {
  import opened Types

  /** `width` is `window.innerWidth`, or `None` when there is no window. */
  function GetDeviceType(width: Option<int>): (d: DeviceType)
    ensures width.None? ==> d == Desktop
    ensures width.Some? ==> (d == Mobile <==> width.value < 768)
    ensures width.Some? ==> (d == Tablet <==> 768 <= width.value < 1024)
    ensures width.Some? ==> (d == Desktop <==> 1024 <= width.value)
  {
    match width
    case None => Desktop
    case Some(w) => if w < 768 then Mobile else if w < 1024 then Tablet else Desktop
  }

  /** `s.split('-')[0]`: the text before the first '-', or all of `s`. */
  function BeforeFirstDash(s: string): (r: string)
    ensures r <= s && '-' !in r
    ensures r == s || s[|r|] == '-'
  {
    if s == [] || s[0] == '-' then [] else [s[0]] + BeforeFirstDash(s[1..])
  }

  /** WhiteSpace and LineTerminator code points, which `parseInt` skips first. */
  predicate IsJsSpace(c: char) {
    c == '\t' || c == '\n' || c == '\U{000B}' || c == '\U{000C}' || c == '\r' ||
    c == ' ' || c == '\U{00A0}' || c == '\U{1680}' || ('\U{2000}' <= c <= '\U{200A}') ||
    c == '\U{2028}' || c == '\U{2029}' || c == '\U{202F}' || c == '\U{205F}' ||
    c == '\U{3000}' || c == '\U{FEFF}'
  }

  function TrimStart(s: string): (r: string)
    ensures |r| <= |s| && r == s[|s| - |r|..]
    ensures r == [] || !IsJsSpace(r[0])
  {
    if s != [] && IsJsSpace(s[0]) then TrimStart(s[1..]) else s
  }

  /** The value of `c` as a digit in base `radix` (10 or 16). */
  function DigitValue(c: char, radix: nat): Option<nat>
  {
    if '0' <= c <= '9' then Some(c as nat - '0' as nat)
    else if radix == 16 && 'a' <= c <= 'f' then Some(c as nat - 'a' as nat + 10)
    else if radix == 16 && 'A' <= c <= 'F' then Some(c as nat - 'A' as nat + 10)
    else None
  }

  predicate IsDigit(c: char, radix: nat) {
    DigitValue(c, radix).Some?
  }

  /** The longest prefix of `s` made of digits, where `parseInt` stops reading. */
  function LeadingDigits(s: string, radix: nat): (r: string)
    ensures r <= s
    ensures forall i :: 0 <= i < |r| ==> IsDigit(r[i], radix)
    ensures r == s || !IsDigit(s[|r|], radix)
  {
    if s == [] || !IsDigit(s[0], radix) then [] else [s[0]] + LeadingDigits(s[1..], radix)
  }

  function DigitsValue(ds: string, radix: nat): nat
    requires forall i :: 0 <= i < |ds| ==> IsDigit(ds[i], radix)
  {
    if ds == [] then 0
    else
      assert IsDigit(ds[|ds| - 1], radix);
      DigitsValue(ds[..|ds| - 1], radix) * radix + DigitValue(ds[|ds| - 1], radix).value
  }

  /** The text after an optional leading sign. */
  function Unsigned(t: string): string {
    if t != [] && (t[0] == '-' || t[0] == '+') then t[1..] else t
  }

  predicate HexPrefix(u: string) {
    |u| >= 2 && u[0] == '0' && (u[1] == 'x' || u[1] == 'X')
  }

  function Radix(u: string): nat {
    if HexPrefix(u) then 16 else 10
  }

  function DigitsPart(u: string): string {
    if HexPrefix(u) then u[2..] else u
  }

  /** `parseInt(s)` with no radix: skip white space, read an optional sign, a
      "0x"/"0X" prefix selects base 16, then the leading digits; `None` is NaN. */
  function ParseInt(s: string): Option<int>
  {
    var t := TrimStart(s);
    var u := Unsigned(t);
    var ds := LeadingDigits(DigitsPart(u), Radix(u));
    if ds == [] then None
    else if t[0] == '-' then Some(-(DigitsValue(ds, Radix(u)) as int))
    else Some(DigitsValue(ds, Radix(u)))
  }

  /** `parseInt(hash) % 2 === 0 ? 'A' : 'B'` on the text before the first '-'.
      A NaN parse compares unequal to 0 and so yields B. */
  function GetVariant(sessionId: string): (v: Variant)
    ensures ParseInt(BeforeFirstDash(sessionId)).None? ==> v == B
    ensures ParseInt(BeforeFirstDash(sessionId)).Some? ==>
              (v == A <==> ParseInt(BeforeFirstDash(sessionId)).value % 2 == 0)
  {
    match ParseInt(BeforeFirstDash(sessionId))
    case None => B
    case Some(n) => if n % 2 == 0 then A else B
  }

  /** The decimal rendering of a natural number, as `${n}` writes it. */
  function Decimal(n: nat): (r: string)
    ensures r != [] && '-' !in r
    ensures forall i :: 0 <= i < |r| ==> '0' <= r[i] <= '9'
  {
    var d := ['0' + (n % 10) as char];
    if n < 10 then d else Decimal(n / 10) + d
  }

  lemma {:induction false} DecimalValue(n: nat)
    ensures forall i :: 0 <= i < |Decimal(n)| ==> IsDigit(Decimal(n)[i], 10)
    ensures DigitsValue(Decimal(n), 10) == n
  {
    var r := Decimal(n);
    assert forall i :: 0 <= i < |r| ==> IsDigit(r[i], 10);
    if n >= 10 {
      DecimalValue(n / 10);
      assert r[..|r| - 1] == Decimal(n / 10);
    }
  }

  lemma {:induction false} LeadingDigitsAll(s: string, radix: nat)
    requires forall i :: 0 <= i < |s| ==> IsDigit(s[i], radix)
    ensures LeadingDigits(s, radix) == s
  {
    if s != [] {
      LeadingDigitsAll(s[1..], radix);
    }
  }

  lemma {:induction false} BeforeDash(p: string, q: string)
    requires '-' !in p
    ensures BeforeFirstDash(p + "-" + q) == p
  {
    if p != [] {
      assert (p + "-" + q)[1..] == p[1..] + "-" + q;
      BeforeDash(p[1..], q);
    }
  }

  /** `getVariant` reads only the text before the first '-': whatever follows
      it does not matter. */
  lemma VariantIgnoresSuffix(p: string, q1: string, q2: string)
    requires '-' !in p
    ensures GetVariant(p + "-" + q1) == GetVariant(p + "-" + q2)
  {
    BeforeDash(p, q1);
    BeforeDash(p, q2);
  }

  /** On an id shaped like those `generateSessionId` makes, "<n>-<suffix>",
      the variant is A exactly when n is even. */
  lemma ParityOfGeneratedId(n: nat, suffix: string)
    ensures GetVariant(Decimal(n) + "-" + suffix) == (if n % 2 == 0 then A else B)
  {
    BeforeDash(Decimal(n), suffix);
    ParseDecimal(n);
  }

  /** `parseInt` reads back the decimal rendering of a natural number. */
  lemma ParseDecimal(n: nat)
    ensures ParseInt(Decimal(n)) == Some(n)
  {
    var ds := Decimal(n);
    assert TrimStart(ds) == ds by {
      assert !IsJsSpace(ds[0]);
    }
    assert Unsigned(ds) == ds;
    assert !HexPrefix(ds);
    DecimalValue(n);
    LeadingDigitsAll(ds, 10);
  }
}
