/** Small value types and the JavaScript string and number primitives the
    application relies on (trim, whitespace stripping, replace-first, split,
    parseInt, parseFloat, Number), stated over Dafny strings. */
module Common {

  datatype Option<+T> = None | Some(value: T)

  datatype Result<+T, +E> = Ok(value: T) | Err(error: E)

  /** A numeric field read as a condition: present and not zero. */
  predicate Truthy(x: Option<int>) { x.Some? && x.value != 0 }

  /** A string field read as a condition: present and not empty. */
  predicate Filled(s: Option<string>) { s.Some? && s.value != "" }

  /** `s || fallback` on an optional string. */
  function OrElse(s: Option<string>, fallback: string): (r: string)
    ensures Filled(s) ==> r == s.value
    ensures !Filled(s) ==> r == fallback
  {
    if Filled(s) then s.value else fallback
  }

  // ---------------------------------------------------------------------
  // Whitespace, as String.prototype.trim and the regular expression \s see it
  // ---------------------------------------------------------------------

  predicate IsSpace(c: char) {
    c == ' ' || c == '\t' || c == '\n' || c == '\r' || c == '\U{B}' || c == '\U{C}'
    || c == '\U{A0}' || c == '\U{1680}' || ('\U{2000}' <= c <= '\U{200A}')
    || c == '\U{2028}' || c == '\U{2029}' || c == '\U{202F}' || c == '\U{205F}'
    || c == '\U{3000}' || c == '\U{FEFF}'
  }

  predicate NoSpaces(s: string) {
    forall i :: 0 <= i < |s| ==> !IsSpace(s[i])
  }

  predicate AllSpaces(s: string) {
    forall i :: 0 <= i < |s| ==> IsSpace(s[i])
  }

  /** Drops the leading whitespace: what remains is a suffix of s. */
  function TrimStart(s: string): (r: string)
    ensures |r| <= |s| && r == s[|s| - |r|..]
    ensures AllSpaces(s[..|s| - |r|])
    ensures r != [] ==> !IsSpace(r[0])
  {
    if s != [] && IsSpace(s[0]) then
      var r := TrimStart(s[1..]);
      assert s[..|s| - |r|] == [s[0]] + s[1..][..|s| - 1 - |r|];
      r
    else s
  }

  /** Drops the trailing whitespace: what remains is a prefix of s. */
  function TrimEnd(s: string): (r: string)
    ensures |r| <= |s| && r == s[..|r|]
    ensures AllSpaces(s[|r|..])
    ensures r != [] ==> !IsSpace(r[|r| - 1])
  {
    if s != [] && IsSpace(s[|s| - 1]) then TrimEnd(s[..|s| - 1]) else s
  }

  /** String.prototype.trim. */
  function Trim(s: string): (r: string)
    ensures |r| <= |s|
    ensures r != [] ==> !IsSpace(r[0]) && !IsSpace(r[|r| - 1])
    ensures r == [] <==> AllSpaces(s)
    ensures NoSpaces(s) ==> r == s
  {
    var t := TrimStart(s);
    assert AllSpaces(s) ==> t == [];
    assert t == [] ==> s == s[..|s|];
    TrimEnd(t)
  }

  /** s.replace(/\s+/g, ""): every whitespace character removed, the rest kept in order. */
  function StripSpaces(s: string): (r: string)
    ensures NoSpaces(r)
    ensures |r| <= |s|
    ensures forall c :: c in r <==> c in s && !IsSpace(c)
    ensures NoSpaces(s) ==> r == s
  {
    if s == [] then []
    else if IsSpace(s[0]) then StripSpaces(s[1..])
    else [s[0]] + StripSpaces(s[1..])
  }

  // ---------------------------------------------------------------------
  // Case mapping (ASCII letters)
  // ---------------------------------------------------------------------

  function UpperChar(c: char): char {
    if 'a' <= c <= 'z' then (c as int - 32) as char else c
  }

  function LowerChar(c: char): char {
    if 'A' <= c <= 'Z' then (c as int + 32) as char else c
  }

  function ToUpper(s: string): (r: string)
    ensures |r| == |s| && forall i :: 0 <= i < |s| ==> r[i] == UpperChar(s[i])
  {
    seq(|s|, i requires 0 <= i < |s| => UpperChar(s[i]))
  }

  function ToLower(s: string): (r: string)
    ensures |r| == |s| && forall i :: 0 <= i < |s| ==> r[i] == LowerChar(s[i])
  {
    seq(|s|, i requires 0 <= i < |s| => LowerChar(s[i]))
  }

  // ---------------------------------------------------------------------
  // First occurrence, replace-first, split and join
  // ---------------------------------------------------------------------

  /** The position of the first c in s, if any. */
  function IndexOf(s: string, c: char): (r: Option<nat>)
    ensures r.None? <==> c !in s
    ensures r.Some? ==> r.value < |s| && s[r.value] == c && c !in s[..r.value]
  {
    if s == [] then None
    else if s[0] == c then Some(0)
    else match IndexOf(s[1..], c)
      case None => None
      case Some(k) => assert s[..k + 1] == [s[0]] + s[1..][..k]; Some(k + 1)
  }

  /** The first n characters, as `slice(0, n)`: all of them when there are
      fewer. */
  function Prefix(s: string, n: nat): (r: string)
    ensures |r| <= n && |r| <= |s| && r == s[..|r|]
    ensures |s| >= n ==> |r| == n
    ensures |s| <= n ==> r == s
  {
    if |s| <= n then s else s[..n]
  }

  /** s.replace(c, t) with a one-character search string: only the first
      occurrence of c is replaced. */
  function ReplaceFirst(s: string, c: char, t: string): (r: string)
    ensures c !in s ==> r == s
  {
    match IndexOf(s, c)
    case None => s
    case Some(k) => s[..k] + t + s[k + 1..]
  }

  /** s.split(sep) for a one-character separator. */
  function Split(s: string, sep: char): (parts: seq<string>)
    ensures |parts| >= 1
    ensures forall i :: 0 <= i < |parts| ==> sep !in parts[i]
    decreases |s|
  {
    match IndexOf(s, sep)
    case None => [s]
    case Some(k) => [s[..k]] + Split(s[k + 1..], sep)
  }

  /** parts.join(sep). */
  function Join(parts: seq<string>, sep: char): string
    requires |parts| >= 1
  {
    if |parts| == 1 then parts[0] else parts[0] + [sep] + Join(parts[1..], sep)
  }

  lemma {:induction false} JoinSplit(s: string, sep: char)
    ensures Join(Split(s, sep), sep) == s
    decreases |s|
  {
    match IndexOf(s, sep)
    case None =>
    case Some(k) =>
      var tail := Split(s[k + 1..], sep);
      assert Split(s, sep) == [s[..k]] + tail;
      JoinSplit(s[k + 1..], sep);
      assert Join([s[..k]] + tail, sep) == s[..k] + [sep] + Join(tail, sep) by {
        assert ([s[..k]] + tail)[1..] == tail;
      }
      assert s == s[..k] + [sep] + s[k + 1..];
  }

  lemma {:induction false} SplitJoin(parts: seq<string>, sep: char)
    requires |parts| >= 1
    requires forall i :: 0 <= i < |parts| ==> sep !in parts[i]
    ensures Split(Join(parts, sep), sep) == parts
  {
    if |parts| > 1 {
      var p, rest := parts[0], Join(parts[1..], sep);
      var s := p + [sep] + rest;
      assert s[|p|] == sep && s[..|p|] == p;
      IndexOfAt(s, sep, |p|);
      assert s[|p| + 1..] == rest;
      assert Split(s, sep) == [p] + Split(rest, sep);
      SplitJoin(parts[1..], sep);
      assert parts == [p] + parts[1..];
    }
  }

  /** The first c is found where it is. */
  lemma IndexOfAt(s: string, c: char, k: int)
    requires 0 <= k < |s| && s[k] == c && c !in s[..k]
    ensures IndexOf(s, c) == Some(k)
  {
    assert c in s;
  }

  // ---------------------------------------------------------------------
  // Decimal digits: integer to string and back
  // ---------------------------------------------------------------------

  predicate IsDigit(c: char) { '0' <= c <= '9' }

  predicate AllDigits(s: string) {
    forall i :: 0 <= i < |s| ==> IsDigit(s[i])
  }

  function Pow10(k: nat): (p: nat)
    ensures p >= 1
  {
    if k == 0 then 1 else 10 * Pow10(k - 1)
  }

  /** The number a string of decimal digits denotes (0 for the empty string). */
  function DigitsValue(s: string): nat
    requires AllDigits(s)
  {
    if s == [] then 0 else 10 * DigitsValue(s[..|s| - 1]) + (s[|s| - 1] as int - '0' as int)
  }

  lemma {:induction false} DigitsValueBound(s: string)
    requires AllDigits(s)
    ensures DigitsValue(s) < Pow10(|s|)
  {
    if s != [] { DigitsValueBound(s[..|s| - 1]); }
  }

  function DigitChar(d: nat): (c: char)
    requires d < 10
    ensures IsDigit(c)
  {
    ('0' as int + d) as char
  }

  /** String(n) for a non-negative integer. */
  function NatToString(n: nat): (s: string)
    ensures |s| >= 1 && AllDigits(s)
  {
    if n < 10 then [DigitChar(n)] else NatToString(n / 10) + [DigitChar(n % 10)]
  }

  /** String(i) for any integer. */
  function IntToString(i: int): string {
    if i < 0 then "-" + NatToString(-i) else NatToString(i)
  }

  lemma {:induction false} NatToStringValue(n: nat)
    ensures DigitsValue(NatToString(n)) == n
  {
    if n >= 10 {
      NatToStringValue(n / 10);
      var s := NatToString(n);
      assert s[..|s| - 1] == NatToString(n / 10);
    }
  }

  /** A number of exactly k digits is written with exactly k characters. */
  lemma {:induction false} NatToStringLength(n: nat, k: nat)
    requires 1 <= k && (k == 1 || Pow10(k - 1) <= n) && n < Pow10(k)
    ensures |NatToString(n)| == k
  {
    if k == 1 {
      assert Pow10(1) == 10;
    } else {
      Pow10Grows(k - 1);
      var m := n / 10;
      assert Pow10(k) == 10 * Pow10(k - 1);
      assert m < Pow10(k - 1);
      assert k - 1 == 1 || Pow10(k - 2) <= m by {
        if k > 2 { assert Pow10(k - 1) == 10 * Pow10(k - 2); }
      }
      NatToStringLength(m, k - 1);
    }
  }

  lemma {:induction false} Pow10Grows(k: nat)
    requires k >= 1
    ensures Pow10(k) >= 10
  {
    if k > 1 { Pow10Grows(k - 1); }
  }

  /** "abc".padStart(n, c). */
  function PadStart(s: string, n: nat, c: char): (r: string)
    ensures |r| == if |s| >= n then |s| else n
    ensures r[|r| - |s|..] == s
    ensures forall i :: 0 <= i < |r| - |s| ==> r[i] == c
  {
    if |s| >= n then s else seq(n - |s|, _ => c) + s
  }

  /** The number of leading decimal digits of s. */
  function LeadingDigits(s: string): (k: nat)
    ensures k <= |s| && AllDigits(s[..k])
    ensures k < |s| ==> !IsDigit(s[k])
  {
    if s != [] && IsDigit(s[0]) then
      var k := 1 + LeadingDigits(s[1..]);
      assert s[..k] == [s[0]] + s[1..][..k - 1];
      k
    else 0
  }

  /** The sign character JavaScript's numeric parsers accept in front of digits. */
  function SignLength(s: string): (n: nat)
    ensures n <= 1 && n <= |s|
  {
    if s != [] && (s[0] == '+' || s[0] == '-') then 1 else 0
  }

  function SignOf(s: string): int {
    if s != [] && s[0] == '-' then -1 else 1
  }

  /** parseInt(s, 10): leading whitespace, an optional sign, then the longest
      run of digits; no digit at all gives NaN (None). */
  function ParseInt(s: string): (r: Option<int>)
  {
    var t := TrimStart(s);
    var n := SignLength(t);
    var k := LeadingDigits(t[n..]);
    if k == 0 then None else Some(SignOf(t) * DigitsValue(t[n..][..k]))
  }

  /** A string that starts with a digit is not touched by TrimStart and has no sign. */
  lemma DigitFirst(s: string)
    requires s != [] && IsDigit(s[0])
    ensures TrimStart(s) == s && SignLength(s) == 0 && SignOf(s) == 1
  {
    assert !IsSpace(s[0]);
  }

  lemma ParseIntOfDigits(s: string)
    requires s != [] && AllDigits(s)
    ensures ParseInt(s) == Some(DigitsValue(s))
  {
    DigitFirst(s);
    LeadingDigitsAll(s);
    assert s[0..] == s;
    assert s[..|s|] == s;
  }

  lemma ParseIntOfNat(n: nat)
    ensures ParseInt(NatToString(n)) == Some(n)
  {
    ParseIntOfDigits(NatToString(n));
    NatToStringValue(n);
  }

  lemma {:induction false} LeadingDigitsAll(s: string)
    requires AllDigits(s)
    ensures LeadingDigits(s) == |s|
  {
    if s != [] { LeadingDigitsAll(s[1..]); }
  }

  /** parseInt inverts String on every integer. */
  lemma ParseIntOfInt(i: int)
    ensures ParseInt(IntToString(i)) == Some(i)
  {
    if i < 0 {
      var d := NatToString(-i);
      var s := "-" + d;
      assert s[0] == '-' && !IsSpace(s[0]);
      assert TrimStart(s) == s;
      assert SignLength(s) == 1 && SignOf(s) == -1;
      assert s[1..] == d;
      LeadingDigitsAll(d);
      assert d[..|d|] == d;
      NatToStringValue(-i);
    } else {
      ParseIntOfNat(i);
    }
  }

  // ---------------------------------------------------------------------
  // Decimal numbers: Number(s) and parseFloat(s)
  // ---------------------------------------------------------------------

  /** The longest prefix of s of the form [+-]digits[.digits]: its value, its
      length and how many digits it holds. */
  datatype Scan = Scan(value: real, length: nat, digits: nat)

  function ScanDecimal(s: string): (sc: Scan)
    ensures sc.length <= |s|
  {
    var n := SignLength(s);
    var rest := s[n..];
    var a := LeadingDigits(rest);
    var whole := DigitsValue(rest[..a]) as real;
    if a < |rest| && rest[a] == '.' then
      var frac := rest[a + 1..];
      var b := LeadingDigits(frac);
      var v := whole + (DigitsValue(frac[..b]) as real) / (Pow10(b) as real);
      Scan(SignOf(s) as real * v, n + a + 1 + b, a + b)
    else
      Scan(SignOf(s) as real * whole, n + a, a)
  }

  /** parseFloat(s): NaN (None) unless some digit follows the leading
      whitespace and sign; trailing text is ignored. */
  function ParseFloat(s: string): Option<real> {
    var sc := ScanDecimal(TrimStart(s));
    if sc.digits == 0 then None else Some(sc.value)
  }

  /** Number(s): the whole trimmed string must be a number; the empty string is 0. */
  function JsNumber(s: string): Option<real> {
    var t := Trim(s);
    if t == [] then Some(0.0)
    else
      var sc := ScanDecimal(t);
      if sc.digits > 0 && sc.length == |t| then Some(sc.value) else None
  }

  /** A plain digit string reads back as its value, under both parsers. */
  lemma DigitStringParses(s: string)
    requires s != [] && AllDigits(s)
    ensures ParseFloat(s) == Some(DigitsValue(s) as real)
    ensures JsNumber(s) == Some(DigitsValue(s) as real)
  {
    DigitFirst(s);
    LeadingDigitsAll(s);
    assert s[0..] == s && s[..|s|] == s;
    assert ScanDecimal(s) == Scan(DigitsValue(s) as real, |s|, |s|);
    assert NoSpaces(s) by {
      forall i | 0 <= i < |s| ensures !IsSpace(s[i]) { assert IsDigit(s[i]); }
    }
  }
}
