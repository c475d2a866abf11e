/**
  Small vocabulary shared by the ledger, the scraping client and the shopping
  list: an Option type, the parts of Python's value semantics the source
  relies on (truthiness, `a or b`, slicing past the end), and the decimal
  formatting and parsing that `str(n)` and `int(text)` perform.
*/
module Common {

  datatype Option<+T> = None | Some(value: T) {
    /** `dict.get(key, default)` on a key that may be absent. */
    function GetOr(default: T): T {
      if Some? then value else default
    }
  }

  /** Python truthiness of an optional string: present and non-empty. */
  predicate TruthyString(s: Option<string>) {
    s.Some? && s.value != ""
  }

  /** Python truthiness of an optional clock reading: present and non-zero. */
  predicate TruthyTime(t: Option<int>) {
    t.Some? && t.value != 0
  }

  /**
    The value of the Python chain `xs[0] or xs[1] or ...` when it is truthy:
    the first present, non-empty string; None when every element is falsy.
  */
  function FirstTruthy(xs: seq<Option<string>>): (r: Option<string>)
    ensures r.None? <==> forall i :: 0 <= i < |xs| ==> !TruthyString(xs[i])
    ensures r.Some? ==> r.value != "" && r in xs
    ensures r.Some? ==> exists i :: 0 <= i < |xs| && xs[i] == r && forall m :: 0 <= m < i ==> !TruthyString(xs[m])
  {
    if xs == [] then None
    else if TruthyString(xs[0]) then xs[0]
    else
      var tail := xs[1..];
      var r := FirstTruthy(tail);
      assert forall i :: 0 < i < |xs| ==> xs[i] == tail[i - 1];
      assert r.Some? ==> exists i :: 0 <= i < |xs| && xs[i] == r && forall m :: 0 <= m < i ==> !TruthyString(xs[m]) by {
        if r.Some? {
          var i :| 0 <= i < |tail| && tail[i] == r && forall m :: 0 <= m < i ==> !TruthyString(tail[m]);
          assert xs[i + 1] == r;
        }
      }
      r
  }

  /** One step of the `or` chain: a truthy head is the value, otherwise the rest of the chain is. */
  lemma FirstTruthyCons(x: Option<string>, xs: seq<Option<string>>)
    ensures FirstTruthy([x] + xs) == if TruthyString(x) then x else FirstTruthy(xs)
  {
    assert ([x] + xs)[0] == x && ([x] + xs)[1..] == xs;
  }

  /** Python slicing `s[:n]`: the first n elements, or all of them when there are fewer. */
  function Take<T>(s: seq<T>, n: nat): (r: seq<T>)
    ensures |r| == if n < |s| then n else |s|
    ensures r == s[..|r|]
  {
    if n < |s| then s[..n] else s
  }

  // ---------------------------------------------------------------------------
  // Decimal text: str(n) and int(text)
  // ---------------------------------------------------------------------------

  predicate IsDigit(c: char) {
    '0' <= c <= '9'
  }

  predicate AllDigits(s: string) {
    forall i :: 0 <= i < |s| ==> IsDigit(s[i])
  }

  function DigitChar(d: nat): (c: char)
    requires d < 10
    ensures IsDigit(c)
  {
    (d + 48) as char
  }

  function DigitValue(c: char): (d: nat)
    requires IsDigit(c)
    ensures d < 10
  {
    c as int - 48
  }

  /** Python's `str(n)` for a non-negative integer: digits, no leading zero. */
  function DecimalString(n: nat): (s: string)
    ensures s != [] && AllDigits(s)
    ensures s[0] == '0' ==> s == "0"
    decreases n
  {
    if n < 10 then [DigitChar(n)] else DecimalString(n / 10) + [DigitChar(n % 10)]
  }

  /** Python's `str(i)` for any integer. */
  function IntString(i: int): string {
    if i < 0 then "-" + DecimalString(-i) else DecimalString(i)
  }

  /** The value of a run of decimal digits, most significant first. */
  function DigitsValue(s: string): nat
    requires AllDigits(s)
  {
    if s == [] then 0 else 10 * DigitsValue(s[..|s| - 1]) + DigitValue(s[|s| - 1])
  }

  /**
    The digit body that Python's `int()` accepts after an optional sign:
    decimal digits, possibly grouped by single underscores between digits.
  */
  predicate IntBody(s: string) {
    && s != []
    && IsDigit(s[0])
    && IsDigit(s[|s| - 1])
    && (forall i :: 0 <= i < |s| ==> IsDigit(s[i]) || s[i] == '_')
    && (forall i :: 0 <= i < |s| - 1 ==> !(s[i] == '_' && s[i + 1] == '_'))
  }

  function WithoutUnderscores(s: string): (r: string)
    requires forall i :: 0 <= i < |s| ==> IsDigit(s[i]) || s[i] == '_'
    ensures AllDigits(r)
    ensures AllDigits(s) ==> r == s
  {
    if s == [] then []
    else if s[0] == '_' then WithoutUnderscores(s[1..])
    else [s[0]] + WithoutUnderscores(s[1..])
  }

  function ParseUnsigned(s: string): (r: Option<nat>)
    ensures r.Some? <==> IntBody(s)
  {
    if IntBody(s) then Some(DigitsValue(WithoutUnderscores(s))) else None
  }

  /**
    Python's `int(text)` on text that `get_text(strip=True)` has already
    stripped: an optional sign and a digit body; None where Python raises
    ValueError.
  */
  function ParseInt(s: string): (r: Option<int>)
    ensures r.Some? ==> s != [] && (IsDigit(s[0]) || s[0] == '+' || s[0] == '-')
    ensures s == [] ==> r.None?
  {
    if s != [] && (s[0] == '+' || s[0] == '-') then
      match ParseUnsigned(s[1..])
      case None => None
      case Some(v) => var w: int := v; Some(if s[0] == '-' then -w else w)
    else
      match ParseUnsigned(s)
      case None => None
      case Some(v) => Some(v)
  }

  lemma {:induction false} DecimalStringValue(n: nat)
    ensures DigitsValue(DecimalString(n)) == n
    decreases n
  {
    if n >= 10 {
      DecimalStringValue(n / 10);
      var s := DecimalString(n);
      assert s[..|s| - 1] == DecimalString(n / 10);
    }
  }

  /** `int(str(i)) == i`: parsing inverts formatting. */
  lemma IntStringRoundTrip(i: int)
    ensures ParseInt(IntString(i)) == Some(i)
  {
    var n: nat := if i < 0 then -i else i;
    var d := DecimalString(n);
    DecimalStringValue(n);
    assert IntBody(d);
    if i < 0 {
      assert IntString(i)[1..] == d;
    }
  }

  // ---------------------------------------------------------------------------
  // Text helpers
  // ---------------------------------------------------------------------------

  /** ASCII whitespace as Python's `str.isspace` and the regex class `\s` see it. */
  predicate IsSpace(c: char) {
    c == ' ' || c == '\t' || c == '\n' || c == '\r' || c == '\U{000B}' || c == '\U{000C}'
    || c == '\U{001C}' || c == '\U{001D}' || c == '\U{001E}' || c == '\U{001F}'
  }

  function LowerChar(c: char): char {
    if 'A' <= c <= 'Z' then (c as int + 32) as char else c
  }

  /** `str.lower()` on ASCII letters. */
  function Lower(s: string): (r: string)
    ensures |r| == |s|
  {
    seq(|s|, i requires 0 <= i < |s| => LowerChar(s[i]))
  }

  /** `part` occurs in `text` starting at index i. */
  predicate OccursAt(text: string, part: string, i: int) {
    0 <= i && i + |part| <= |text| && text[i..i + |part|] == part
  }

  /** Python's `part in text` for strings. */
  predicate Contains(text: string, part: string) {
    exists i :: 0 <= i <= |text| - |part| && OccursAt(text, part, i)
  }

  /** `str.lstrip()`: the longest suffix that does not start with whitespace. */
  function StripStart(s: string): (r: string)
    ensures r == [] || !IsSpace(r[0])
    ensures |r| <= |s| && r == s[|s| - |r|..]
    ensures forall i :: 0 <= i < |s| - |r| ==> IsSpace(s[i])
  {
    if s != [] && IsSpace(s[0]) then
      var r := StripStart(s[1..]);
      assert forall i :: 0 < i < |s| ==> s[i] == s[1..][i - 1];
      r
    else s
  }

  /** `str.rstrip()`: the longest prefix that does not end with whitespace. */
  function StripEnd(s: string): (r: string)
    ensures r == [] || !IsSpace(r[|r| - 1])
    ensures |r| <= |s| && r == s[..|r|]
    ensures forall i :: |r| <= i < |s| ==> IsSpace(s[i])
  {
    if s != [] && IsSpace(s[|s| - 1]) then
      var r := StripEnd(s[..|s| - 1]);
      assert forall i :: 0 <= i < |s| - 1 ==> s[i] == s[..|s| - 1][i];
      r
    else s
  }

  /**
    `str.strip()`: the input with its leading and trailing whitespace cut
    off, and nothing else; no whitespace is left at either end.
  */
  function Strip(s: string): (r: string)
    ensures r == [] || (!IsSpace(r[0]) && !IsSpace(r[|r| - 1]))
    ensures exists a, b :: 0 <= a <= b <= |s| && r == s[a..b]
              && (forall i :: 0 <= i < a ==> IsSpace(s[i]))
              && (forall i :: b <= i < |s| ==> IsSpace(s[i]))
  {
    var t := StripStart(s);
    var r := StripEnd(t);
    var a := |s| - |t|;
    assert r == s[a..a + |r|];
    assert forall i :: a + |r| <= i < |s| ==> s[i] == t[i - a];
    r
  }

  /** `sep.join(parts)`. */
  function Join(sep: string, parts: seq<string>): string {
    if |parts| == 0 then ""
    else if |parts| == 1 then parts[0]
    else parts[0] + sep + Join(sep, parts[1..])
  }
}
