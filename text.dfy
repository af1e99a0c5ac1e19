/**
 * The JavaScript string operations the ledger and the countdown text rely on:
 * `String.prototype.split` with a one-character separator, `Array.prototype.join`,
 * `String.prototype.trim`, and the decimal rendering of integers.
 */
module Text {
  import opened Wrappers

  /** ECMAScript WhiteSpace and LineTerminator code points: what `trim` removes. */
  predicate IsWhitespace(c: char) {
    c == ' ' || c == '\t' || c == '\n' || c == '\r' || c == '\U{000B}' || c == '\U{000C}'
    || c == '\U{00A0}' || c == '\U{1680}' || ('\U{2000}' <= c <= '\U{200A}')
    || c == '\U{2028}' || c == '\U{2029}' || c == '\U{202F}' || c == '\U{205F}'
    || c == '\U{3000}' || c == '\U{FEFF}'
  }

  /** `s.split(sep)`: the pieces between separators; k separators give k + 1 pieces. */
  function Split(s: string, sep: char): (r: seq<string>)
    ensures |r| >= 1
    decreases |s|
  {
    if |s| == 0 then [""]
    else
      var rest := Split(s[1..], sep);
      if s[0] == sep then [""] + rest
      else [[s[0]] + rest[0]] + rest[1..]
  }

  /** `parts.join(sep)`. */
  function Join(parts: seq<string>, sep: char): string
    decreases |parts|
  {
    if |parts| == 0 then ""
    else if |parts| == 1 then parts[0]
    else parts[0] + [sep] + Join(parts[1..], sep)
  }

  function TrimStart(s: string): (r: string)
    decreases |s|
  {
    if |s| > 0 && IsWhitespace(s[0]) then TrimStart(s[1..]) else s
  }

  function TrimEnd(s: string): (r: string)
    decreases |s|
  {
    if |s| > 0 && IsWhitespace(s[|s| - 1]) then TrimEnd(s[..|s| - 1]) else s
  }

  /** `s.trim()`. */
  function Trim(s: string): string {
    TrimEnd(TrimStart(s))
  }

  /** A string `trim` leaves non-empty: a JavaScript truthy `line.trim()`. */
  predicate HasNonWhitespace(s: string) {
    exists i :: 0 <= i < |s| && !IsWhitespace(s[i])
  }

  /** `trimStart` leaves nothing exactly when the text is all whitespace, and
      otherwise stops at a character that is not whitespace. */
  lemma {:induction false} TrimStartResult(s: string)
    ensures TrimStart(s) == [] <==> !HasNonWhitespace(s)
    ensures TrimStart(s) != [] ==> !IsWhitespace(TrimStart(s)[0])
    decreases |s|
  {
    if |s| > 0 && IsWhitespace(s[0]) {
      TrimStartResult(s[1..]);
      NonWhitespaceInTail(s);
    } else if |s| > 0 {
      assert !IsWhitespace(s[0]);
    }
  }

  lemma NonWhitespaceInTail(s: string)
    requires |s| > 0 && IsWhitespace(s[0])
    ensures HasNonWhitespace(s) <==> HasNonWhitespace(s[1..])
  {
    if HasNonWhitespace(s) {
      var i :| 0 <= i < |s| && !IsWhitespace(s[i]);
      assert s[1..][i - 1] == s[i];
    }
    if HasNonWhitespace(s[1..]) {
      var i :| 0 <= i < |s[1..]| && !IsWhitespace(s[1..][i]);
      assert s[i + 1] == s[1..][i];
    }
  }

  /** `TrimStart` keeps a suffix. */
  lemma {:induction false} TrimStartSuffix(s: string)
    ensures |TrimStart(s)| <= |s| && TrimStart(s) == s[|s| - |TrimStart(s)|..]
    decreases |s|
  {
    if |s| > 0 && IsWhitespace(s[0]) {
      TrimStartSuffix(s[1..]);
    }
  }

  /** A trailing line break does not change where `TrimStart` stops, when the text
      before it ends in a non-whitespace character. */
  lemma {:induction false} TrimStartBeforeNewline(t: string)
    requires |t| > 0 && !IsWhitespace(t[|t| - 1])
    ensures TrimStart(t + "\n") == TrimStart(t) + "\n"
    ensures |TrimStart(t)| > 0
    decreases |t|
  {
    if IsWhitespace(t[0]) {
      assert (t + "\n")[1..] == t[1..] + "\n";
      TrimStartBeforeNewline(t[1..]);
    }
  }

  /** `trim` only removes characters from the ends. */
  lemma TrimEndNewline(s: string)
    requires |s| > 0 && !IsWhitespace(s[|s| - 1])
    ensures TrimEnd(s + "\n") == s
  {
    assert (s + "\n")[..|s|] == s;
  }

  /** A separator-free string splits into itself. */
  lemma {:induction false} SplitWithoutSeparator(s: string, sep: char)
    ensures sep !in s ==> Split(s, sep) == [s]
    decreases |s|
  {
    if |s| > 0 && sep !in s {
      SplitWithoutSeparator(s[1..], sep);
      assert [s[0]] + s[1..] == s;
    }
  }

  /** Splitting at a separator splits the two sides independently. */
  lemma {:induction false} SplitAtSeparator(a: string, b: string, sep: char)
    ensures Split(a + [sep] + b, sep) == Split(a, sep) + Split(b, sep)
    decreases |a|
  {
    var s := a + [sep] + b;
    if |a| == 0 {
      assert s[1..] == b;
    } else {
      assert s[1..] == a[1..] + [sep] + b;
      SplitAtSeparator(a[1..], b, sep);
    }
  }

  /** Round trip: `parts.join(sep).split(sep)` gives `parts` back when no part holds `sep`. */
  lemma {:induction false} SplitJoin(parts: seq<string>, sep: char)
    ensures |parts| >= 1 && (forall i :: 0 <= i < |parts| ==> sep !in parts[i]) ==>
              Split(Join(parts, sep), sep) == parts
    decreases |parts|
  {
    if |parts| == 0 || exists i :: 0 <= i < |parts| && sep in parts[i] {
    } else if |parts| == 1 {
      SplitWithoutSeparator(parts[0], sep);
    } else {
      SplitJoin(parts[1..], sep);
      SplitWithoutSeparator(parts[0], sep);
      SplitAtSeparator(parts[0], Join(parts[1..], sep), sep);
      assert [parts[0]] + parts[1..] == parts;
    }
  }

  // ---------------------------------------------------------------- decimals

  predicate IsDigit(c: char) {
    '0' <= c <= '9'
  }

  function DigitChar(d: nat): (c: char)
    requires d < 10
    ensures IsDigit(c)
  {
    "0123456789"[d]
  }

  function DigitValue(c: char): (d: nat)
    requires IsDigit(c)
    ensures d < 10
  {
    (c as int - '0' as int) as nat
  }

  /** The decimal text JavaScript prints for a non-negative integer. */
  function NatToString(n: nat): (s: string)
    ensures |s| >= 1
    ensures forall i :: 0 <= i < |s| ==> IsDigit(s[i])
    ensures |s| > 1 ==> s[0] != '0'
    decreases n
  {
    if n < 10 then [DigitChar(n)] else NatToString(n / 10) + [DigitChar(n % 10)]
  }

  /** The decimal text JavaScript prints for an integer (template literal `${n}`). */
  function IntToString(n: int): string {
    if n < 0 then "-" + NatToString(-n) else NatToString(n)
  }

  /** Reads a non-empty string of decimal digits. */
  function ParseNat(s: string): (r: Option<nat>)
    ensures r.Some? <==> |s| >= 1 && forall i :: 0 <= i < |s| ==> IsDigit(s[i])
    decreases |s|
  {
    if |s| == 0 || !IsDigit(s[|s| - 1]) then None
    else if |s| == 1 then Some(DigitValue(s[0]))
    else match ParseNat(s[..|s| - 1])
      case None => None
      case Some(m) => Some(m * 10 + DigitValue(s[|s| - 1]))
  }

  /** Round trip of the decimal rendering. */
  lemma {:induction false} ParseNatToString(n: nat)
    ensures ParseNat(NatToString(n)) == Some(n)
    decreases n
  {
    if n < 10 {
      DigitRoundTrip(n);
      assert NatToString(n) == [DigitChar(n)];
    } else {
      ParseNatToString(n / 10);
      DigitRoundTrip(n % 10);
      ParseNatSnoc(NatToString(n / 10), n / 10, DigitChar(n % 10));
      assert NatToString(n) == NatToString(n / 10) + [DigitChar(n % 10)];
    }
  }

  /** Appending a digit multiplies the value read by ten and adds the digit. */
  lemma ParseNatSnoc(p: string, m: nat, c: char)
    requires ParseNat(p) == Some(m) && IsDigit(c)
    ensures ParseNat(p + [c]) == Some(m * 10 + DigitValue(c))
  {
    var t := p + [c];
    assert t[..|t| - 1] == p && t[|t| - 1] == c;
  }

  lemma DigitRoundTrip(d: nat)
    requires d < 10
    ensures DigitValue(DigitChar(d)) == d
  {
    assert "0123456789"[d] as int - '0' as int == d;
  }
}
