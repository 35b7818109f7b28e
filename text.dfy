/** The JavaScript string built-ins the quotation code relies on: trimming,
    case mapping, prefix and substring tests, runs of digits and the
    whitespace split used by the PDF word wrapper. Strings are sequences of
    characters; only the behaviour the code depends on is modelled. */
module Text {

  datatype Option<T> = None | Some(value: T)

  /** The characters JavaScript's `trim` and the regular-expression class `\s` treat as white space. */
  predicate IsSpace(c: char) {
    c == ' ' || c == '\t' || c == '\n' || c == '\r' || c == '\U{B}' || c == '\U{C}'
    || c == '\U{A0}' || c == '\U{1680}' || ('\U{2000}' <= c <= '\U{200A}')
    || c == '\U{2028}' || c == '\U{2029}' || c == '\U{202F}' || c == '\U{205F}'
    || c == '\U{3000}' || c == '\U{FEFF}'
  }

  predicate NoSpace(s: string) {
    forall i :: 0 <= i < |s| ==> !IsSpace(s[i])
  }

  function TrimLeft(s: string): (r: string)
    ensures |r| <= |s| && r == s[|s| - |r|..]
    ensures r == "" || !IsSpace(r[0])
    ensures forall i :: 0 <= i < |s| - |r| ==> IsSpace(s[i])
  {
    if s != "" && IsSpace(s[0]) then TrimLeft(s[1..]) else s
  }

  function TrimRight(s: string): (r: string)
    ensures |r| <= |s| && r == s[..|r|]
    ensures r == "" || !IsSpace(r[|r| - 1])
    ensures forall i :: |r| <= i < |s| ==> IsSpace(s[i])
  {
    if s != "" && IsSpace(s[|s| - 1]) then TrimRight(s[..|s| - 1]) else s
  }

  /** `String.prototype.trim`. */
  function Trim(s: string): (r: string)
    ensures r == "" || (!IsSpace(r[0]) && !IsSpace(r[|r| - 1]))
  {
    TrimRight(TrimLeft(s))
  }

  lemma {:induction false} TrimLeftNoLead(s: string)
    requires s == "" || !IsSpace(s[0])
    ensures TrimLeft(s) == s
  {
  }

  lemma {:induction false} TrimRightNoTrail(s: string)
    requires s == "" || !IsSpace(s[|s| - 1])
    ensures TrimRight(s) == s
  {
  }

  lemma {:induction false} TrimRightKeepsLead(s: string)
    requires s == "" || !IsSpace(s[0])
    ensures TrimRight(s) == "" || !IsSpace(TrimRight(s)[0])
  {
    if s != "" && IsSpace(s[|s| - 1]) {
      TrimRightKeepsLead(s[..|s| - 1]);
    }
  }

  /** Trimming twice is trimming once. */
  lemma {:induction false} TrimIdempotent(s: string)
    ensures Trim(Trim(s)) == Trim(s)
  {
    var l := TrimLeft(s);
    TrimRightKeepsLead(l);
    TrimLeftNoLead(TrimRight(l));
    TrimRightNoTrail(TrimRight(l));
  }

  /** A string with no white space at either end is its own trim. */
  lemma {:induction false} TrimOfTrimmed(s: string)
    requires s == "" || (!IsSpace(s[0]) && !IsSpace(s[|s| - 1]))
    ensures Trim(s) == s
  {
    TrimLeftNoLead(s);
    TrimRightNoTrail(s);
  }

  /** Blanks before a string that does not start with one vanish under `trimStart`. */
  lemma {:induction false} TrimLeftSpacePrefix(p: string, x: string)
    requires forall i :: 0 <= i < |p| ==> IsSpace(p[i])
    requires x == "" || !IsSpace(x[0])
    ensures TrimLeft(p + x) == x
    decreases |p|
  {
    if p == [] {
      assert p + x == x;
      TrimLeftNoLead(x);
    } else {
      assert (p + x)[1..] == p[1..] + x;
      TrimLeftSpacePrefix(p[1..], x);
    }
  }

  lemma {:induction false} TrimLeftAppend(s: string, x: string)
    requires TrimLeft(s) != ""
    ensures TrimLeft(s + x) == TrimLeft(s) + x
  {
    assert s != "" && (s + x)[0] == s[0];
    if IsSpace(s[0]) {
      assert (s + x)[1..] == s[1..] + x;
      assert TrimLeft(s) == TrimLeft(s[1..]);
      TrimLeftAppend(s[1..], x);
      assert TrimLeft(s + x) == TrimLeft(s[1..] + x);
    } else {
      assert TrimLeft(s) == s;
      assert TrimLeft(s + x) == s + x;
    }
  }

  lemma {:induction false} TrimLeftAllSpaces(s: string)
    requires forall i :: 0 <= i < |s| ==> IsSpace(s[i])
    ensures TrimLeft(s) == ""
  {
    if s != "" {
      TrimLeftAllSpaces(s[1..]);
    }
  }

  lemma {:induction false} TrimEmpty()
    ensures Trim("") == ""
  {
    assert TrimLeft("") == "";
  }

  /** One trailing blank never survives `trim`. */
  lemma {:induction false} TrimSpaceAfter(s: string)
    ensures Trim(s + " ") == Trim(s)
  {
    if TrimLeft(s) == "" {
      TrimLeftBlankAppend(s, " ");
      TrimLeftBlank();
    } else {
      TrimLeftAppend(s, " ");
      TrimRightSpace(TrimLeft(s));
    }
  }

  lemma {:induction false} TrimLeftBlank()
    ensures TrimLeft(" ") == ""
  {
    assert " "[1..] == "";
  }

  /** A prefix that trims to nothing does not change what `trimStart` leaves. */
  lemma {:induction false} TrimLeftBlankAppend(s: string, x: string)
    requires TrimLeft(s) == ""
    ensures TrimLeft(s + x) == TrimLeft(x)
    decreases |s|
  {
    if s == "" {
      assert s + x == x;
    } else {
      assert (s + x)[0] == s[0] && (s + x)[1..] == s[1..] + x;
      TrimLeftBlankAppend(s[1..], x);
    }
  }

  lemma {:induction false} TrimRightSpace(t: string)
    ensures TrimRight(t + " ") == TrimRight(t)
  {
    var u := t + " ";
    assert u[..|u| - 1] == t;
  }

  /** Lower-casing of one character: ASCII and the Latin-1 capitals. */
  function ToLowerChar(c: char): (r: char)
    ensures ('A' <= c <= 'Z') ==> r as int == c as int + 32
    ensures !('A' <= c <= 'Z') && !('\U{C0}' <= c <= '\U{DE}') ==> r == c
  {
    if 'A' <= c <= 'Z' || ('\U{C0}' <= c <= '\U{DE}' && c != '\U{D7}') then
      (c as int + 32) as char
    else c
  }

  /** Upper-casing of one character: ASCII and the Latin-1 small letters that map to one capital. */
  function ToUpperChar(c: char): (r: char)
    ensures ('a' <= c <= 'z') ==> r as int == c as int - 32
    ensures !('a' <= c <= 'z') && !('\U{E0}' <= c <= '\U{FE}') ==> r == c
  {
    if 'a' <= c <= 'z' || ('\U{E0}' <= c <= '\U{FE}' && c != '\U{F7}') then
      (c as int - 32) as char
    else c
  }

  lemma {:induction false} ToUpperIdempotent(c: char)
    ensures ToUpperChar(ToUpperChar(c)) == ToUpperChar(c)
  {
  }

  /** `String.prototype.toLowerCase` on the characters above. */
  function ToLower(s: string): (r: string)
    ensures |r| == |s|
    ensures forall i :: 0 <= i < |s| ==> r[i] == ToLowerChar(s[i])
  {
    if s == "" then "" else [ToLowerChar(s[0])] + ToLower(s[1..])
  }

  /** A capitalised word of ASCII letters lowers to its first letter lowered
      and the rest unchanged. */
  lemma {:induction false} LowerCapitalised(s: string)
    requires |s| >= 1 && 'A' <= s[0] <= 'Z'
    requires forall i :: 1 <= i < |s| ==> 'a' <= s[i] <= 'z'
    ensures ToLower(s) == [(s[0] as int + 32) as char] + s[1..]
  {
    var r := [(s[0] as int + 32) as char] + s[1..];
    assert forall i :: 0 <= i < |s| ==> ToLower(s)[i] == r[i];
  }

  predicate StartsWith(s: string, prefix: string) {
    |prefix| <= |s| && s[..|prefix|] == prefix
  }

  /** `s` does not start with `p` when they differ at position `k`. */
  lemma {:induction false} NotPrefix(s: string, p: string, k: nat)
    requires k < |p| && k < |s| && s[k] != p[k]
    ensures !StartsWith(s, p)
  {
    if |p| <= |s| {
      assert s[..|p|][k] == s[k];
    }
  }

  /** `s.includes(p)`, the test a regular expression without anchors makes for a literal. */
  predicate Contains(s: string, p: string) {
    exists i :: 0 <= i <= |s| && StartsWith(s[i..], p)
  }

  /** `p` occurs nowhere in `s` when one of its characters is missing from `s`. */
  lemma {:induction false} NotContains(s: string, p: string, k: nat)
    requires k < |p| && p[k] !in s
    ensures !Contains(s, p)
  {
  }

  /** The position of the first `c` in `s`, or `|s|` when there is none. */
  function IndexOf(s: string, c: char): (i: nat)
    ensures i <= |s|
    ensures i < |s| ==> s[i] == c
    ensures forall j :: 0 <= j < i ==> s[j] != c
    decreases |s|
  {
    if s == "" then 0
    else if s[0] == c then 0
    else
      var k := IndexOf(s[1..], c);
      assert forall j :: 1 <= j < k + 1 ==> s[j] == s[1..][j - 1];
      k + 1
  }

  /** `s.replace(a, b)` with a one-character string pattern: only the first
      occurrence of `a` is replaced. */
  function ReplaceFirst(s: string, a: char, b: char): (r: string)
    ensures |r| == |s|
  {
    var i := IndexOf(s, a);
    if i < |s| then s[..i] + [b] + s[i + 1..] else s
  }

  /** What `ReplaceFirst` changes: the first `a` becomes `b` and every other
      character, later occurrences of `a` included, is kept. */
  lemma {:induction false} ReplaceFirstSpec(s: string, a: char, b: char)
    ensures a !in s ==> ReplaceFirst(s, a, b) == s
    ensures a in s ==> IndexOf(s, a) < |s| && ReplaceFirst(s, a, b)[IndexOf(s, a)] == b
    ensures forall j :: 0 <= j < |s| && j != IndexOf(s, a) ==> ReplaceFirst(s, a, b)[j] == s[j]
  {
    var i := IndexOf(s, a);
    if a in s {
      var k :| 0 <= k < |s| && s[k] == a;
      assert i <= k;
    }
    if i < |s| {
      var r := s[..i] + [b] + s[i + 1..];
      assert forall j :: 0 <= j < i ==> r[j] == s[j];
      assert forall j :: i < j < |s| ==> r[j] == s[j];
    }
  }

  predicate IsDigit(c: char) {
    '0' <= c <= '9'
  }

  function DigitValue(c: char): nat
    requires IsDigit(c)
  {
    c as int - '0' as int
  }

  predicate AllDigits(s: string) {
    forall i :: 0 <= i < |s| ==> IsDigit(s[i])
  }

  /** The number a string of decimal digits denotes (leading zeros allowed). */
  function DigitsValue(s: string): nat
    requires AllDigits(s)
  {
    if s == "" then 0 else DigitsValue(s[..|s| - 1]) * 10 + DigitValue(s[|s| - 1])
  }

  /** `String(n)` for a natural number. */
  function NatToString(n: nat): (s: string)
    ensures s != "" && AllDigits(s)
  {
    if n < 10 then ['0' + n as char] else NatToString(n / 10) + ['0' + (n % 10) as char]
  }

  /** Printing a number and reading its digits back gives the number. */
  lemma {:induction false} NatToStringRoundTrip(n: nat)
    ensures DigitsValue(NatToString(n)) == n
  {
    var s := NatToString(n);
    if n >= 10 {
      NatToStringRoundTrip(n / 10);
      assert s[..|s| - 1] == NatToString(n / 10);
    }
  }

  /** How many characters at the front of `s` are digits. */
  function LeadingDigits(s: string): (n: nat)
    ensures n <= |s| && AllDigits(s[..n])
    ensures n < |s| ==> !IsDigit(s[n])
  {
    if s != "" && IsDigit(s[0]) then
      var k := LeadingDigits(s[1..]);
      assert s[..k + 1] == [s[0]] + s[1..][..k];
      k + 1
    else 0
  }

  /** The values of the maximal runs of digits in `s`, left to right (`s.match(/\d+/g)`). */
  function DigitRuns(s: string): seq<nat>
    decreases |s|
  {
    if s == "" then []
    else if IsDigit(s[0]) then
      var n := LeadingDigits(s);
      [DigitsValue(s[..n])] + DigitRuns(s[n..])
    else DigitRuns(s[1..])
  }

  /** The first run of digits in `s`, if any (`s.match(/(\d+)/)`). */
  function FirstDigitRun(s: string): (r: Option<nat>)
    ensures r.None? <==> DigitRuns(s) == []
    ensures r.Some? ==> r.value == DigitRuns(s)[0]
    decreases |s|
  {
    if s == "" then None
    else if IsDigit(s[0]) then Some(DigitsValue(s[..LeadingDigits(s)]))
    else FirstDigitRun(s[1..])
  }

  /** A string without any digit has no digit run. */
  lemma {:induction false} NoDigitNoRuns(s: string)
    requires forall i :: 0 <= i < |s| ==> !IsDigit(s[i])
    ensures DigitRuns(s) == []
  {
    if s != "" {
      NoDigitNoRuns(s[1..]);
    }
  }

  /** `s.split(/\s+/)` with the current word accumulated in `cur`: a leading
      blank run yields an empty first word, a trailing one an empty last word. */
  function SplitFrom(s: string, cur: string): (words: seq<string>)
    requires NoSpace(cur)
    ensures |words| >= 1
    ensures forall k :: 0 <= k < |words| ==> NoSpace(words[k])
    ensures forall k :: 0 < k < |words| - 1 ==> words[k] != ""
    ensures |words| > 1 && (cur != "" || (s != "" && !IsSpace(s[0]))) ==> words[0] != ""
    decreases |s|
  {
    if s == "" then [cur]
    else if IsSpace(s[0]) then [cur] + SplitFrom(TrimLeft(s), "")
    else SplitFrom(s[1..], cur + [s[0]])
  }

  /** `s.split(/\s+/)`: every word is free of white space and only the first
      and last may be empty. */
  function SplitWords(s: string): (words: seq<string>)
    ensures |words| >= 1
    ensures forall k :: 0 <= k < |words| ==> NoSpace(words[k])
    ensures forall k :: 0 < k < |words| - 1 ==> words[k] != ""
    ensures |words| > 1 && s != "" && !IsSpace(s[0]) ==> words[0] != ""
  {
    SplitFrom(s, "")
  }

  /** The non-empty entries of `ws`, in order. */
  function NonEmpty(ws: seq<string>): (r: seq<string>)
    ensures |r| <= |ws|
    ensures forall k :: 0 <= k < |r| ==> r[k] != ""
  {
    if ws == [] then []
    else if ws[0] == "" then NonEmpty(ws[1..])
    else [ws[0]] + NonEmpty(ws[1..])
  }

  /** `ws.join(" ")`. */
  function JoinSpaces(ws: seq<string>): string
  {
    if |ws| == 0 then ""
    else if |ws| == 1 then ws[0]
    else JoinSpaces(ws[..|ws| - 1]) + " " + ws[|ws| - 1]
  }
}
