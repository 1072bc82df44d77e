/** Python string operations and numpy's text-to-number conversion, as the export readers use them. */
module Text {
  import opened Errors

  /** The characters Python's `str.split()` and `str.strip()` treat as white space (the ASCII ones). */
  predicate IsSpace(c: char) {
    c == ' ' || c == '\t' || c == '\n' || c == '\r' || c == '\U{B}' || c == '\U{C}' || '\U{1C}' <= c <= '\U{1F}'
  }

  function StripStart(s: string): string {
    if s != [] && IsSpace(s[0]) then StripStart(s[1..]) else s
  }

  function StripEnd(s: string): string {
    if s != [] && IsSpace(s[|s| - 1]) then StripEnd(s[..|s| - 1]) else s
  }

  /** `s.strip()` */
  function Strip(s: string): string {
    StripEnd(StripStart(s))
  }

  /** Python's slice `s[k:]` for a non-negative `k`: empty once `k` passes the end. */
  function From(s: string, k: nat): string {
    if k <= |s| then s[k..] else []
  }

  /** Python's slice `s[:k]` compared with a literal: `s` starts with `lit`. */
  predicate StartsWith(s: string, lit: string) {
    |lit| <= |s| && s[..|lit|] == lit
  }

  /** Length of the leading run of non-space characters. */
  function WordLength(s: string): (n: nat)
    ensures n <= |s|
    ensures forall j :: 0 <= j < n ==> !IsSpace(s[j])
    ensures n == |s| || IsSpace(s[n])
  {
    if s == [] || IsSpace(s[0]) then 0 else 1 + WordLength(s[1..])
  }

  /** `s.split()`: the maximal runs of non-space characters, in order. */
  function Words(s: string): (ws: seq<string>)
    ensures forall w <- ws :: w != [] && forall c <- w :: !IsSpace(c)
    decreases |s|
  {
    if s == [] then []
    else if IsSpace(s[0]) then Words(s[1..])
    else
      var n := WordLength(s);
      [s[..n]] + Words(s[n..])
  }

  /** `s.split(sep)`: the pieces between occurrences of `sep`, empty pieces included. */
  function Split(s: string, sep: char): (parts: seq<string>)
    ensures |parts| >= 1
    ensures |parts| == 1 <==> sep !in s
    ensures forall p <- parts :: sep !in p
  {
    if s == [] then [[]]
    else
      var rest := Split(s[1..], sep);
      assert s == [s[0]] + s[1..];
      if s[0] == sep then [[]] + rest else [[s[0]] + rest[0]] + rest[1..]
  }

  /** `xs.index(x)`, or `None` where Python raises ValueError. */
  function IndexOf<T(==)>(xs: seq<T>, x: T): (r: Option<nat>)
    ensures r.None? <==> x !in xs
    ensures r.Some? ==> r.value < |xs| && xs[r.value] == x && x !in xs[..r.value]
  {
    if xs == [] then None
    else if xs[0] == x then Some(0)
    else match IndexOf(xs[1..], x)
      case None => None
      case Some(i) =>
        assert xs[..i + 1] == [xs[0]] + xs[1..][..i];
        Some(i + 1)
  }

  /** The first position holding `x` is the one `IndexOf` finds. */
  lemma IndexOfFirst<T>(xs: seq<T>, x: T, a: nat)
    requires a < |xs| && xs[a] == x && x !in xs[..a]
    ensures IndexOf(xs, x) == Some(a)
  {
    var b := IndexOf(xs, x).value;
    assert forall j :: 0 <= j < b ==> xs[..b][j] != x;
    assert forall j :: 0 <= j < a ==> xs[..a][j] != x;
  }

  /** `s.split(sep, 1)`: `[s]` when `sep` is absent, else the text before and after its first occurrence. */
  function SplitOnce(s: string, sep: char): (parts: seq<string>)
    ensures |parts| == if sep in s then 2 else 1
  {
    match IndexOf(s, sep)
    case None => [s]
    case Some(i) => [s[..i], s[i + 1..]]
  }

  /** `s.lower()` on ASCII letters. */
  function Lower(s: string): string {
    seq(|s|, i requires 0 <= i < |s| => if 'A' <= s[i] <= 'Z' then (s[i] as int + 32) as char else s[i])
  }

  /** `s.replace(a, b)` for single characters. */
  function ReplaceChar(s: string, a: char, b: char): string {
    seq(|s|, i requires 0 <= i < |s| => if s[i] == a then b else s[i])
  }

  /** `s.replace(a, "")` for a single character. */
  function RemoveChar(s: string, a: char): (r: string)
    ensures forall c <- r :: c in s && c != a
    ensures forall c <- s :: c != a ==> c in r
    ensures a !in s ==> r == s
  {
    if s == [] then [] else (if s[0] == a then [] else [s[0]]) + RemoveChar(s[1..], a)
  }

  predicate IsDigit(c: char) {
    '0' <= c <= '9'
  }

  function DigitsValue(s: string): nat
    requires forall c <- s :: IsDigit(c)
  {
    if s == [] then 0
    else
      assert s[|s| - 1] in s && IsDigit(s[|s| - 1]);
      10 * DigitsValue(s[..|s| - 1]) + (s[|s| - 1] as int - '0' as int)
  }

  /** Digits with single underscores between them, which Python's `int()` accepts. */
  predicate IsGroupedDigits(s: string) {
    && |s| > 0 && IsDigit(s[0]) && IsDigit(s[|s| - 1])
    && (forall c <- s :: IsDigit(c) || c == '_')
    && (forall j :: 0 <= j < |s| - 1 ==> !(s[j] == '_' && s[j + 1] == '_'))
  }

  /** Python's `int(s)` on a string: its value, or `None` where it raises ValueError. */
  function PyInt(s: string): Option<int> {
    var t := Strip(s);
    var signed := |t| > 0 && (t[0] == '+' || t[0] == '-');
    var body := if signed then t[1..] else t;
    if !IsGroupedDigits(body) then None
    else
      var n: int := DigitsValue(RemoveChar(body, '_'));
      var v := if signed && t[0] == '-' then -n else n;
      Some(v)
  }

  /** One number as numpy reads it from text: an optional sign and decimal digits. */
  function NumpyInt(field: string): Option<int> {
    var signed := |field| > 0 && (field[0] == '+' || field[0] == '-');
    var body := if signed then field[1..] else field;
    if body == [] || exists c <- body :: !IsDigit(c) then None
    else
      var n: int := DigitsValue(body);
      var v := if signed && field[0] == '-' then -n else n;
      Some(v)
  }

  /** The fields numpy's `fromstring(line, sep=sep)` reads. A white-space character in `sep`
      matches any run of white space, so a space or a tab separator both give the white-space
      separated words; any other separator gives the pieces between separators, surrounding
      white space ignored. */
  function Fields(line: string, sep: char): seq<string> {
    if IsSpace(sep) then Words(line)
    else StripAll(Split(line, sep))
  }

  /** Each piece with its surrounding white space removed. */
  function StripAll(parts: seq<string>): (r: seq<string>)
    ensures |r| == |parts|
  {
    if parts == [] then [] else [Strip(parts[0])] + StripAll(parts[1..])
  }

  /** The numbers of the leading fields that parse; reading stops at the first field that does not. */
  function LeadingNumbers(fields: seq<string>): (xs: seq<int>)
    ensures |xs| <= |fields|
  {
    if fields == [] then []
    else match NumpyInt(fields[0])
      case None => []
      case Some(x) => [x] + LeadingNumbers(fields[1..])
  }

  /** numpy's `fromstring(line, dtype=int, sep=sep)`: one data row. */
  function ParseNumbers(line: string, sep: char): seq<int> {
    LeadingNumbers(Fields(line, sep))
  }

  /** numpy's reader for one separator, as a function of the line. */
  function Numbers(sep: char): string -> seq<int> {
    line => ParseNumbers(line, sep)
  }

  /** `lit` occurs in `s` at position `p`. */
  predicate OccursAt(s: string, p: nat, lit: string) {
    p + |lit| <= |s| && s[p..p + |lit|] == lit
  }

  /** The regex `before.after` (an unescaped `.` between two literals) matches `s` at position `q`;
      file names hold no line breaks, so the `.` matches any character there. */
  predicate DotPatternAt(s: string, q: nat, before: string, after: string) {
    OccursAt(s, q, before) && OccursAt(s, q + |before| + 1, after)
  }

  /** The last position below `hi` where `lit` occurs. */
  function LastOccurrence(s: string, lit: string, hi: nat): (r: Option<nat>)
    ensures r.Some? ==> r.value < hi && OccursAt(s, r.value, lit)
    ensures r.Some? ==> forall p: nat :: r.value < p < hi ==> !OccursAt(s, p, lit)
    ensures r.None? ==> forall p: nat :: p < hi ==> !OccursAt(s, p, lit)
  {
    if hi == 0 then None
    else if OccursAt(s, hi - 1, lit) then Some(hi - 1)
    else LastOccurrence(s, lit, hi - 1)
  }

  /** The last position below `hi` where the regex `before.after` matches. */
  function LastDotPattern(s: string, before: string, after: string, hi: nat): (r: Option<nat>)
    ensures r.Some? ==> r.value < hi && DotPatternAt(s, r.value, before, after)
    ensures r.Some? ==> forall q: nat :: r.value < q < hi ==> !DotPatternAt(s, q, before, after)
    ensures r.None? ==> forall q: nat :: q < hi ==> !DotPatternAt(s, q, before, after)
  {
    if hi == 0 then None
    else if DotPatternAt(s, hi - 1, before, after) then Some(hi - 1)
    else LastDotPattern(s, before, after, hi - 1)
  }

  /** `s.replace(target, replacement)`: every non-overlapping occurrence, scanned from the left. */
  function ReplaceAll(s: string, target: string, replacement: string): string
    requires target != []
    decreases |s|
  {
    if |s| < |target| then s
    else if s[..|target|] == target then replacement + ReplaceAll(s[|target|..], target, replacement)
    else [s[0]] + ReplaceAll(s[1..], target, replacement)
  }

  lemma OccursAtTail(s: string, k: nat, lit: string)
    requires s != []
    ensures OccursAt(s[1..], k, lit) <==> OccursAt(s, k + 1, lit)
  {
    if k + |lit| <= |s| - 1 {
      assert s[1..][k..k + |lit|] == s[k + 1..k + 1 + |lit|];
    }
  }

  /** `ReplaceAll` passes over a prefix in which no occurrence starts. */
  lemma {:induction false} ReplaceAfterCleanPrefix(p: string, rest: string, target: string, replacement: string)
    requires target != []
    requires forall k: nat :: k < |p| ==> !OccursAt(p + rest, k, target)
    ensures ReplaceAll(p + rest, target, replacement) == p + ReplaceAll(rest, target, replacement)
    decreases |p|
  {
    if p != [] {
      var s := p + rest;
      assert !OccursAt(s, 0, target);
      assert s[1..] == p[1..] + rest;
      forall k: nat | k < |p[1..]|
        ensures !OccursAt(p[1..] + rest, k, target)
      {
        OccursAtTail(s, k, target);
      }
      ReplaceAfterCleanPrefix(p[1..], rest, target, replacement);
      if |s| < |target| {
        assert ReplaceAll(rest, target, replacement) == rest;
        assert ReplaceAll(s, target, replacement) == s;
      } else {
        assert s[..|target|] != target;
        assert ReplaceAll(s, target, replacement) == [s[0]] + ReplaceAll(s[1..], target, replacement);
        assert [s[0]] + p[1..] == p;
        assert [s[0]] + (p[1..] + ReplaceAll(rest, target, replacement)) == p + ReplaceAll(rest, target, replacement);
      }
    } else {
      assert p + rest == rest;
    }
  }
}
