/**
 * Character classes and the small PHP string primitives the plugin relies on:
 * `trim`, `empty`, `ucfirst`, `implode`, integer-to-string conversion and
 * ASCII case folding (the case-insensitive regular expressions and
 * `str_ireplace` fold ASCII letters only).
 */
module Text {

  datatype Option<T> = None | Some(value: T)

  /** The whitespace class. It stands for PCRE's `\s` and for the characters `trim` removes. */
  predicate IsSpace(c: char) {
    c == ' ' || c == '\t' || c == '\n' || c == '\r' || c == '\U{000B}' || c == '\U{000C}'
  }

  predicate IsDigit(c: char) { '0' <= c <= '9' }

  predicate IsAsciiLetter(c: char) { 'a' <= c <= 'z' || 'A' <= c <= 'Z' }

  /** PHP's `empty()` on a string: true for "" and for "0". */
  predicate PhpEmpty(s: string) { s == "" || s == "0" }

  predicate AllSpace(s: string) {
    forall i :: 0 <= i < |s| ==> IsSpace(s[i])
  }

  /** No two whitespace characters stand next to each other. */
  predicate NoDoubleSpace(s: string) {
    forall i :: 0 <= i < |s| - 1 ==> !(IsSpace(s[i]) && IsSpace(s[i + 1]))
  }

  /** Neither the first nor the last character is whitespace. */
  predicate Trimmed(s: string) {
    |s| == 0 || (!IsSpace(s[0]) && !IsSpace(s[|s| - 1]))
  }

  predicate StartsAt(s: string, p: nat, lit: string) {
    p + |lit| <= |s| && s[p..p + |lit|] == lit
  }

  predicate Contains(s: string, lit: string) {
    exists p :: 0 <= p <= |s| && StartsAt(s, p, lit)
  }

  predicate EndsWith(s: string, lit: string) {
    |lit| <= |s| && s[|s| - |lit|..] == lit
  }

  function Lower(c: char): char {
    if 'A' <= c <= 'Z' then (c as int + 32) as char else c
  }

  function Upper(c: char): char {
    if 'a' <= c <= 'z' then (c as int - 32) as char else c
  }

  /** `lit` occurs at `p` when ASCII case is ignored. */
  predicate StartsAtIgnoringCase(s: string, p: nat, lit: string) {
    p + |lit| <= |s| && forall k :: 0 <= k < |lit| ==> Lower(s[p + k]) == Lower(lit[k])
  }

  /** Length of the whitespace prefix. */
  function LeadingSpace(s: string): (n: nat)
    ensures n <= |s|
    ensures AllSpace(s[..n])
    ensures n < |s| ==> !IsSpace(s[n])
  {
    if |s| > 0 && IsSpace(s[0]) then 1 + LeadingSpace(s[1..]) else 0
  }

  /** Length of the whitespace suffix. */
  function TrailingSpace(s: string): (n: nat)
    ensures n <= |s|
    ensures AllSpace(s[|s| - n..])
    ensures n < |s| ==> !IsSpace(s[|s| - n - 1])
  {
    if |s| > 0 && IsSpace(s[|s| - 1]) then 1 + TrailingSpace(s[..|s| - 1]) else 0
  }

  function TrimEnd(s: string): string {
    s[..|s| - TrailingSpace(s)]
  }

  /** PHP `trim`, over the whitespace class above. */
  function Trim(s: string): (r: string)
    ensures Trimmed(r)
  {
    var t := TrimEnd(s);
    t[LeadingSpace(t)..]
  }

  /** `Trim(s)` is the slice `s[i..j]`, and everything cut off is whitespace. */
  lemma TrimSlice(s: string) returns (i: nat, j: nat)
    ensures i <= j <= |s| && Trim(s) == s[i..j]
    ensures AllSpace(s[..i]) && AllSpace(s[j..])
  {
    var t := TrimEnd(s);
    j := |s| - TrailingSpace(s);
    i := LeadingSpace(t);
    assert t == s[..j];
    assert s[..i] == t[..i];
  }

  lemma TrimOfTrimmed(s: string)
    requires Trimmed(s)
    ensures Trim(s) == s
  {
    assert TrailingSpace(s) == 0;
    assert TrimEnd(s) == s;
    assert LeadingSpace(s) == 0;
  }

  lemma TrimEmptyIffAllSpace(s: string)
    ensures Trim(s) == [] <==> AllSpace(s)
  {
    var i, j := TrimSlice(s);
    if Trim(s) == [] {
      assert s == s[..i] + s[j..];
    }
  }

  lemma SliceKeepsNoDoubleSpace(s: string, i: nat, j: nat)
    requires i <= j <= |s| && NoDoubleSpace(s)
    ensures NoDoubleSpace(s[i..j])
  {
    forall k | 0 <= k < j - i - 1 ensures !(IsSpace(s[i..j][k]) && IsSpace(s[i..j][k + 1])) {
      assert s[i..j][k] == s[i + k] && s[i..j][k + 1] == s[i + k + 1];
    }
  }

  lemma TrimKeepsNoDoubleSpace(s: string)
    requires NoDoubleSpace(s)
    ensures NoDoubleSpace(Trim(s))
  {
    var i, j := TrimSlice(s);
    SliceKeepsNoDoubleSpace(s, i, j);
  }

  /** Every character of `Trim(s)` occurs in `s`. */
  lemma TrimChars(s: string)
    ensures forall c :: c in Trim(s) ==> c in s
  {
    var i, j := TrimSlice(s);
    forall c | c in Trim(s) ensures c in s {
      var k :| 0 <= k < |s[i..j]| && s[i..j][k] == c;
      assert s[i + k] == c;
    }
  }

  /** PHP `ucfirst`: upper-cases an initial ASCII letter. */
  function Ucfirst(s: string): (r: string)
    ensures |r| == |s|
    ensures |s| > 0 ==> r[0] == Upper(s[0]) && r[1..] == s[1..]
  {
    if |s| == 0 then s else [Upper(s[0])] + s[1..]
  }

  /** PHP `implode(sep, parts)`. */
  function Join(parts: seq<string>, sep: string): (r: string)
    ensures |parts| == 0 ==> r == ""
    ensures |parts| == 1 ==> r == parts[0]
  {
    if |parts| == 0 then ""
    else if |parts| == 1 then parts[0]
    else parts[0] + sep + Join(parts[1..], sep)
  }

  /** A sequence is the part before `k`, the element at `k` and the part after. */
  lemma AroundIndex<T>(s: seq<T>, k: nat)
    requires k < |s|
    ensures s[..k] + [s[k]] + s[k + 1..] == s
  {
  }

  /** `implode` over a first part and the rest. */
  lemma JoinCons(a: string, parts: seq<string>, sep: string)
    ensures Join([a] + parts, sep) == if |parts| == 0 then a else a + sep + Join(parts, sep)
  {
    assert ([a] + parts)[1..] == parts;
  }

  /** PHP `explode` with a one-character separator. */
  function Explode(s: string, sep: char): (r: seq<string>)
    ensures |r| > 0
    ensures forall k :: 0 <= k < |r| ==> sep !in r[k]
    decreases |s|
  {
    if |s| == 0 then [""]
    else
      var rest := Explode(s[1..], sep);
      if s[0] == sep then [""] + rest else [[s[0]] + rest[0]] + rest[1..]
  }

  /** Joining the pieces with the separator gives the text back. */
  lemma {:induction false} JoinExplode(s: string, sep: char)
    ensures Join(Explode(s, sep), [sep]) == s
    decreases |s|
  {
    if |s| > 0 {
      var rest := Explode(s[1..], sep);
      JoinExplode(s[1..], sep);
      JoinCons(rest[0], rest[1..], [sep]);
      assert rest == [rest[0]] + rest[1..];
      if s[0] == sep {
        JoinCons("", rest, [sep]);
      } else {
        JoinCons([s[0]] + rest[0], rest[1..], [sep]);
      }
      assert s == [s[0]] + s[1..];
    }
  }

  /** A piece without the separator, then the separator: `explode` splits there. */
  lemma {:induction false} ExplodeAfterPiece(a: string, sep: char, t: string)
    requires sep !in a
    ensures Explode(a + [sep] + t, sep) == [a] + Explode(t, sep)
    decreases |a|
  {
    var s := a + [sep] + t;
    if |a| == 0 {
      assert s[1..] == t;
    } else {
      assert s[1..] == a[1..] + [sep] + t;
      ExplodeAfterPiece(a[1..], sep, t);
      assert [a[0]] + a[1..] == a;
    }
  }

  lemma {:induction false} ExplodeWhole(a: string, sep: char)
    requires sep !in a
    ensures Explode(a, sep) == [a]
    decreases |a|
  {
    if |a| > 0 {
      ExplodeWhole(a[1..], sep);
      assert [a[0]] + a[1..] == a;
    }
  }

  /** Splitting pieces joined by a separator none of them holds gives the pieces back. */
  lemma {:induction false} ExplodeJoin(parts: seq<string>, sep: char)
    requires |parts| > 0 && forall i :: 0 <= i < |parts| ==> sep !in parts[i]
    ensures Explode(Join(parts, [sep]), sep) == parts
    decreases |parts|
  {
    if |parts| == 1 {
      ExplodeWhole(parts[0], sep);
    } else {
      ExplodeJoin(parts[1..], sep);
      ExplodeAfterPiece(parts[0], sep, Join(parts[1..], [sep]));
      assert [parts[0]] + parts[1..] == parts;
    }
  }

  function DigitChar(d: nat): char
    requires d < 10
  {
    ('0' as int + d) as char
  }

  /** The decimal digits of a natural number, as PHP prints an integer. */
  function NatToString(n: nat): (r: string)
    ensures |r| > 0
    ensures forall i :: 0 <= i < |r| ==> IsDigit(r[i])
    decreases n
  {
    if n < 10 then [DigitChar(n)] else NatToString(n / 10) + [DigitChar(n % 10)]
  }

  /** The value of a string of decimal digits. */
  function DigitsValue(s: string): nat
    requires forall i :: 0 <= i < |s| ==> IsDigit(s[i])
  {
    if |s| == 0 then 0
    else
      assert IsDigit(s[|s| - 1]);
      10 * DigitsValue(s[..|s| - 1]) + (s[|s| - 1] as int - '0' as int)
  }

  /** Reading back the printed digits gives the number: the two are inverses. */
  lemma {:induction false} DigitsValueOfNatToString(n: nat)
    ensures DigitsValue(NatToString(n)) == n
    decreases n
  {
    if n >= 10 {
      var r := NatToString(n);
      DigitsValueOfNatToString(n / 10);
      assert r[..|r| - 1] == NatToString(n / 10);
    }
  }
}
