/**
 * The regular expressions the plugin only searches with (`preg_match`,
 * `preg_match_all`): opening-tag and heading probes, the `<h2>` section
 * pattern of the schema extractors, and the recursive balanced-brace
 * pattern that finds a JSON object inside a mixed reply.
 */
module Search {
  import opened Text
  import opened Rewrite

  // ---------------------------------------------------------------------------
  // Probes: patterns whose only use is "does it occur anywhere"

  /** What must follow the heading word of a heading probe. */
  datatype After =
    | Anything               // nothing more
    | Spaces                 // \s+
    | SpacesThenDigit        // \s+\d
    | SpacesThen(lit: string) // \s+ and a literal, ASCII case ignored

  datatype Probe =
    | ParagraphTag                          // <p[^>]*>
    | HeadingTag                            // <h[1-6][^>]*>
    | HeadingStarts(word: string, after: After) // <h2[^>]*>\s*word..., ASCII case ignored
    | EmptyQuestionHeading                  // <h2[^>]*>\?\s*<\/h2>, ASCII case ignored

  /** The position just after the `>` of an `<h2...>` opening tag at `p`. */
  function H2OpenEnd(s: string, p: nat): (r: Option<nat>)
    requires p <= |s|
    ensures r.Some? ==> p + 4 <= r.value <= |s| && s[r.value - 1] == '>'
  {
    if !StartsAtIgnoringCase(s, p, "<h2") then None
    else match FindChar(s, p + 3, '>')
      case None => None
      case Some(g) => Some(g + 1)
  }

  predicate Follows(s: string, t: nat, after: After)
    requires t <= |s|
  {
    match after
    case Anything => true
    case Spaces => t < |s| && IsSpace(s[t])
    case SpacesThenDigit =>
      t < |s| && IsSpace(s[t]) && var u := SkipRun(s, t, Space); u < |s| && IsDigit(s[u])
    case SpacesThen(lit) => t < |s| && IsSpace(s[t]) && StartsAtIgnoringCase(s, SkipRun(s, t, Space), lit)
  }

  /**
   * The probe matches at `p`. `[^>]*` can only stop at the first `>` and a
   * greedy `\s*` can only give back whitespace, so each probe has exactly one
   * way to match and backtracking never finds another.
   */
  predicate ProbeAt(pr: Probe, s: string, p: nat)
    requires p <= |s|
  {
    match pr
    case ParagraphTag => StartsAt(s, p, "<p") && FindChar(s, p + 2, '>').Some?
    case HeadingTag =>
      p + 3 <= |s| && s[p] == '<' && s[p + 1] == 'h' && '1' <= s[p + 2] <= '6' && FindChar(s, p + 3, '>').Some?
    case HeadingStarts(word, after) =>
      (match H2OpenEnd(s, p)
       case None => false
       case Some(b) =>
         var r := SkipRun(s, b, Space);
         StartsAtIgnoringCase(s, r, word) && Follows(s, r + |word|, after))
    case EmptyQuestionHeading =>
      (match H2OpenEnd(s, p)
       case None => false
       case Some(b) => b < |s| && s[b] == '?' && StartsAtIgnoringCase(s, SkipRun(s, b + 1, Space), "</h2>"))
  }

  /** `preg_match` on `s[p..]`. */
  function FoundFrom(pr: Probe, s: string, p: nat): (r: bool)
    requires p <= |s|
    ensures r <==> exists q :: p <= q < |s| && ProbeAt(pr, s, q)
    decreases |s| - p
  {
    p < |s| && (ProbeAt(pr, s, p) || FoundFrom(pr, s, p + 1))
  }

  function Found(pr: Probe, s: string): bool {
    FoundFrom(pr, s, 0)
  }

  /** A string that opens with `<p>` holds a paragraph tag. */
  lemma FoundParagraphTag(s: string)
    requires StartsAt(s, 0, "<p>")
    ensures Found(ParagraphTag, s)
  {
    assert s[2] == '>';
    assert ProbeAt(ParagraphTag, s, 0);
  }

  // ---------------------------------------------------------------------------
  // The `<h2>` section pattern of the schema extractors

  /** First position at or after `p` where `lit` occurs, ASCII case ignored. */
  function FindIgnoringCase(s: string, p: nat, lit: string): (r: Option<nat>)
    requires p <= |s|
    ensures r.Some? ==> p <= r.value && StartsAtIgnoringCase(s, r.value, lit)
    ensures r.Some? ==> forall i :: p <= i < r.value ==> !StartsAtIgnoringCase(s, i, lit)
    ensures r.None? ==> forall i :: p <= i <= |s| ==> !StartsAtIgnoringCase(s, i, lit)
    decreases |s| - p
  {
    if StartsAtIgnoringCase(s, p, lit) then Some(p)
    else if p == |s| then None
    else FindIgnoringCase(s, p + 1, lit)
  }

  /** The lookahead `(?=<h2|$)`: another `<h2`, the end, or a final newline. */
  predicate SectionStop(s: string, k: nat)
    requires k <= |s|
  {
    StartsAtIgnoringCase(s, k, "<h2") || k == |s| || (k == |s| - 1 && s[k] == '\n')
  }

  /** Where the lazy body `(.*?)` begins to satisfy the lookahead: the first stop at or after `k`. */
  function SectionEnd(s: string, k: nat): (r: nat)
    requires k <= |s|
    ensures k <= r <= |s| && SectionStop(s, r)
    ensures forall i :: k <= i < r ==> !SectionStop(s, i)
    decreases |s| - k
  {
    if SectionStop(s, k) then k else SectionEnd(s, k + 1)
  }

  datatype Section = Section(heading: string, body: string)

  /**
   * The match of `<h2[^>]*>(.*?)<\/h2>(.*?)(?=<h2|$)` (dot matching newlines,
   * ASCII case ignored) at `p`: the heading is `s[g..q]`, the body
   * `s[q + 5..k]` and the match ends at `k`.
   */
  function SectionAt(s: string, p: nat): (r: Option<(nat, nat, nat)>)
    requires p <= |s|
    ensures r.Some? ==> p < r.value.0 <= r.value.1 && r.value.1 + 5 <= r.value.2 <= |s|
  {
    match H2OpenEnd(s, p)
    case None => None
    case Some(g) =>
      match FindIgnoringCase(s, g, "</h2>")
      case None => None
      case Some(q) => Some((g, q, SectionEnd(s, q + 5)))
  }

  /** `preg_match_all` of the section pattern on `s[p..]`, as heading and body pairs. */
  function SectionsFrom(s: string, p: nat): seq<Section>
    requires p <= |s|
    decreases |s| - p
  {
    if p == |s| then []
    else match SectionAt(s, p)
      case Some((g, q, k)) => [Section(s[g..q], s[q + 5..k])] + SectionsFrom(s, k)
      case None => SectionsFrom(s, p + 1)
  }

  function Sections(s: string): seq<Section> {
    SectionsFrom(s, 0)
  }

  /** A heading never runs past the first closing tag, so it never holds one. */
  lemma {:induction false} SectionHeadingsHoldNoClosingTag(s: string, p: nat)
    requires p <= |s|
    ensures forall i :: 0 <= i < |SectionsFrom(s, p)| ==> !ContainsIgnoringCase(SectionsFrom(s, p)[i].heading, "</h2>")
    decreases |s| - p
  {
    if p < |s| {
      match SectionAt(s, p)
      case Some((g, q, k)) =>
        SectionHeadingsHoldNoClosingTag(s, k);
        forall i | 0 <= i < |s[g..q]| + 1 ensures !StartsAtIgnoringCase(s[g..q], i, "</h2>") {
          if StartsAtIgnoringCase(s[g..q], i, "</h2>") {
            forall m | 0 <= m < 5 ensures Lower(s[g + i + m]) == Lower("</h2>"[m]) {
              assert s[g..q][i + m] == s[g + i + m];
            }
            assert StartsAtIgnoringCase(s, g + i, "</h2>");
          }
        }
      case None =>
        SectionHeadingsHoldNoClosingTag(s, p + 1);
    }
  }

  predicate ContainsIgnoringCase(s: string, lit: string) {
    exists i :: 0 <= i <= |s| && StartsAtIgnoringCase(s, i, lit)
  }

  // ---------------------------------------------------------------------------
  // The recursive pattern `\{(?:[^{}]|(?R))*\}`

  /** Brace depth change of one character. */
  function Delta(c: char): int {
    if c == '{' then 1 else if c == '}' then -1 else 0
  }

  /** Number of `{` minus number of `}`. */
  function Net(t: string): int {
    if |t| == 0 then 0 else Net(t[..|t| - 1]) + Delta(t[|t| - 1])
  }

  /** A brace group: it opens with `{`, closes to depth zero, and not earlier. */
  predicate Balanced(t: string) {
    |t| >= 2 && t[0] == '{' && Net(t) == 0 && forall k :: 1 <= k < |t| ==> Net(t[..k]) >= 1
  }

  /**
   * The depth scan: from position `i` at depth `d`, the position just after
   * the `}` that brings the depth back to zero.
   */
  function CloseFrom(s: string, i: nat, d: nat): (r: Option<nat>)
    requires i <= |s| && d >= 1
    ensures r.Some? ==> i < r.value <= |s| && s[r.value - 1] == '}'
    decreases |s| - i
  {
    if i == |s| then None
    else if s[i] == '{' then CloseFrom(s, i + 1, d + 1)
    else if s[i] == '}' then (if d == 1 then Some(i + 1) else CloseFrom(s, i + 1, d - 1))
    else CloseFrom(s, i + 1, d)
  }

  /**
   * The match of the recursive pattern at `p`. Each iteration of the group
   * takes one non-brace character or a whole nested match, so the pattern
   * ends exactly where the depth scan returns to zero; giving iterations back
   * never leaves a `}` to match, so there is no other way.
   */
  function BalancedAt(s: string, p: nat): (r: Option<nat>)
    requires p <= |s|
    ensures r.Some? ==> p + 2 <= r.value <= |s| && s[p] == '{' && s[r.value - 1] == '}'
  {
    if p < |s| && s[p] == '{' then CloseFrom(s, p + 1, 1) else None
  }

  /** `preg_match` with the recursive pattern: the leftmost start that has a match. */
  function LeftmostBalancedFrom(s: string, p: nat): (r: Option<(nat, nat)>)
    requires p <= |s|
    ensures r.Some? ==> p <= r.value.0 < |s| && BalancedAt(s, r.value.0) == Some(r.value.1)
    ensures r.Some? ==> forall q :: p <= q < r.value.0 ==> BalancedAt(s, q).None?
    ensures r.None? ==> forall q :: p <= q <= |s| ==> BalancedAt(s, q).None?
    decreases |s| - p
  {
    if p == |s| then None
    else match BalancedAt(s, p)
      case Some(e) => Some((p, e))
      case None => LeftmostBalancedFrom(s, p + 1)
  }

  function LeftmostBalanced(s: string): Option<(nat, nat)> {
    LeftmostBalancedFrom(s, 0)
  }

  lemma NetStep(s: string, p: nat, i: nat)
    requires p <= i < |s|
    ensures Net(s[p..i + 1]) == Net(s[p..i]) + Delta(s[i])
  {
    assert s[p..i + 1][..i - p] == s[p..i];
  }

  /** Whatever the scan returns closes a brace group that opened at `p`. */
  lemma {:induction false} CloseFromSound(s: string, p: nat, i: nat, d: nat)
    requires p < i <= |s| && d >= 1 && s[p] == '{'
    requires Net(s[p..i]) == d
    requires forall k :: p < k <= i ==> Net(s[p..k]) >= 1
    requires CloseFrom(s, i, d).Some?
    ensures Balanced(s[p..CloseFrom(s, i, d).value])
    decreases |s| - i
  {
    NetStep(s, p, i);
    var e := CloseFrom(s, i, d).value;
    if s[i] == '}' && d == 1 {
      assert e == i + 1;
      forall k | 1 <= k < e - p ensures Net(s[p..e][..k]) >= 1 {
        assert s[p..e][..k] == s[p..p + k];
      }
    } else {
      var d' := if s[i] == '{' then d + 1 else if s[i] == '}' then d - 1 else d;
      assert CloseFrom(s, i, d) == CloseFrom(s, i + 1, d');
      CloseFromSound(s, p, i + 1, d');
    }
  }

  /** A brace group that opened at `p` is found by the scan, at its own end. */
  lemma {:induction false} CloseFromComplete(s: string, p: nat, i: nat, d: nat, e: nat)
    requires p < i < e <= |s| && d >= 1
    requires Balanced(s[p..e]) && Net(s[p..i]) == d
    ensures CloseFrom(s, i, d) == Some(e)
    decreases |s| - i
  {
    NetStep(s, p, i);
    var t := s[p..e];
    assert s[p..i + 1] == t[..i + 1 - p];
    if i + 1 == e {
      assert t == s[p..i + 1];
    } else {
      assert s[p..i + 1] == t[..i + 1 - p];
      var d' := if s[i] == '{' then d + 1 else if s[i] == '}' then d - 1 else d;
      assert CloseFrom(s, i, d) == CloseFrom(s, i + 1, d');
      CloseFromComplete(s, p, i + 1, d', e);
    }
  }

  /** The recursive pattern matches at `p` exactly the brace groups that open there. */
  lemma BalancedAtIff(s: string, p: nat, e: nat)
    requires p <= e <= |s|
    ensures BalancedAt(s, p) == Some(e) <==> Balanced(s[p..e])
  {
    if BalancedAt(s, p) == Some(e) {
      assert s[p..p + 1] == [s[p]];
      CloseFromSound(s, p, p + 1, 1);
    }
    if Balanced(s[p..e]) {
      assert s[p..p + 1] == s[p..e][..1];
      assert s[p..e][0] == s[p];
      CloseFromComplete(s, p, p + 1, 1, e);
    }
  }

  /**
   * The route's substring is the leftmost brace group: it is balanced, and
   * no brace group of `s` starts further left; when there is none, `s` holds
   * no brace group at all.
   */
  lemma LeftmostBalancedIsLeftmost(s: string)
    ensures LeftmostBalanced(s).Some? ==>
      var (p, e) := LeftmostBalanced(s).value;
      p <= e <= |s| && Balanced(s[p..e]) &&
      forall q, f :: 0 <= q < p && q <= f <= |s| ==> !Balanced(s[q..f])
    ensures LeftmostBalanced(s).None? ==> forall q, f :: 0 <= q <= f <= |s| ==> !Balanced(s[q..f])
  {
    match LeftmostBalanced(s)
    case Some((p, e)) =>
      BalancedAtIff(s, p, e);
      forall q, f | 0 <= q < p && q <= f <= |s| ensures !Balanced(s[q..f]) {
        BalancedAtIff(s, q, f);
      }
    case None =>
      forall q, f | 0 <= q <= f <= |s| ensures !Balanced(s[q..f]) {
        BalancedAtIff(s, q, f);
      }
  }

  /**
   * Braces are counted wherever they stand, inside JSON strings too: a `}`
   * with no `{` before it since the opening brace closes the group there.
   */
  lemma FirstCloseEndsGroup(s: string, p: nat, j: nat)
    requires p < j < |s| && s[p] == '{' && s[j] == '}'
    requires forall i :: p < i < j ==> s[i] != '{' && s[i] != '}'
    ensures BalancedAt(s, p) == Some(j + 1)
  {
    CloseFromFlat(s, p + 1, j);
  }

  /** The scan for a group passes over characters that cannot open one. */
  lemma {:induction false} LeftmostSkipsToBrace(s: string, q: nat, p: nat)
    requires q <= p <= |s| && forall i :: q <= i < p ==> s[i] != '{'
    ensures LeftmostBalancedFrom(s, q) == LeftmostBalancedFrom(s, p)
    decreases p - q
  {
    if q < p {
      LeftmostSkipsToBrace(s, q + 1, p);
    }
  }

  lemma {:induction false} CloseFromFlat(s: string, i: nat, j: nat)
    requires i <= j < |s| && s[j] == '}'
    requires forall k :: i <= k < j ==> s[k] != '{' && s[k] != '}'
    ensures CloseFrom(s, i, 1) == Some(j + 1)
    decreases j - i
  {
    if i < j {
      CloseFromFlat(s, i + 1, j);
    }
  }
}
