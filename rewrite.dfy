/**
 * The regular-expression rewrites of the content generator, one pattern at a
 * time, as explicit scanners with PCRE's semantics: `preg_replace` replaces
 * the leftmost match, resumes scanning after it and never lets matches
 * overlap; each matcher below returns the end of the match PCRE's
 * backtracking settles on at a given start position. `str_ireplace` is the
 * same scan with a literal, case-insensitive needle.
 */
module Rewrite {
  import opened Text

  /** One constructor per pattern of the source. */
  datatype Pattern =
    | FencedBlock          // three backticks, a run without backticks, three backticks
    | FenceJsonTag         // three backticks, "json" in any case, trailing whitespace
    | FenceAtEnd           // three backticks followed only by whitespace
    | Fence                // three backticks
    | BraceGroup           // an open brace up to the next close brace
    | BracketGroup         // an open bracket up to the next close bracket
    | JsonScalarPair       // a quoted key, a colon and a string, digit run, true, false or null
    | DebrisLine           // a line made of whitespace and bracket characters (multi-line anchors)
    | TrailingDebris       // bracket characters followed only by whitespace
    | LeadingDebris        // whitespace then bracket characters at the very start
    | UrlInText            // http(s):// and a run without whitespace, angle brackets or quotes
    | UrlInTitle           // http(s):// and a run without whitespace
    | TitleJunk            // one of { } " [ ]
    | SpaceRun             // two or more whitespace characters
    | SpaceBetweenTags     // a '>', whitespace, a '<'
    | BlankLine            // a whitespace-only line (multi-line anchors)
    | BlankLineGap         // a newline, whitespace, a newline
    | DoubleBlankLineGap   // a newline, whitespace, a newline, whitespace, a newline
    | LeadingPunct         // a run of punctuation class characters at the very start
    | TrailingPunct        // a run of punctuation class characters up to the end
    | KeyedObject          // a quoted key, a colon, whitespace, a brace group
    | KeyedArray           // a quoted key, a colon, whitespace, a bracket group
    | ClosingBraceComma    // "}," then whitespace then a quote
    | OpeningBraceKey      // whitespace, '{', whitespace, a quoted key, a colon
    | TrailingCloser(c: char) // whitespace, c, whitespace, then the end
    | Phrase(lit: string)  // a literal compared without ASCII case

  /** The characters `"`, `}`, `]`, `{` and `[` the source treats as JSON debris. */
  predicate IsBracket(c: char) {
    c == '"' || c == '}' || c == ']' || c == '{' || c == '['
  }

  /** The class the source trims from both ends: debris, whitespace and `. , ; : -`. */
  predicate IsPunct(c: char) {
    IsBracket(c) || IsSpace(c) || c == '.' || c == ',' || c == ';' || c == ':' || c == '-'
  }

  /** The characters removed from titles one by one. */
  predicate IsTitleJunk(c: char) {
    c == '{' || c == '}' || c == '"' || c == '[' || c == ']'
  }

  datatype CharClass = Space | Bracket | Punct | Digit | UrlChar | NonSpace

  predicate InClass(c: char, k: CharClass) {
    match k
    case Space => IsSpace(c)
    case Bracket => IsBracket(c)
    case Punct => IsPunct(c)
    case Digit => IsDigit(c)
    case UrlChar => !IsSpace(c) && c != '<' && c != '>' && c != '"' && c != '\''
    case NonSpace => !IsSpace(c)
  }

  /** End of the longest run of class `k` starting at `p` (a greedy `[k]*`). */
  function SkipRun(s: string, p: nat, k: CharClass): (r: nat)
    requires p <= |s|
    ensures p <= r <= |s|
    ensures forall i :: p <= i < r ==> InClass(s[i], k)
    ensures r < |s| ==> !InClass(s[r], k)
    decreases |s| - p
  {
    if p < |s| && InClass(s[p], k) then SkipRun(s, p + 1, k) else p
  }

  /** First position at or after `p` holding `c`. */
  function FindChar(s: string, p: nat, c: char): (r: Option<nat>)
    requires p <= |s|
    ensures r.Some? ==> p <= r.value < |s| && s[r.value] == c
    ensures r.Some? ==> forall i :: p <= i < r.value ==> s[i] != c
    ensures r.None? ==> forall i :: p <= i < |s| ==> s[i] != c
    decreases |s| - p
  {
    if p == |s| then None else if s[p] == c then Some(p) else FindChar(s, p + 1, c)
  }

  /** Last position in `[lo, hi)` holding a newline. */
  function LastNewline(s: string, lo: nat, hi: nat): (r: Option<nat>)
    requires lo <= hi <= |s|
    ensures r.Some? ==> lo <= r.value < hi && s[r.value] == '\n'
    ensures r.Some? ==> forall i :: r.value < i < hi ==> s[i] != '\n'
    ensures r.None? ==> forall i :: lo <= i < hi ==> s[i] != '\n'
    decreases hi - lo
  {
    if hi == lo then None else if s[hi - 1] == '\n' then Some(hi - 1) else LastNewline(s, lo, hi - 1)
  }

  function MatchFencedBlock(s: string, p: nat): Option<nat>
    requires p <= |s|
  {
    if !StartsAt(s, p, "```") then None
    else match FindChar(s, p + 3, '`')
      case None => None
      case Some(q) => if StartsAt(s, q, "```") then Some(q + 3) else None
  }

  function MatchFenceJsonTag(s: string, p: nat): Option<nat>
    requires p <= |s|
  {
    if StartsAt(s, p, "```") && StartsAtIgnoringCase(s, p + 3, "json") then Some(SkipRun(s, p + 7, Space))
    else None
  }

  function MatchFenceAtEnd(s: string, p: nat): Option<nat>
    requires p <= |s|
  {
    if StartsAt(s, p, "```") && SkipRun(s, p + 3, Space) == |s| then Some(|s|) else None
  }

  /** An opening character up to the first closing character after it. */
  function MatchGroup(s: string, p: nat, open: char, close: char): Option<nat>
    requires p <= |s|
  {
    if p == |s| || s[p] != open then None
    else match FindChar(s, p + 1, close)
      case None => None
      case Some(q) => Some(q + 1)
  }

  function MatchJsonScalarPair(s: string, p: nat): Option<nat>
    requires p <= |s|
  {
    if p == |s| || s[p] != '"' then None
    else match FindChar(s, p + 1, '"')
      case None => None
      case Some(q) =>
        var r := SkipRun(s, q + 1, Space);
        if r == |s| || s[r] != ':' then None
        else
          var t := SkipRun(s, r + 1, Space);
          if t == |s| then None
          else if s[t] == '"' then
            (match FindChar(s, t + 1, '"')
             case None => None
             case Some(u) => Some(u + 1))
          else if IsDigit(s[t]) then Some(SkipRun(s, t, Digit))
          else if StartsAt(s, t, "true") then Some(t + 4)
          else if StartsAt(s, t, "false") then Some(t + 5)
          else if StartsAt(s, t, "null") then Some(t + 4)
          else None
  }

  /** Start of a line in multi-line mode. */
  predicate LineStart(s: string, p: nat)
    requires p <= |s|
  {
    p == 0 || s[p - 1] == '\n'
  }

  /**
   * The greedy trailing whitespace `[b, q)` given back until a multi-line end
   * anchor holds: the end of the string, or just before a newline.
   */
  function MultiLineEnd(s: string, b: nat, q: nat): (r: Option<nat>)
    requires b <= q <= |s|
    ensures r.Some? ==> b <= r.value <= q
  {
    if q == |s| then Some(|s|)
    else match LastNewline(s, b, q)
      case Some(k) => Some(k)
      case None => None
  }

  function MatchDebrisLine(s: string, p: nat): Option<nat>
    requires p <= |s|
  {
    if !LineStart(s, p) then None
    else
      var r := SkipRun(s, p, Space);
      var b := SkipRun(s, r, Bracket);
      if b == r then None else MultiLineEnd(s, b, SkipRun(s, b, Space))
  }

  function MatchTrailingDebris(s: string, p: nat): Option<nat>
    requires p <= |s|
  {
    if p < |s| && IsBracket(s[p]) && SkipRun(s, SkipRun(s, p, Bracket), Space) == |s| then Some(|s|)
    else None
  }

  function MatchLeadingDebris(s: string, p: nat): Option<nat>
    requires p <= |s|
  {
    var r := SkipRun(s, 0, Space);
    var b := SkipRun(s, r, Bracket);
    if p == 0 && b > r then Some(b) else None
  }

  function MatchUrl(s: string, p: nat, k: CharClass): Option<nat>
    requires p <= |s|
  {
    if !StartsAtIgnoringCase(s, p, "http") then None
    else
      var j := if p + 4 < |s| && Lower(s[p + 4]) == 's' then p + 5 else p + 4;
      if !StartsAt(s, j, "://") then None
      else
        var e := SkipRun(s, j + 3, k);
        if e > j + 3 then Some(e) else None
  }

  function MatchSpaceRun(s: string, p: nat): Option<nat>
    requires p <= |s|
  {
    var q := SkipRun(s, p, Space);
    if q >= p + 2 then Some(q) else None
  }

  function MatchSpaceBetweenTags(s: string, p: nat): Option<nat>
    requires p <= |s|
  {
    if p == |s| || s[p] != '>' then None
    else
      var q := SkipRun(s, p + 1, Space);
      if q > p + 1 && q < |s| && s[q] == '<' then Some(q + 1) else None
  }

  function MatchBlankLine(s: string, p: nat): Option<nat>
    requires p <= |s|
  {
    if !LineStart(s, p) then None
    else match MultiLineEnd(s, p, SkipRun(s, p, Space))
      case Some(k) => if k > p then Some(k) else None
      case None => None
  }

  function MatchBlankLineGap(s: string, p: nat): Option<nat>
    requires p <= |s|
  {
    if p == |s| || s[p] != '\n' then None
    else match LastNewline(s, p + 1, SkipRun(s, p + 1, Space))
      case Some(k) => Some(k + 1)
      case None => None
  }

  function MatchDoubleBlankLineGap(s: string, p: nat): Option<nat>
    requires p <= |s|
  {
    if p == |s| || s[p] != '\n' then None
    else match LastNewline(s, p + 1, SkipRun(s, p + 1, Space))
      case None => None
      case Some(k2) =>
        (match LastNewline(s, p + 1, k2)
         case None => None
         case Some(_) => Some(k2 + 1))
  }

  function MatchLeadingPunct(s: string, p: nat): Option<nat>
    requires p <= |s|
  {
    var b := SkipRun(s, 0, Punct);
    if p == 0 && b > 0 then Some(b) else None
  }

  function MatchTrailingPunct(s: string, p: nat): Option<nat>
    requires p <= |s|
  {
    if p < |s| && IsPunct(s[p]) && SkipRun(s, p, Punct) == |s| then Some(|s|) else None
  }

  function MatchKeyed(s: string, p: nat, open: char, close: char): Option<nat>
    requires p <= |s|
  {
    if p == |s| || s[p] != '"' then None
    else match FindChar(s, p + 1, '"')
      case None => None
      case Some(q) =>
        if q + 1 == |s| || s[q + 1] != ':' then None
        else MatchGroup(s, SkipRun(s, q + 2, Space), open, close)
  }

  function MatchClosingBraceComma(s: string, p: nat): Option<nat>
    requires p <= |s|
  {
    if !StartsAt(s, p, "},") then None
    else
      var r := SkipRun(s, p + 2, Space);
      if r < |s| && s[r] == '"' then Some(r + 1) else None
  }

  function MatchOpeningBraceKey(s: string, p: nat): Option<nat>
    requires p <= |s|
  {
    var r := SkipRun(s, p, Space);
    if r == |s| || s[r] != '{' then None
    else
      var t := SkipRun(s, r + 1, Space);
      if t == |s| || s[t] != '"' then None
      else match FindChar(s, t + 1, '"')
        case None => None
        case Some(q) => if q + 1 < |s| && s[q + 1] == ':' then Some(q + 2) else None
  }

  function MatchTrailingCloser(s: string, p: nat, c: char): Option<nat>
    requires p <= |s|
  {
    var r := SkipRun(s, p, Space);
    if r < |s| && s[r] == c && SkipRun(s, r + 1, Space) == |s| then Some(|s|) else None
  }

  /** The end of the match of `pat` that starts at `p`, if there is one; matches are never empty. */
  function MatchAt(pat: Pattern, s: string, p: nat): (r: Option<nat>)
    requires p < |s|
    ensures r.Some? ==> p < r.value <= |s|
  {
    match pat
    case FencedBlock => MatchFencedBlock(s, p)
    case FenceJsonTag => MatchFenceJsonTag(s, p)
    case FenceAtEnd => MatchFenceAtEnd(s, p)
    case Fence => if StartsAt(s, p, "```") then Some(p + 3) else None
    case BraceGroup => MatchGroup(s, p, '{', '}')
    case BracketGroup => MatchGroup(s, p, '[', ']')
    case JsonScalarPair => MatchJsonScalarPair(s, p)
    case DebrisLine => MatchDebrisLine(s, p)
    case TrailingDebris => MatchTrailingDebris(s, p)
    case LeadingDebris => MatchLeadingDebris(s, p)
    case UrlInText => MatchUrl(s, p, UrlChar)
    case UrlInTitle => MatchUrl(s, p, NonSpace)
    case TitleJunk => if IsTitleJunk(s[p]) then Some(p + 1) else None
    case SpaceRun => MatchSpaceRun(s, p)
    case SpaceBetweenTags => MatchSpaceBetweenTags(s, p)
    case BlankLine => MatchBlankLine(s, p)
    case BlankLineGap => MatchBlankLineGap(s, p)
    case DoubleBlankLineGap => MatchDoubleBlankLineGap(s, p)
    case LeadingPunct => MatchLeadingPunct(s, p)
    case TrailingPunct => MatchTrailingPunct(s, p)
    case KeyedObject => MatchKeyed(s, p, '{', '}')
    case KeyedArray => MatchKeyed(s, p, '[', ']')
    case ClosingBraceComma => MatchClosingBraceComma(s, p)
    case OpeningBraceKey => MatchOpeningBraceKey(s, p)
    case TrailingCloser(c) => MatchTrailingCloser(s, p, c)
    case Phrase(lit) => if |lit| > 0 && StartsAtIgnoringCase(s, p, lit) then Some(p + |lit|) else None
  }

  /** `preg_replace` / `str_ireplace` on `s[p..]`, with the anchors still seeing all of `s`. */
  function ReplaceFrom(pat: Pattern, s: string, repl: string, p: nat): string
    requires p <= |s|
    decreases |s| - p
  {
    if p == |s| then []
    else match MatchAt(pat, s, p)
      case Some(e) => repl + ReplaceFrom(pat, s, repl, e)
      case None => [s[p]] + ReplaceFrom(pat, s, repl, p + 1)
  }

  function ReplaceAll(pat: Pattern, s: string, repl: string): string {
    ReplaceFrom(pat, s, repl, 0)
  }

  function Remove(pat: Pattern, s: string): string {
    ReplaceAll(pat, s, "")
  }

  /** `preg_split` on `s[p..]`, the current piece starting at `start`. */
  function SplitFrom(pat: Pattern, s: string, start: nat, p: nat): (r: seq<string>)
    requires start <= p <= |s|
    ensures |r| > 0
    decreases |s| - p
  {
    if p == |s| then [s[start..]]
    else match MatchAt(pat, s, p)
      case Some(e) => [s[start..p]] + SplitFrom(pat, s, e, e)
      case None => SplitFrom(pat, s, start, p + 1)
  }

  function Split(pat: Pattern, s: string): seq<string> {
    SplitFrom(pat, s, 0, 0)
  }

  predicate NoMatchFrom(pat: Pattern, s: string, p: nat) {
    forall q :: p <= q < |s| ==> MatchAt(pat, s, q).None?
  }

  // ---------------------------------------------------------------------------
  // Generic facts about the scans

  /** A rewrite only ever emits characters of its input or of its replacement. */
  lemma {:induction false} ReplaceFromChars(pat: Pattern, s: string, repl: string, p: nat)
    requires p <= |s|
    ensures forall c :: c in ReplaceFrom(pat, s, repl, p) ==> c in s[p..] || c in repl
    decreases |s| - p
  {
    if p < |s| {
      match MatchAt(pat, s, p)
      case Some(e) =>
        ReplaceFromChars(pat, s, repl, e);
        assert forall c :: c in s[e..] ==> c in s[p..] by {
          forall c | c in s[e..] ensures c in s[p..] {
            var k :| 0 <= k < |s[e..]| && s[e..][k] == c;
            assert s[p..][e - p + k] == c;
          }
        }
      case None =>
        ReplaceFromChars(pat, s, repl, p + 1);
        assert s[p..] == [s[p]] + s[p + 1..];
    }
  }

  /** With no match left, the scan copies its input. */
  lemma {:induction false} ReplaceFromNoMatch(pat: Pattern, s: string, repl: string, p: nat)
    requires p <= |s| && NoMatchFrom(pat, s, p)
    ensures ReplaceFrom(pat, s, repl, p) == s[p..]
    decreases |s| - p
  {
    if p < |s| {
      ReplaceFromNoMatch(pat, s, repl, p + 1);
      assert s[p..] == [s[p]] + s[p + 1..];
    }
  }

  lemma {:induction false} SplitFromNoMatch(pat: Pattern, s: string, start: nat, p: nat)
    requires start <= p <= |s| && NoMatchFrom(pat, s, p)
    ensures SplitFrom(pat, s, start, p) == [s[start..]]
    decreases |s| - p
  {
    if p < |s| {
      SplitFromNoMatch(pat, s, start, p + 1);
    }
  }

  /** No `{` is followed, anywhere later, by a `}`. */
  predicate NoBraceGroup(s: string) {
    forall i, j :: 0 <= i < j < |s| ==> !(s[i] == '{' && s[j] == '}')
  }

  lemma NoBraceGroupSuffix(s: string, p: nat)
    requires p <= |s| && NoBraceGroup(s)
    ensures NoBraceGroup(s[p..])
  {
    forall i, j | 0 <= i < j < |s[p..]| ensures !(s[p..][i] == '{' && s[p..][j] == '}') {
      assert s[p..][i] == s[p + i] && s[p..][j] == s[p + j];
    }
  }

  lemma NoBraceGroupSlice(s: string, i: nat, j: nat)
    requires i <= j <= |s| && NoBraceGroup(s)
    ensures NoBraceGroup(s[i..j])
  {
    forall a, b | 0 <= a < b < |s[i..j]| ensures !(s[i..j][a] == '{' && s[i..j][b] == '}') {
      assert s[i..j][a] == s[i + a] && s[i..j][b] == s[i + b];
    }
  }

  lemma NoBraceGroupTrim(s: string)
    requires NoBraceGroup(s)
    ensures NoBraceGroup(Trim(s))
  {
    var i, j := TrimSlice(s);
    NoBraceGroupSlice(s, i, j);
  }

  lemma NoBraceGroupCons(c: char, t: string)
    requires NoBraceGroup(t)
    requires c == '{' ==> '}' !in t
    ensures NoBraceGroup([c] + t)
  {
    var u := [c] + t;
    forall i, j | 0 <= i < j < |u| ensures !(u[i] == '{' && u[j] == '}') {
      if i == 0 {
        assert u[j] == t[j - 1];
      } else {
        assert u[i] == t[i - 1] && u[j] == t[j - 1];
      }
    }
  }

  lemma NoBraceGroupAppend(a: string, t: string)
    requires '{' !in a && '}' !in a && NoBraceGroup(t)
    ensures NoBraceGroup(a + t)
  {
    var u := a + t;
    forall i, j | 0 <= i < j < |u| ensures !(u[i] == '{' && u[j] == '}') {
      if i < |a| {
        assert u[i] == a[i];
      } else {
        assert u[i] == t[i - |a|] && u[j] == t[j - |a|];
      }
    }
  }

  /** A rewrite whose replacement holds no brace keeps every `}` ahead of every `{`. */
  lemma {:induction false} ReplaceFromKeepsNoBraceGroup(pat: Pattern, s: string, repl: string, p: nat)
    requires p <= |s| && NoBraceGroup(s[p..])
    requires '{' !in repl && '}' !in repl
    ensures NoBraceGroup(ReplaceFrom(pat, s, repl, p))
    decreases |s| - p
  {
    if p < |s| {
      match MatchAt(pat, s, p)
      case Some(e) =>
        NoBraceGroupSuffix(s[p..], e - p);
        assert s[p..][e - p..] == s[e..];
        ReplaceFromKeepsNoBraceGroup(pat, s, repl, e);
        NoBraceGroupAppend(repl, ReplaceFrom(pat, s, repl, e));
      case None =>
        NoBraceGroupSuffix(s[p..], 1);
        assert s[p..][1..] == s[p + 1..];
        ReplaceFromKeepsNoBraceGroup(pat, s, repl, p + 1);
        if s[p] == '{' {
          ReplaceFromChars(pat, s, repl, p + 1);
          var t := s[p + 1..];
          forall c | c in t ensures c != '}' {
            var k :| 0 <= k < |t| && t[k] == c;
            assert s[p..][k + 1] == c;
          }
        }
        NoBraceGroupCons(s[p], ReplaceFrom(pat, s, repl, p + 1));
    }
  }

  lemma ReplaceAllKeepsNoBraceGroup(pat: Pattern, s: string, repl: string)
    requires NoBraceGroup(s) && '{' !in repl && '}' !in repl
    ensures NoBraceGroup(ReplaceAll(pat, s, repl))
  {
    assert s[0..] == s;
    ReplaceFromKeepsNoBraceGroup(pat, s, repl, 0);
  }

  // ---------------------------------------------------------------------------
  // What individual patterns achieve

  /** Removing brace groups leaves no `{` with a `}` after it. */
  lemma {:induction false} RemoveBraceGroupsFrom(s: string, p: nat)
    requires p <= |s|
    ensures NoBraceGroup(ReplaceFrom(BraceGroup, s, "", p))
    decreases |s| - p
  {
    if p < |s| {
      match MatchAt(BraceGroup, s, p)
      case Some(e) =>
        RemoveBraceGroupsFrom(s, e);
        assert ReplaceFrom(BraceGroup, s, "", p) == ReplaceFrom(BraceGroup, s, "", e);
      case None =>
        RemoveBraceGroupsFrom(s, p + 1);
        if s[p] == '{' {
          ReplaceFromChars(BraceGroup, s, "", p + 1);
          assert FindChar(s, p + 1, '}').None?;
          var t := s[p + 1..];
          forall c | c in t ensures c != '}' {
            var k :| 0 <= k < |t| && t[k] == c;
            assert s[p + 1 + k] == c;
          }
        }
        NoBraceGroupCons(s[p], ReplaceFrom(BraceGroup, s, "", p + 1));
    }
  }

  lemma RemoveBraceGroups(s: string)
    ensures NoBraceGroup(Remove(BraceGroup, s))
  {
    RemoveBraceGroupsFrom(s, 0);
  }

  predicate NoTripleBacktick(s: string) {
    forall i :: 0 <= i && i + 2 < |s| ==> !(s[i] == '`' && s[i + 1] == '`' && s[i + 2] == '`')
  }

  /** Where no fence starts at `p`, the scan emits `s[p]` first. */
  lemma ReplaceFromKeep(pat: Pattern, s: string, repl: string, p: nat)
    requires p < |s| && MatchAt(pat, s, p).None?
    ensures ReplaceFrom(pat, s, repl, p) == [s[p]] + ReplaceFrom(pat, s, repl, p + 1)
  {
  }

  /** Removing every fence leaves no three backticks in a row, even where removal joins backticks. */
  lemma {:induction false} RemoveFencesFrom(s: string, p: nat)
    requires p <= |s|
    ensures NoTripleBacktick(ReplaceFrom(Fence, s, "", p))
    decreases |s| - p
  {
    if p < |s| {
      match MatchAt(Fence, s, p)
      case Some(e) =>
        RemoveFencesFrom(s, e);
      case None =>
        RemoveFencesFrom(s, p + 1);
        var rest := ReplaceFrom(Fence, s, "", p + 1);
        var out := [s[p]] + rest;
        // After a kept backtick the output cannot go on with two more.
        assert !(|rest| >= 2 && s[p] == '`' && rest[0] == '`' && rest[1] == '`') by {
          if s[p] == '`' && p + 1 < |s| {
            assert !StartsAt(s, p, "```");
            if s[p + 1] == '`' {
              assert p + 2 == |s| || s[p + 2] != '`';
              assert !StartsAt(s, p + 1, "```");
              ReplaceFromKeep(Fence, s, "", p + 1);
              if p + 2 < |s| {
                assert !StartsAt(s, p + 2, "```");
                ReplaceFromKeep(Fence, s, "", p + 2);
              }
            } else {
              assert !StartsAt(s, p + 1, "```");
              ReplaceFromKeep(Fence, s, "", p + 1);
            }
          }
        }
        forall i | 0 <= i && i + 2 < |out| ensures !(out[i] == '`' && out[i + 1] == '`' && out[i + 2] == '`') {
          if i > 0 {
            assert out[i] == rest[i - 1] && out[i + 1] == rest[i] && out[i + 2] == rest[i + 1];
          }
        }
    }
  }

  lemma RemoveFences(s: string)
    ensures NoTripleBacktick(Remove(Fence, s))
  {
    RemoveFencesFrom(s, 0);
  }

  lemma NoTripleBacktickTrim(s: string)
    requires NoTripleBacktick(s)
    ensures NoTripleBacktick(Trim(s))
  {
    var i, j := TrimSlice(s);
    forall k | 0 <= k && k + 2 < |s[i..j]|
      ensures !(s[i..j][k] == '`' && s[i..j][k + 1] == '`' && s[i..j][k + 2] == '`')
    {
      assert s[i..j][k] == s[i + k] && s[i..j][k + 1] == s[i + k + 1] && s[i..j][k + 2] == s[i + k + 2];
    }
  }

  lemma NoDoubleSpaceCons(c: char, t: string)
    requires NoDoubleSpace(t)
    requires IsSpace(c) && |t| > 0 ==> !IsSpace(t[0])
    ensures NoDoubleSpace([c] + t)
  {
    var u := [c] + t;
    forall i | 0 <= i < |u| - 1 ensures !(IsSpace(u[i]) && IsSpace(u[i + 1])) {
      if i > 0 {
        assert u[i] == t[i - 1] && u[i + 1] == t[i];
      }
    }
  }

  /** Collapsing runs of two or more whitespace characters to one space leaves no two adjacent. */
  lemma {:induction false} CollapseSpaceFrom(s: string, p: nat)
    requires p <= |s|
    ensures NoDoubleSpace(ReplaceFrom(SpaceRun, s, " ", p))
    ensures p < |s| && !IsSpace(s[p]) ==> ReplaceFrom(SpaceRun, s, " ", p)[0] == s[p]
    decreases |s| - p
  {
    if p < |s| {
      match MatchAt(SpaceRun, s, p)
      case Some(e) =>
        CollapseSpaceFrom(s, e);
        NoDoubleSpaceCons(' ', ReplaceFrom(SpaceRun, s, " ", e));
      case None =>
        CollapseSpaceFrom(s, p + 1);
        if IsSpace(s[p]) && p + 1 < |s| {
          assert !IsSpace(s[p + 1]);
        }
        NoDoubleSpaceCons(s[p], ReplaceFrom(SpaceRun, s, " ", p + 1));
    }
  }

  lemma CollapseSpace(s: string)
    ensures NoDoubleSpace(ReplaceAll(SpaceRun, s, " "))
  {
    CollapseSpaceFrom(s, 0);
  }

  /** Joining tags across whitespace keeps whitespace runs at most one long. */
  lemma {:induction false} JoinTagsFrom(s: string, p: nat)
    requires p <= |s| && NoDoubleSpace(s)
    ensures NoDoubleSpace(ReplaceFrom(SpaceBetweenTags, s, "><", p))
    ensures p < |s| && !IsSpace(s[p]) && |ReplaceFrom(SpaceBetweenTags, s, "><", p)| > 0 ==>
      !IsSpace(ReplaceFrom(SpaceBetweenTags, s, "><", p)[0])
    decreases |s| - p
  {
    if p < |s| {
      match MatchAt(SpaceBetweenTags, s, p)
      case Some(e) =>
        JoinTagsFrom(s, e);
        var rest := ReplaceFrom(SpaceBetweenTags, s, "><", e);
        NoDoubleSpaceCons('<', rest);
        NoDoubleSpaceCons('>', ['<'] + rest);
        assert "><" + rest == ['>'] + (['<'] + rest);
      case None =>
        JoinTagsFrom(s, p + 1);
        NoDoubleSpaceCons(s[p], ReplaceFrom(SpaceBetweenTags, s, "><", p + 1));
    }
  }

  lemma JoinTags(s: string)
    requires NoDoubleSpace(s)
    ensures NoDoubleSpace(ReplaceAll(SpaceBetweenTags, s, "><"))
  {
    JoinTagsFrom(s, 0);
  }

  /** Under single whitespace runs, a whitespace run is one character and its neighbours are not whitespace. */
  lemma SpaceNeighbours(s: string, p: nat)
    requires p < |s| && NoDoubleSpace(s)
    ensures SkipRun(s, p, Space) <= p + 1
    ensures p > 0 && IsSpace(s[p]) ==> !IsSpace(s[p - 1])
  {
    if p + 1 < |s| && IsSpace(s[p]) {
      assert !IsSpace(s[p + 1]);
    }
    if p > 0 {
      assert !(IsSpace(s[p - 1]) && IsSpace(s[p]));
    }
  }

  /** Once whitespace runs are single, a blank line can only be a whole one-character string. */
  lemma BlankLineMatchesOnlyLoneSpace(s: string, p: nat)
    requires p < |s| && NoDoubleSpace(s) && MatchAt(BlankLine, s, p).Some?
    ensures p == 0 && |s| == 1 && IsSpace(s[0])
  {
    var q := SkipRun(s, p, Space);
    var k := MatchAt(BlankLine, s, p).value;
    SpaceNeighbours(s, p);
  }

  lemma RemoveBlankLines(s: string)
    requires NoDoubleSpace(s)
    ensures Remove(BlankLine, s) == if |s| == 1 && IsSpace(s[0]) then "" else s
  {
    if |s| == 1 && IsSpace(s[0]) {
      assert SkipRun(s, 0, Space) == 1;
      assert MatchAt(BlankLine, s, 0) == Some(1);
      assert ReplaceFrom(BlankLine, s, "", 1) == "";
    } else {
      forall q | 0 <= q < |s| ensures MatchAt(BlankLine, s, q).None? {
        if MatchAt(BlankLine, s, q).Some? {
          BlankLineMatchesOnlyLoneSpace(s, q);
        }
      }
      ReplaceFromNoMatch(BlankLine, s, "", 0);
    }
  }

  /** A newline gap holds two adjacent whitespace characters, so single runs leave none. */
  lemma NoBlankLineGap(s: string, pat: Pattern)
    requires NoDoubleSpace(s)
    requires pat == BlankLineGap || pat == DoubleBlankLineGap
    ensures NoMatchFrom(pat, s, 0)
  {
    forall p | 0 <= p < |s| ensures MatchAt(pat, s, p).None? {
      if MatchAt(pat, s, p).Some? {
        var q := SkipRun(s, p + 1, Space);
        var k := LastNewline(s, p + 1, q).value;
        assert IsSpace(s[p]);
      }
    }
  }

  /** Stripping the leading punctuation run leaves a string that starts with anything else. */
  lemma RemoveLeadingPunct(s: string)
    ensures Remove(LeadingPunct, s) == s[SkipRun(s, 0, Punct)..]
  {
    var b := SkipRun(s, 0, Punct);
    assert NoMatchFrom(LeadingPunct, s, 1);
    if b > 0 {
      ReplaceFromNoMatch(LeadingPunct, s, "", b);
    } else {
      ReplaceFromNoMatch(LeadingPunct, s, "", 0);
    }
  }

  /** Number of characters of class `k` at the end of `s`. */
  function TrailingRun(s: string, k: CharClass): (n: nat)
    ensures n <= |s|
    ensures forall i :: |s| - n <= i < |s| ==> InClass(s[i], k)
    ensures n < |s| ==> !InClass(s[|s| - n - 1], k)
  {
    if |s| > 0 && InClass(s[|s| - 1], k) then 1 + TrailingRun(s[..|s| - 1], k) else 0
  }

  lemma {:induction false} RemoveTrailingPunctFrom(s: string, p: nat)
    requires p <= |s| - TrailingRun(s, Punct)
    ensures ReplaceFrom(TrailingPunct, s, "", p) == s[p..|s| - TrailingRun(s, Punct)]
    decreases |s| - p
  {
    var n := TrailingRun(s, Punct);
    if p < |s| - n {
      assert SkipRun(s, p, Punct) < |s|;
      RemoveTrailingPunctFrom(s, p + 1);
    } else if p < |s| {
      assert SkipRun(s, p, Punct) == |s|;
    }
  }

  /** Stripping the trailing punctuation run cuts `s` just after its last other character. */
  lemma RemoveTrailingPunct(s: string)
    ensures Remove(TrailingPunct, s) == s[..|s| - TrailingRun(s, Punct)]
  {
    RemoveTrailingPunctFrom(s, 0);
  }

  /** Removing the title junk characters one by one leaves none of them. */
  lemma {:induction false} RemoveTitleJunkFrom(s: string, p: nat)
    requires p <= |s|
    ensures forall c :: c in ReplaceFrom(TitleJunk, s, "", p) ==> !IsTitleJunk(c)
    decreases |s| - p
  {
    if p < |s| {
      RemoveTitleJunkFrom(s, p + 1);
    }
  }
}
