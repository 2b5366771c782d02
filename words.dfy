/**
 * The PHP and WordPress text helpers both generators call: `strip_tags`,
 * `wp_strip_all_tags`, `wp_trim_words` and `str_word_count`.
 */
module Words {
  import opened Text

  // ---------------------------------------------------------------------------
  // Tags

  /**
   * PHP `strip_tags` without an allow-list: a `<` followed by whitespace is
   * kept as text; any other `<` opens a tag that runs to the next `>` (or to
   * the end) and is dropped.
   */
  function StripTagsFrom(s: string, i: nat): (r: string)
    requires i <= |s|
    ensures forall c :: c in r ==> c in s[i..]
    decreases |s| - i
  {
    if i == |s| then ""
    else if s[i] == '<' && !(i + 1 < |s| && IsSpace(s[i + 1])) then
      (match FindClose(s, i + 1)
       case None => ""
       case Some(g) =>
         var r := StripTagsFrom(s, g + 1);
         assert forall c :: c in s[g + 1..] ==> c in s[i..] by {
           forall c | c in s[g + 1..] ensures c in s[i..] {
             var k :| 0 <= k < |s[g + 1..]| && s[g + 1..][k] == c;
             assert s[i..][g + 1 - i + k] == c;
           }
         }
         r)
    else
      assert s[i..] == [s[i]] + s[i + 1..];
      [s[i]] + StripTagsFrom(s, i + 1)
  }

  function FindClose(s: string, i: nat): (r: Option<nat>)
    requires i <= |s|
    ensures r.Some? ==> i <= r.value < |s| && s[r.value] == '>'
    decreases |s| - i
  {
    if i == |s| then None else if s[i] == '>' then Some(i) else FindClose(s, i + 1)
  }

  function StripTags(s: string): string {
    StripTagsFrom(s, 0)
  }

  /** Every `<` left in the text is followed by whitespace, so no tag opens. */
  predicate NoTagOpen(r: string) {
    forall i :: 0 <= i < |r| && r[i] == '<' ==> i + 1 < |r| && IsSpace(r[i + 1])
  }

  lemma {:induction false} StripTagsFromLeavesNoTag(s: string, i: nat)
    requires i <= |s|
    ensures NoTagOpen(StripTagsFrom(s, i))
    ensures i < |s| && IsSpace(s[i]) ==> StripTagsFrom(s, i) == [s[i]] + StripTagsFrom(s, i + 1)
    decreases |s| - i
  {
    if i < |s| {
      if s[i] == '<' && !(i + 1 < |s| && IsSpace(s[i + 1])) {
        match FindClose(s, i + 1)
        case None =>
        case Some(g) => StripTagsFromLeavesNoTag(s, g + 1);
      } else {
        StripTagsFromLeavesNoTag(s, i + 1);
        var rest := StripTagsFrom(s, i + 1);
        var r := [s[i]] + rest;
        forall k | 0 <= k < |r| && r[k] == '<' ensures k + 1 < |r| && IsSpace(r[k + 1]) {
          if k == 0 {
            assert i + 1 < |s| && IsSpace(s[i + 1]);
            StripTagsFromLeavesNoTag(s, i + 1);
          } else {
            assert r[k] == rest[k - 1];
          }
        }
      }
    }
  }

  lemma StripTagsLeavesNoTag(s: string)
    ensures NoTagOpen(StripTags(s))
    ensures forall c :: c in StripTags(s) ==> c in s
  {
    StripTagsFromLeavesNoTag(s, 0);
    assert s[0..] == s;
  }

  /** `wp_strip_all_tags` without the removal of script and style bodies: strip, then trim. */
  function StripAllTags(s: string): (r: string)
    ensures Trimmed(r)
  {
    Trim(StripTags(s))
  }

  // ---------------------------------------------------------------------------
  // wp_trim_words

  /** The separators of `wp_trim_words`: newline, carriage return, tab and space. */
  predicate IsWordSep(c: char) {
    c == '\n' || c == '\r' || c == '\t' || c == ' '
  }

  predicate IsWord(w: string) {
    |w| > 0 && forall i :: 0 <= i < |w| ==> !IsWordSep(w[i])
  }

  function SkipSeps(s: string, i: nat): (r: nat)
    requires i <= |s|
    ensures i <= r <= |s| && (r < |s| ==> !IsWordSep(s[r]))
    decreases |s| - i
  {
    if i < |s| && IsWordSep(s[i]) then SkipSeps(s, i + 1) else i
  }

  function SkipWord(s: string, i: nat): (r: nat)
    requires i <= |s|
    ensures i <= r <= |s| && (r < |s| ==> IsWordSep(s[r]))
    ensures forall k :: i <= k < r ==> !IsWordSep(s[k])
    decreases |s| - i
  {
    if i < |s| && !IsWordSep(s[i]) then SkipWord(s, i + 1) else i
  }

  /** `preg_split('/[\n\r\t ]+/', s, -1, PREG_SPLIT_NO_EMPTY)` on `s[i..]`. */
  function WordsFrom(s: string, i: nat): (r: seq<string>)
    requires i <= |s|
    ensures forall k :: 0 <= k < |r| ==> IsWord(r[k])
    decreases |s| - i
  {
    var a := SkipSeps(s, i);
    if a == |s| then []
    else
      var b := SkipWord(s, a);
      [s[a..b]] + WordsFrom(s, b)
  }

  function SplitWords(s: string): seq<string> {
    WordsFrom(s, 0)
  }

  /**
   * `wp_trim_words(s, n)` with the default ellipsis: the first `n` words
   * joined by single spaces, followed by `&hellip;` when words were cut.
   */
  function TrimWords(s: string, n: nat): string {
    var w := SplitWords(StripAllTags(s));
    if |w| > n then Join(w[..n], " ") + "&hellip;" else Join(w, " ")
  }

  /** Splitting words joined by single spaces gives the words back. */
  lemma {:induction false} SplitJoinWords(ws: seq<string>)
    requires forall k :: 0 <= k < |ws| ==> IsWord(ws[k])
    ensures SplitWords(Join(ws, " ")) == ws
    decreases |ws|
  {
    if |ws| == 1 {
      SplitOneWord(ws[0]);
    } else if |ws| > 1 {
      var t := Join(ws[1..], " ");
      assert Join(ws, " ") == ws[0] + " " + t;
      assert t[0] == ws[1][0];
      SplitJoinWords(ws[1..]);
      SplitWordThen(ws[0], t);
    }
  }

  lemma SplitOneWord(w: string)
    requires IsWord(w)
    ensures SplitWords(w) == [w]
  {
    assert SkipSeps(w, 0) == 0;
    assert SkipWord(w, 0) == |w| by { SkipWordAll(w, 0); }
    assert w[0..|w|] == w;
    assert WordsFrom(w, |w|) == [];
  }

  lemma SplitWordThen(w: string, t: string)
    requires IsWord(w) && |t| > 0 && !IsWordSep(t[0])
    ensures SplitWords(w + " " + t) == [w] + SplitWords(t)
  {
    var s := w + " " + t;
    assert SkipSeps(s, 0) == 0;
    SkipWordPrefix(w, " " + t);
    assert s[0..|w|] == w;
    WordsFromAfterSep(w, t);
  }

  lemma {:induction false} SkipWordAll(s: string, i: nat)
    requires i <= |s| && forall k :: i <= k < |s| ==> !IsWordSep(s[k])
    ensures SkipWord(s, i) == |s|
    decreases |s| - i
  {
    if i < |s| {
      SkipWordAll(s, i + 1);
    }
  }

  lemma SkipWordPrefix(w: string, u: string)
    requires IsWord(w) && |u| > 0 && IsWordSep(u[0])
    ensures SkipWord(w + u, 0) == |w|
  {
    SkipWordUpTo(w + u, 0, |w|);
  }

  lemma {:induction false} SkipWordUpTo(s: string, i: nat, j: nat)
    requires i <= j < |s| && IsWordSep(s[j]) && forall k :: i <= k < j ==> !IsWordSep(s[k])
    ensures SkipWord(s, i) == j
    decreases j - i
  {
    if i < j {
      SkipWordUpTo(s, i + 1, j);
    }
  }

  /** After a word and one separator the scan goes on exactly as on the rest. */
  lemma WordsFromAfterSep(w: string, t: string)
    requires IsWord(w) && |t| > 0 && !IsWordSep(t[0])
    ensures WordsFrom(w + " " + t, |w|) == SplitWords(t)
  {
    var s := w + " " + t;
    assert SkipSeps(s, |w|) == |w| + 1 by {
      assert s[|w|] == ' ' && s[|w| + 1] == t[0];
    }
    assert s[|w| + 1..] == t;
    WordsFromShift(s, |w| + 1, t, 0);
    assert SkipSeps(t, 0) == 0;
  }

  /** The word scan over `s` from `d + i` is the scan over its suffix `t == s[d..]` from `i`. */
  lemma {:induction false} WordsFromShift(s: string, d: nat, t: string, i: nat)
    requires d <= |s| && s[d..] == t && i <= |t|
    ensures WordsFrom(s, d + i) == WordsFrom(t, i)
    decreases |t| - i
  {
    SkipSepsShift(s, d, t, i);
    var a := SkipSeps(t, i);
    if a == |t| {
      WordsFromStep(t, i);
      WordsFromStep(s, d + i);
    } else {
      SkipWordShift(s, d, t, a);
      var b := SkipWord(t, a);
      assert s[d + a..d + b] == t[a..b];
      WordsFromShift(s, d, t, b);
      WordsFromStep(s, d + i);
      WordsFromStep(t, i);
    }
  }

  /** One step of the word scan. */
  lemma WordsFromStep(s: string, i: nat)
    requires i <= |s|
    ensures var a := SkipSeps(s, i);
      if a == |s| then WordsFrom(s, i) == []
      else WordsFrom(s, i) == [s[a..SkipWord(s, a)]] + WordsFrom(s, SkipWord(s, a))
  {
  }

  lemma {:induction false} SkipSepsShift(s: string, d: nat, t: string, i: nat)
    requires d <= |s| && s[d..] == t && i <= |t|
    ensures SkipSeps(s, d + i) == d + SkipSeps(t, i)
    decreases |t| - i
  {
    if i < |t| {
      assert s[d + i] == t[i];
      SkipSepsShift(s, d, t, i + 1);
    }
  }

  lemma {:induction false} SkipWordShift(s: string, d: nat, t: string, i: nat)
    requires d <= |s| && s[d..] == t && i <= |t|
    ensures SkipWord(s, d + i) == d + SkipWord(t, i)
    decreases |t| - i
  {
    if i < |t| {
      assert s[d + i] == t[i];
      SkipWordShift(s, d, t, i + 1);
    }
  }

  /**
   * The trimmed text keeps at most `n` words: when nothing was cut it holds
   * the same words as the stripped input; otherwise it is the first `n`
   * words and the ellipsis.
   */
  lemma TrimWordsBound(s: string, n: nat)
    ensures var w := SplitWords(StripAllTags(s));
      if |w| <= n then SplitWords(TrimWords(s, n)) == w
      else TrimWords(s, n) == Join(w[..n], " ") + "&hellip;" && SplitWords(Join(w[..n], " ")) == w[..n]
  {
    var w := SplitWords(StripAllTags(s));
    if |w| <= n {
      SplitJoinWords(w);
    } else {
      SplitJoinWords(w[..n]);
    }
  }

  // ---------------------------------------------------------------------------
  // str_word_count

  predicate IsWordChar(c: char) {
    IsAsciiLetter(c) || c == '\'' || c == '-'
  }

  /** Number of maximal runs of word characters in `t`. */
  function CountRuns(t: string): nat {
    if |t| == 0 then 0
    else CountRuns(t[..|t| - 1]) + (if IsWordChar(t[|t| - 1]) && (|t| == 1 || !IsWordChar(t[|t| - 2])) then 1 else 0)
  }

  /**
   * PHP `str_word_count(s)` as its implementation counts: a `'` or `-` as
   * the very first character and a `-` as the very last are skipped, then
   * every maximal run of ASCII letters, `'` and `-` is one word.
   */
  function StrWordCount(s: string): nat {
    if |s| == 0 then 0
    else
      var a := if s[0] == '\'' || s[0] == '-' then 1 else 0;
      var b := if s[|s| - 1] == '-' then |s| - 1 else |s|;
      if a >= b then 0 else CountRuns(s[a..b])
  }

  predicate LetterWord(w: string) {
    |w| > 0 && forall i :: 0 <= i < |w| ==> IsAsciiLetter(w[i])
  }

  /** A run of letters counts once. */
  lemma {:induction false} CountRunsLetters(w: string)
    requires LetterWord(w)
    ensures CountRuns(w) == 1
    decreases |w|
  {
    if |w| > 1 {
      CountRunsLetters(w[..|w| - 1]);
    }
  }

  /** Appending a space and a letter word adds one run. */
  lemma {:induction false} CountRunsAppend(t: string, w: string)
    requires LetterWord(w)
    ensures CountRuns(t + " " + w) == CountRuns(t) + 1
    decreases |w|
  {
    var u := t + " " + w;
    if |w| == 1 {
      assert u[..|u| - 1] == t + " ";
      assert (t + " ")[..|t|] == t;
    } else {
      var w' := w[..|w| - 1];
      assert u[..|u| - 1] == t + " " + w';
      CountRunsAppend(t, w');
    }
  }

  /** Letter words separated by single spaces count as exactly that many words. */
  lemma {:induction false} CountRunsOfJoin(ws: seq<string>)
    requires forall k :: 0 <= k < |ws| ==> LetterWord(ws[k])
    ensures CountRuns(Join(ws, " ")) == |ws|
    decreases |ws|
  {
    if |ws| == 1 {
      CountRunsLetters(ws[0]);
    } else if |ws| > 1 {
      var init := ws[..|ws| - 1];
      CountRunsOfJoin(init);
      JoinSnoc(init, ws[|ws| - 1], " ");
      assert init + [ws[|ws| - 1]] == ws;
      CountRunsAppend(Join(init, " "), ws[|ws| - 1]);
    }
  }

  /** `implode` over one more part. */
  lemma {:induction false} JoinSnoc(parts: seq<string>, x: string, sep: string)
    requires |parts| > 0
    ensures Join(parts + [x], sep) == Join(parts, sep) + sep + x
    decreases |parts|
  {
    if |parts| > 1 {
      assert (parts + [x])[1..] == parts[1..] + [x];
      JoinSnoc(parts[1..], x, sep);
    }
  }

  /** The word count of letter words separated by single spaces is their number. */
  lemma StrWordCountOfWords(ws: seq<string>)
    requires forall k :: 0 <= k < |ws| ==> LetterWord(ws[k])
    ensures StrWordCount(Join(ws, " ")) == |ws|
  {
    CountRunsOfJoin(ws);
    if |ws| > 0 {
      JoinEnds(ws);
      StrWordCountOfLetterEnds(Join(ws, " "));
    }
  }

  /** With a letter at both ends nothing is skipped. */
  lemma StrWordCountOfLetterEnds(s: string)
    requires |s| > 0 && IsAsciiLetter(s[0]) && IsAsciiLetter(s[|s| - 1])
    ensures StrWordCount(s) == CountRuns(s)
  {
    assert s[0..|s|] == s;
  }

  /** Letter words joined by spaces start and end with a letter. */
  lemma {:induction false} JoinEnds(ws: seq<string>)
    requires |ws| > 0 && forall k :: 0 <= k < |ws| ==> LetterWord(ws[k])
    ensures var s := Join(ws, " "); |s| > 0 && IsAsciiLetter(s[0]) && IsAsciiLetter(s[|s| - 1])
    decreases |ws|
  {
    if |ws| > 1 {
      JoinEnds(ws[1..]);
      var s := Join(ws, " ");
      var t := Join(ws[1..], " ");
      assert s == ws[0] + " " + t;
      assert s[0] == ws[0][0];
      assert s[|s| - 1] == t[|t| - 1];
    } else {
      assert ws[0][0] == Join(ws, " ")[0];
    }
  }
}
