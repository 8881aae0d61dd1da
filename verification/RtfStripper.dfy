/** The RTF-to-text scanner: what each token is worth, and the index-driven loop. */
module RtfStripper {
  import opened Options
  import opened PyText

  /** Length of the longest prefix of letters. */
  function AlphaRun(cc: CharClasses, s: string): (k: nat)
    ensures k <= |s| && (k < |s| ==> !cc.isAlpha(s[k]))
    ensures forall j | 0 <= j < k :: cc.isAlpha(s[j])
  {
    if s != "" && cc.isAlpha(s[0]) then 1 + AlphaRun(cc, s[1..]) else 0
  }

  /** The letters a text starts with. */
  function FirstLetters(cc: CharClasses, s: string): string {
    s[..AlphaRun(cc, s)]
  }

  predicate IsParam(cc: CharClasses, c: char) {
    cc.isDigit(c) || c == '-'
  }

  /** Length of the longest prefix of digits and minus signs. */
  function ParamRun(cc: CharClasses, s: string): (k: nat)
    ensures k <= |s| && (k < |s| ==> !IsParam(cc, s[k]))
    ensures forall j | 0 <= j < k :: IsParam(cc, s[j])
  {
    if s != "" && IsParam(cc, s[0]) then 1 + ParamRun(cc, s[1..]) else 0
  }

  /** Groups whose content is not text. */
  predicate IsSkippedWord(word: string) {
    word in ["fonttbl", "colortbl", "stylesheet", "info", "pict"]
  }

  /** The text starts with the opening brace of a group to skip. */
  predicate OpensSkip(cc: CharClasses, s: string) {
    && |s| >= 2 && s[0] == '{' && s[1] == '\\'
    && ((|s| >= 3 && s[2] == '*') || IsSkippedWord(FirstLetters(cc, s[2..])))
  }

  /** `{\*`, `{\fonttbl` and the like, where what follows does not extend the word. */
  predicate IsSkipHead(cc: CharClasses, head: string, behind: string) {
    || head == "{\\*"
    || (head in ["{\\fonttbl", "{\\colortbl", "{\\stylesheet", "{\\info", "{\\pict"]
        && (behind != "" ==> !cc.isAlpha(behind[0])))
  }

  /** A run of letters ends where the letters do. */
  lemma AlphaRunIs(cc: CharClasses, s: string, k: nat)
    requires k <= |s| && (k < |s| ==> !cc.isAlpha(s[k]))
    requires forall j | 0 <= j < k :: cc.isAlpha(s[j])
    ensures AlphaRun(cc, s) == k
  {
  }

  lemma SkippedWordsAreLetters(cc: CharClasses, w: string)
    requires cc.Valid() && IsSkippedWord(w)
    ensures w != "" && forall j | 0 <= j < |w| :: cc.isAlpha(w[j]) && w[j] != '{' && w[j] != '}'
  {
  }

  /** The heads are the star and the words. */
  lemma SkipHeadIsWord(cc: CharClasses, head: string, behind: string)
    requires IsSkipHead(cc, head, behind) && head != "{\\*"
    ensures head == "{\\" + head[2..] && IsSkippedWord(head[2..]) && (behind != "" ==> !cc.isAlpha(behind[0]))
  {
  }

  lemma WordIsSkipHead(cc: CharClasses, w: string, behind: string)
    requires IsSkippedWord(w) && (behind != "" ==> !cc.isAlpha(behind[0]))
    ensures IsSkipHead(cc, "{\\" + w, behind)
  {
    assert "{\\" + "fonttbl" == "{\\fonttbl" && "{\\" + "colortbl" == "{\\colortbl";
    assert "{\\" + "stylesheet" == "{\\stylesheet" && "{\\" + "info" == "{\\info" && "{\\" + "pict" == "{\\pict";
  }

  lemma LettersBehind(cc: CharClasses, s: string, w: string, behind: string)
    requires s == "{\\" + w + behind && (behind != "" ==> !cc.isAlpha(behind[0]))
    requires forall j | 0 <= j < |w| :: cc.isAlpha(w[j])
    ensures FirstLetters(cc, s[2..]) == w
  {
    assert s[2..] == w + behind;
    AlphaRunIs(cc, w + behind, |w|);
  }

  lemma SkipHeadOpens(cc: CharClasses, s: string, k: nat)
    requires cc.Valid() && k <= |s| && IsSkipHead(cc, s[..k], s[k..])
    ensures OpensSkip(cc, s)
  {
    var head, behind := s[..k], s[k..];
    if head == "{\\*" {
      assert s[0] == head[0] && s[1] == head[1] && s[2] == head[2];
    } else {
      SkipHeadIsWord(cc, head, behind);
      var w := head[2..];
      SkippedWordsAreLetters(cc, w);
      hide IsSkipHead;
      hide IsSkippedWord;
      hide FirstLetters;
      hide CharClasses.Valid;
      assert s == head + behind;
      LettersBehind(cc, s, w, behind);
      assert s[0] == head[0] && s[1] == head[1];
    }
  }

  /** A text opens a skipped group if and only if it starts with one of six heads. */
  lemma OpensSkipExactly(cc: CharClasses, s: string)
    requires cc.Valid()
    ensures OpensSkip(cc, s) <==> exists k: nat :: k <= |s| && IsSkipHead(cc, s[..k], s[k..])
  {
    if OpensSkip(cc, s) {
      if |s| >= 3 && s[2] == '*' {
        assert IsSkipHead(cc, s[..3], s[3..]);
      } else {
        var k := 2 + AlphaRun(cc, s[2..]);
        assert s[..k] == "{\\" + FirstLetters(cc, s[2..]);
        assert k < |s| ==> s[k..][0] == s[2..][k - 2];
        WordIsSkipHead(cc, FirstLetters(cc, s[2..]), s[k..]);
      }
    }
    forall k: nat | k <= |s| && IsSkipHead(cc, s[..k], s[k..]) ensures OpensSkip(cc, s) {
      SkipHeadOpens(cc, s, k);
    }
  }

  /** The characters that must be escaped to stand for themselves. */
  predicate IsStructural(c: char) {
    c == '\\' || c == '{' || c == '}'
  }

  predicate IsLineBreak(c: char) {
    c == '\r' || c == '\n'
  }

  predicate IsEscape(s: string) {
    |s| >= 2 && s[0] == '\\' && IsStructural(s[1])
  }

  function ControlWord(cc: CharClasses, s: string): string
    requires s != ""
  {
    FirstLetters(cc, s[1..])
  }

  /** A control word takes its parameter and one following space with it. */
  function ControlLen(cc: CharClasses, s: string): (k: nat)
    requires s != ""
    ensures 1 <= k <= |s|
  {
    var a := 1 + AlphaRun(cc, s[1..]);
    var p := a + ParamRun(cc, s[a..]);
    if p < |s| && s[p] == ' ' then p + 1 else p
  }

  // The scanner's state is a level: 0 outside skipped groups, and inside one the
  // number of braces still to be closed before the group ends.

  function TokenLen(cc: CharClasses, s: string, lvl: nat): (k: nat)
    requires s != ""
    ensures 1 <= k <= |s|
  {
    if lvl > 0 || s[0] != '\\' then 1
    else if IsEscape(s) then 2
    else ControlLen(cc, s)
  }

  function TokenText(cc: CharClasses, s: string, lvl: nat): (text: string)
    requires s != ""
    ensures |text| <= 1
  {
    if lvl > 0 || s[0] == '{' || s[0] == '}' || IsLineBreak(s[0]) then ""
    else if s[0] != '\\' then [s[0]]
    else if IsEscape(s) then [s[1]]
    else if ControlWord(cc, s) in ["par", "line"] then "\n"
    else ""
  }

  function NextLevel(cc: CharClasses, s: string, lvl: nat): nat
    requires s != ""
  {
    if s[0] == '{' then (if lvl > 0 then lvl + 1 else if OpensSkip(cc, s) then 1 else 0)
    else if s[0] == '}' && lvl > 0 then lvl - 1
    else lvl
  }

  /** The text a string is worth, scanned from a given level. */
  function Emit(cc: CharClasses, s: string, lvl: nat): (text: string)
    ensures |text| <= |s|
    decreases |s|
  {
    if s == "" then ""
    else TokenText(cc, s, lvl) + Emit(cc, s[TokenLen(cc, s, lvl)..], NextLevel(cc, s, lvl))
  }

  /** The text of a whole RTF document. */
  function Strip(cc: CharClasses, rtf: string): string {
    Trim(cc, Emit(cc, rtf, 0))
  }

  // ----- The loop with its brace depth refines the scan with its level -----

  function Level(depth: nat, skip: Option<nat>): int {
    if skip.None? then 0 else depth - skip.value + 1
  }

  /** A scan for letters from index `b` that stopped at `j`, seen from token start `i`. */
  lemma LettersScanned(cc: CharClasses, rtf: string, i: nat, b: nat, j: nat)
    requires i <= b <= j <= |rtf| && (j < |rtf| ==> !cc.isAlpha(rtf[j]))
    requires forall m | b <= m < j :: cc.isAlpha(rtf[m])
    ensures AlphaRun(cc, rtf[i..][b - i..]) == j - b
    ensures FirstLetters(cc, rtf[i..][b - i..]) == rtf[b..j]
  {
    assert rtf[i..][b - i..] == rtf[b..];
    assert forall m | 0 <= m < j - b :: rtf[b..][m] == rtf[b + m];
  }

  lemma ParamScanned(cc: CharClasses, rtf: string, i: nat, b: nat, j: nat)
    requires i <= b <= j <= |rtf| && (j < |rtf| ==> !IsParam(cc, rtf[j]))
    requires forall m | b <= m < j :: IsParam(cc, rtf[m])
    ensures ParamRun(cc, rtf[i..][b - i..]) == j - b
  {
    assert rtf[i..][b - i..] == rtf[b..];
    assert forall m | 0 <= m < j - b :: rtf[b..][m] == rtf[b + m];
  }

  lemma EmitStep(cc: CharClasses, rtf: string, i: nat, lvl: nat)
    requires i < |rtf|
    ensures var s := rtf[i..];
            Emit(cc, s, lvl) ==
            TokenText(cc, s, lvl) + Emit(cc, rtf[i + TokenLen(cc, s, lvl)..], NextLevel(cc, s, lvl))
  {
    var s := rtf[i..];
    assert s[TokenLen(cc, s, lvl)..] == rtf[i + TokenLen(cc, s, lvl)..];
  }

  lemma Regroup(a: string, b: string, c: string)
    ensures a + (b + c) == (a + b) + c
  {
  }

  /** The token at a position, case by case as the loop takes them. */
  lemma TokenCases(cc: CharClasses, s: string, lvl: nat)
    requires s != ""
    ensures var len, text, next := TokenLen(cc, s, lvl), TokenText(cc, s, lvl), NextLevel(cc, s, lvl);
            if s[0] == '{' then
              len == 1 && text == "" && next == (if lvl > 0 then lvl + 1 else if OpensSkip(cc, s) then 1 else 0)
            else if s[0] == '}' then len == 1 && text == "" && next == (if lvl > 0 then lvl - 1 else 0)
            else if lvl > 0 then len == 1 && text == "" && next == lvl
            else if s[0] == '\\' then
              next == 0 && len == (if IsEscape(s) then 2 else ControlLen(cc, s))
              && text == (if IsEscape(s) then [s[1]] else if ControlWord(cc, s) in ["par", "line"] then "\n" else "")
            else len == 1 && next == 0 && text == if IsLineBreak(s[0]) then "" else [s[0]]
  {
  }

  lemma EmitNothing(cc: CharClasses, lvl: nat)
    ensures Emit(cc, "", lvl) == ""
  {
  }

  /** The lookahead at an opening brace. */
  method LookForSkippedGroup(cc: CharClasses, rtf: string, i: nat) returns (skip: bool)
    requires i < |rtf| && rtf[i] == '{'
    ensures skip == OpensSkip(cc, rtf[i..])
    ensures cc.Valid() ==> (skip <==> exists k: nat :: k <= |rtf[i..]| && IsSkipHead(cc, rtf[i..][..k], rtf[i..][k..]))
  {
    if cc.Valid() {
      OpensSkipExactly(cc, rtf[i..]);
    }
    hide IsSkipHead;
    skip := false;
    if i + 1 < |rtf| && rtf[i + 1] == '\\' {
      var j := i + 2;
      if j < |rtf| && rtf[j] == '*' {
        skip := true;
      } else {
        while j < |rtf| && cc.isAlpha(rtf[j])
          invariant i + 2 <= j <= |rtf|
          invariant forall m | i + 2 <= m < j :: cc.isAlpha(rtf[m])
        {
          j := j + 1;
        }
        var word := rtf[i + 2..j];
        LettersScanned(cc, rtf, i, i + 2, j);
        skip := word in ["fonttbl", "colortbl", "stylesheet", "info", "pict"];
      }
    }
  }

  /** The scan over a control word, its parameter and its delimiting space. */
  method ScanControl(cc: CharClasses, rtf: string, i: nat) returns (word: string, next: nat)
    requires i < |rtf| && rtf[i] == '\\'
    ensures word == ControlWord(cc, rtf[i..])
    ensures next == i + ControlLen(cc, rtf[i..])
  {
    hide AlphaRun;
    hide ParamRun;
    ghost var s := rtf[i..];
    var j := i + 1;
    while j < |rtf| && cc.isAlpha(rtf[j])
      invariant i + 1 <= j <= |rtf|
      invariant forall m | i + 1 <= m < j :: cc.isAlpha(rtf[m])
    {
      j := j + 1;
    }
    word := rtf[i + 1..j];
    LettersScanned(cc, rtf, i, i + 1, j);
    ghost var a := j;
    assert AlphaRun(cc, s[1..]) == a - i - 1;
    while j < |rtf| && (cc.isDigit(rtf[j]) || rtf[j] == '-')
      invariant a <= j <= |rtf|
      invariant forall m | a <= m < j :: IsParam(cc, rtf[m])
    {
      j := j + 1;
    }
    ParamScanned(cc, rtf, i, a, j);
    assert ParamRun(cc, s[a - i..]) == j - a;
    assert j < |rtf| ==> s[j - i] == rtf[j];
    if j < |rtf| && rtf[j] == ' ' {
      j := j + 1;
    }
    next := if j > i + 1 then j else i + 1;
  }

  method StripRtfText(cc: CharClasses, rtf: string) returns (text: string)
    ensures text == Strip(cc, rtf)
  {
    hide Emit;
    hide TokenLen;
    hide TokenText;
    hide NextLevel;
    hide ControlWord;
    hide ControlLen;
    hide OpensSkip;
    assert rtf[0..] == rtf;
    var out := "";
    var i := 0;
    var n := |rtf|;
    var depth := 0;
    var skipDepth: Option<nat> := None;
    while i < n
      invariant 0 <= i <= n && 0 <= depth
      invariant skipDepth.Some? ==> 1 <= skipDepth.value <= depth
      invariant |out| <= i
      invariant out + Emit(cc, rtf[i..], Level(depth, skipDepth)) == Emit(cc, rtf, 0)
      decreases n - i
    {
      var ch := rtf[i];
      ghost var s, lvl := rtf[i..], Level(depth, skipDepth);
      ghost var i0, out0 := i, out;
      EmitStep(cc, rtf, i, lvl);
      TokenCases(cc, s, lvl);
      if ch == '{' {
        depth := depth + 1;
        if skipDepth.None? {
          var skip := LookForSkippedGroup(cc, rtf, i);
          if skip {
            skipDepth := Some(depth);
          }
        }
        i := i + 1;
      } else if ch == '}' {
        if skipDepth == Some(depth) {
          skipDepth := None;
        }
        depth := if depth > 0 then depth - 1 else 0;
        i := i + 1;
      } else if skipDepth.Some? {
        i := i + 1;
      } else if ch == '\\' {
        if i + 1 < n && IsStructural(rtf[i + 1]) {
          out := out + [rtf[i + 1]];
          i := i + 2;
        } else {
          var word, next := ScanControl(cc, rtf, i);
          if word in ["par", "line"] {
            out := out + "\n";
          }
          i := next;
        }
      } else {
        if !IsLineBreak(ch) {
          out := out + [ch];
        }
        i := i + 1;
      }
      ghost var tok, lvl' := TokenText(cc, s, lvl), NextLevel(cc, s, lvl);
      assert i == i0 + TokenLen(cc, s, lvl) && out == out0 + tok && Level(depth, skipDepth) == lvl';
      Regroup(out0, tok, Emit(cc, rtf[i..], lvl'));
    }
    assert rtf[n..] == "";
    EmitNothing(cc, Level(depth, skipDepth));
    assert out + "" == out;
    text := Trim(cc, out);
  }
}
