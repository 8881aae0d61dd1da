/** Exactly where a skipped group can be inserted into a document without a trace. */
module RtfErasure {
  import opened Options
  import opened PyText
  import opened RtfStripper
  import opened RtfDocuments

  /** Where `n` characters into a string lie for the scanner: inside a token, or
      between tokens at a level, just after a lone backslash or not. */
  datatype Stop = Inside | Boundary(lvl: nat, afterBackslash: bool)

  /** The token is a backslash that neither escapes nor names anything. */
  predicate IsLoneBackslash(cc: CharClasses, s: string, lvl: nat)
    requires s != ""
  {
    lvl == 0 && s[0] == '\\' && TokenLen(cc, s, lvl) == 1
  }

  function StopAt(cc: CharClasses, s: string, n: nat, lvl: nat, after: bool): Stop
    requires n <= |s|
    decreases |s|
  {
    if n == 0 then Boundary(lvl, after)
    else if TokenLen(cc, s, lvl) > n then Inside
    else
      StopAt(cc, s[TokenLen(cc, s, lvl)..], n - TokenLen(cc, s, lvl), NextLevel(cc, s, lvl), IsLoneBackslash(cc, s, lvl))
  }

  /** The text the scanner has produced when it reaches a boundary. */
  function TextUpTo(cc: CharClasses, s: string, n: nat, lvl: nat): string
    requires n <= |s|
    decreases |s|
  {
    if n == 0 || TokenLen(cc, s, lvl) > n then ""
    else
      TokenText(cc, s, lvl)
      + TextUpTo(cc, s[TokenLen(cc, s, lvl)..], n - TokenLen(cc, s, lvl), NextLevel(cc, s, lvl))
  }

  lemma {:induction false} EmitSplits(cc: CharClasses, s: string, n: nat, lvl: nat, after: bool)
    requires n <= |s| && StopAt(cc, s, n, lvl, after).Boundary?
    ensures Emit(cc, s, lvl) == TextUpTo(cc, s, n, lvl) + Emit(cc, s[n..], StopAt(cc, s, n, lvl, after).lvl)
    decreases |s|
  {
    hide TokenLen;
    hide TokenText;
    hide NextLevel;
    hide IsLoneBackslash;
    if n > 0 {
      var k := TokenLen(cc, s, lvl);
      var lvl' := NextLevel(cc, s, lvl);
      EmitSplits(cc, s[k..], n - k, lvl', IsLoneBackslash(cc, s, lvl));
      assert s[k..][n - k..] == s[n..];
      Regroup(TokenText(cc, s, lvl), TextUpTo(cc, s[k..], n - k, lvl'),
              Emit(cc, s[n..], StopAt(cc, s, n, lvl, after).lvl));
    } else {
      assert s[n..] == s;
    }
  }

  /** What may follow a boundary so that the tokens before it stay as they are: an
      opening brace, or a backslash that escapes one. */
  predicate IsDelimiter(q: string) {
    q != "" && (q[0] == '{' || (q[0] == '\\' && |q| >= 2 && q[1] == '{'))
  }

  lemma AlphaStays(cc: CharClasses, p: string, q: string, q': string)
    requires cc.Valid() && IsDelimiter(q') && AlphaRun(cc, p + q) <= |p|
    ensures AlphaRun(cc, p + q') == AlphaRun(cc, p + q)
  {
    var k := AlphaRun(cc, p + q);
    assert forall j | 0 <= j < |p| :: (p + q)[j] == (p + q')[j];
    AlphaRunIs(cc, p + q', k);
  }

  lemma ParamStays(cc: CharClasses, p: string, q: string, q': string)
    requires cc.Valid() && IsDelimiter(q') && ParamRun(cc, p + q) <= |p|
    ensures ParamRun(cc, p + q') == ParamRun(cc, p + q)
  {
    var k := ParamRun(cc, p + q);
    assert forall j | 0 <= j < |p| :: (p + q)[j] == (p + q')[j];
    ParamRunIs(cc, p + q', k);
  }

  lemma ShiftedStays(p: string, q: string, k: nat)
    requires k <= |p|
    ensures (p + q)[k..] == p[k..] + q
  {
  }

  /** The part of `ControlLen` after the word has been scanned. */
  lemma ControlLenIs(cc: CharClasses, s: string, a: nat, b: nat)
    requires s != "" && a == 1 + AlphaRun(cc, s[1..]) && b == a + ParamRun(cc, s[a..])
    ensures ControlLen(cc, s) == if b < |s| && s[b] == ' ' then b + 1 else b
    ensures ControlWord(cc, s) == s[1..][..a - 1]
  {
  }

  /** The scans over word and parameter stop where they did, at `a` and `b`. */
  lemma ControlRunsStay(cc: CharClasses, p: string, q: string, q': string, a: nat, b: nat)
    requires cc.Valid() && IsDelimiter(q') && 1 <= a <= b <= |p|
    requires a == 1 + AlphaRun(cc, (p + q)[1..]) && b == a + ParamRun(cc, (p + q)[a..])
    ensures a == 1 + AlphaRun(cc, (p + q')[1..]) && b == a + ParamRun(cc, (p + q')[a..])
  {
    hide AlphaRun;
    hide ParamRun;
    hide IsDelimiter;
    ShiftedStays(p, q, 1);
    ShiftedStays(p, q', 1);
    ShiftedStays(p, q, a);
    ShiftedStays(p, q', a);
    AlphaStays(cc, p[1..], q, q');
    ParamStays(cc, p[a..], q, q');
  }

  lemma ControlEndStays(p: string, q: string, q': string, a: nat, b: nat)
    requires IsDelimiter(q') && 1 <= a <= b <= |p|
    requires b == |p| ==> q == "" || q[0] != ' '
    ensures var s, s' := p + q, p + q';
            && (b < |s| && s[b] == ' ' <==> b < |s'| && s'[b] == ' ')
            && s[1..][..a - 1] == s'[1..][..a - 1]
  {
  }

  lemma ControlStays(cc: CharClasses, p: string, q: string, q': string)
    requires cc.Valid() && IsDelimiter(q')
    requires p != "" && p[0] == '\\' && ControlLen(cc, p + q) <= |p|
    ensures ControlLen(cc, p + q') == ControlLen(cc, p + q)
    ensures ControlWord(cc, p + q') == ControlWord(cc, p + q)
  {
    var s, s' := p + q, p + q';
    var a := 1 + AlphaRun(cc, s[1..]);
    var b := a + ParamRun(cc, s[a..]);
    hide AlphaRun;
    hide ParamRun;
    ControlLenIs(cc, s, a, b);
    hide ControlLen;
    hide ControlWord;
    assert b == |p| && q != "" ==> s[b] == q[0];
    hide IsDelimiter;
    ControlRunsStay(cc, p, q, q', a, b);
    ControlLenIs(cc, s', a, b);
    ControlEndStays(p, q, q', a, b);
  }

  lemma {:induction false} ClosesWithin(cc: CharClasses, s: string, n: nat, lvl: nat, after: bool) returns (m: nat)
    requires n <= |s| && lvl > 0 && StopAt(cc, s, n, lvl, after).Boundary? && StopAt(cc, s, n, lvl, after).lvl == 0
    ensures m < n && s[m] == '}'
    decreases |s|
  {
    if s[0] == '}' {
      m := 0;
    } else {
      m := ClosesWithin(cc, s[1..], n - 1, NextLevel(cc, s, lvl), IsLoneBackslash(cc, s, lvl));
      m := m + 1;
    }
  }

  lemma LettersWithin(cc: CharClasses, p: string, q: string, q': string, m: nat)
    requires m < |p| && !cc.isAlpha(p[m])
    ensures var k := AlphaRun(cc, p + q);
            k <= m && AlphaRun(cc, p + q') == k && FirstLetters(cc, p + q) == FirstLetters(cc, p + q')
  {
    var k := AlphaRun(cc, p + q);
    assert (p + q)[m] == p[m];
    assert k <= m;
    assert forall j | 0 <= j <= k :: (p + q)[j] == (p + q')[j];
    AlphaRunIs(cc, p + q', k);
  }

  /** A closing brace in sight settles the lookahead at an opening brace. */
  lemma LookaheadWithin(cc: CharClasses, p: string, q: string, q': string, m: nat)
    requires cc.Valid() && 1 <= m < |p| && p[m] == '}'
    ensures OpensSkip(cc, p + q) == OpensSkip(cc, p + q')
  {
    var s, s' := p + q, p + q';
    assert s[0] == s'[0] && s[1] == s'[1];
    if m >= 2 {
      assert s[2] == s'[2];
      ShiftedStays(p, q, 2);
      ShiftedStays(p, q', 2);
      LettersWithin(cc, p[2..], q, q', m - 2);
    }
    hide FirstLetters;
  }

  lemma ControlCoversLetters(cc: CharClasses, s: string)
    requires s != ""
    ensures ControlLen(cc, s) >= 1 + AlphaRun(cc, s[1..])
  {
  }

  lemma DelimiterAtWord(p: string, q': string)
    requires IsDelimiter(q')
    ensures var s := p + q';
            1 <= |p| <= 2 && |s| >= 3 && s[1] == '\\' ==> s[2] == '{' || s[2] == '\\'
  {
    var s := p + q';
    if 1 <= |p| <= 2 && |s| >= 3 && s[1] == '\\' {
      assert s[|p|] == q'[0];
      assert s[2] == q'[2 - |p|];
    }
  }

  /** A delimiter shows no skip word that the text before it does not spell out. */
  lemma DelimiterHidesNoSkip(cc: CharClasses, p: string, q': string)
    requires cc.Valid() && IsDelimiter(q') && p != "" && OpensSkip(cc, p + q')
    ensures |p| >= 3 && p[1] == '\\'
    ensures p[2] == '*' || (2 + AlphaRun(cc, (p + q')[2..]) <= |p| && cc.isAlpha(p[2]))
  {
    var s' := p + q';
    var k := AlphaRun(cc, s'[2..]);
    assert |p| < |s'| && s'[|p|] == q'[0];
    DelimiterAtWord(p, q');
    if s'[2] != '*' {
      assert FirstLetters(cc, s'[2..]) != "";
      assert cc.isAlpha(s'[2..][0]);
    }
  }

  /** Letters up to the boundary, if no token runs over it, end there. */
  lemma LettersUpTo(cc: CharClasses, p: string, q: string, q': string)
    requires cc.Valid() && IsDelimiter(q') && AlphaRun(cc, p + q) <= |p| && AlphaRun(cc, p + q') <= |p|
    ensures FirstLetters(cc, p + q) == FirstLetters(cc, p + q')
  {
    AlphaStays(cc, p, q, q');
  }

  lemma WordStays(cc: CharClasses, p: string, q: string, q': string)
    requires cc.Valid() && IsDelimiter(q') && |p| >= 3 && p[0] == '{' && p[1] == '\\'
    requires OpensSkip(cc, p + q') && cc.isAlpha(p[2]) && 2 + AlphaRun(cc, (p + q')[2..]) <= |p|
    requires ControlLen(cc, (p + q)[1..]) <= |p| - 1
    ensures OpensSkip(cc, p + q)
  {
    var s, s' := p + q, p + q';
    ControlCoversLetters(cc, s[1..]);
    assert s[1..][1..] == s[2..];
    ShiftedStays(p, q, 2);
    ShiftedStays(p, q', 2);
    hide ControlLen;
    hide AlphaRun;
    hide IsDelimiter;
    LettersUpTo(cc, p[2..], q, q');
    hide FirstLetters;
    assert s[0] == s'[0] && s[1] == s'[1] && s[2] == s'[2];
  }

  /** The lookahead at an opening brace before the boundary sees no difference. */
  lemma SkipStays(cc: CharClasses, p: string, q: string, q': string, after: bool)
    requires cc.Valid() && IsDelimiter(q') && p != "" && p[0] == '{'
    requires StopAt(cc, p + q, |p|, 0, after).Boundary? && StopAt(cc, p + q, |p|, 0, after).lvl == 0
    ensures OpensSkip(cc, p + q) == OpensSkip(cc, p + q')
  {
    var s, s' := p + q, p + q';
    if OpensSkip(cc, s) {
      var m := ClosesWithin(cc, s[1..], |p| - 1, 1, false);
      LookaheadWithin(cc, p, q, q', m + 1);
    } else if OpensSkip(cc, s') {
      DelimiterHidesNoSkip(cc, p, q');
      if p[2] != '*' {
        assert s[1..][0] == '\\' && s[1..][1] == p[2];
        WordStays(cc, p, q, q');
      }
    }
  }

  /** A token wholly before the boundary is the same token whatever delimiter follows. */
  lemma TokenStays(cc: CharClasses, p: string, q: string, q': string, lvl: nat, after: bool)
    requires cc.Valid() && IsDelimiter(q') && p != ""
    requires StopAt(cc, p + q, |p|, lvl, after) == Boundary(0, false)
    ensures TokenLen(cc, p + q', lvl) == TokenLen(cc, p + q, lvl) <= |p|
    ensures TokenText(cc, p + q', lvl) == TokenText(cc, p + q, lvl)
    ensures NextLevel(cc, p + q', lvl) == NextLevel(cc, p + q, lvl)
    ensures IsLoneBackslash(cc, p + q', lvl) == IsLoneBackslash(cc, p + q, lvl)
  {
    var s := p + q;
    if lvl == 0 && p[0] == '{' {
      SkipStays(cc, p, q, q', after);
    }
    if lvl == 0 && p[0] == '\\' {
      if !IsEscape(s) {
        ControlStays(cc, p, q, q');
      }
    }
  }

  lemma {:induction false} PrefixStays(cc: CharClasses, p: string, q: string, q': string, lvl: nat, after: bool)
    requires cc.Valid() && IsDelimiter(q')
    requires StopAt(cc, p + q, |p|, lvl, after) == Boundary(0, false)
    ensures StopAt(cc, p + q', |p|, lvl, after) == Boundary(0, false)
    ensures TextUpTo(cc, p + q', |p|, lvl) == TextUpTo(cc, p + q, |p|, lvl)
    decreases |p|
  {
    hide TokenLen;
    hide TokenText;
    hide NextLevel;
    hide IsLoneBackslash;
    hide IsDelimiter;
    if p != "" {
      TokenStays(cc, p, q, q', lvl, after);
      var k := TokenLen(cc, p + q, lvl);
      ShiftedStays(p, q, k);
      ShiftedStays(p, q', k);
      PrefixStays(cc, p[k..], q, q', NextLevel(cc, p + q, lvl), IsLoneBackslash(cc, p + q, lvl));
    }
  }

  lemma AfterLoneBackslash(cc: CharClasses, s: string, lvl: nat)
    requires s != "" && IsLoneBackslash(cc, s, lvl)
    ensures TokenLen(cc, s, lvl) == 1 && lvl == 0
    ensures s[1..] == "" || !IsStructural(s[1..][0])
  {
  }

  lemma LoneIsStructural(cc: CharClasses, s: string, lvl: nat)
    requires s != "" && IsLoneBackslash(cc, s, lvl)
    ensures IsStructural(s[0])
  {
  }

  /** A boundary after a lone backslash has a boundary just before that backslash. */
  lemma {:induction false} BeforeBackslash(cc: CharClasses, s: string, n: nat, lvl: nat, after: bool)
    requires n <= |s| && StopAt(cc, s, n, lvl, after).Boundary? && StopAt(cc, s, n, lvl, after).afterBackslash
    requires after ==> s == "" || !IsStructural(s[0])
    requires n > 0
    ensures StopAt(cc, s, n - 1, lvl, after) == Boundary(0, false)
    ensures IsLoneBackslash(cc, s[n - 1..], 0)
    decreases |s|
  {
    hide TokenLen;
    hide NextLevel;
    hide IsLoneBackslash;
    var k := TokenLen(cc, s, lvl);
    var lone := IsLoneBackslash(cc, s, lvl);
    if lone {
      AfterLoneBackslash(cc, s, lvl);
      LoneIsStructural(cc, s, lvl);
    }
    if k == n {
      assert s[n - 1..] == s;
    } else {
      BeforeBackslash(cc, s[k..], n - k, NextLevel(cc, s, lvl), lone);
      assert s[k..][n - k - 1..] == s[n - 1..];
    }
  }

  lemma LoneBackslashIsSilent(cc: CharClasses, q: string)
    requires IsLoneBackslash(cc, "\\" + q, 0)
    ensures Emit(cc, "\\" + q, 0) == Emit(cc, q, 0)
  {
    EmitToken(cc, "\\" + q, 0, q);
    hide Emit;
  }

  lemma EscapedBrace(cc: CharClasses, rest: string)
    ensures Emit(cc, "\\{" + rest, 0) == "{" + Emit(cc, rest, 0)
  {
    EmitToken(cc, "\\{" + rest, 0, rest);
    hide Emit;
  }

  lemma ControlHasNoBraces(cc: CharClasses, s: string, j: nat)
    requires cc.Valid() && s != "" && 1 <= j < ControlLen(cc, s)
    ensures s[j] != '{' && s[j] != '}'
  {
    var a := AlphaRun(cc, s[1..]);
    var b := ParamRun(cc, s[1 + a..]);
    assert j < 1 + a ==> s[1..][j - 1] == s[j];
    assert 1 + a <= j < 1 + a + b ==> s[1 + a..][j - 1 - a] == s[j];
  }

  lemma {:induction false} BracesSkip(r: string, k: nat, d: nat)
    requires k <= |r| && forall j | 0 <= j < k :: r[j] != '{' && r[j] != '}'
    ensures Braces(r, d) == Braces(r[k..], d)
  {
    if k > 0 {
      BracesSkip(r[1..], k - 1, d);
      assert r[1..][k - 1..] == r[k..];
    } else {
      assert r[k..] == r;
    }
  }

  lemma LastOfRest(r: string, k: nat)
    requires r != "" && k <= |r|
    ensures r[k..] != "" ==> r[k..][|r[k..]| - 1] == r[|r| - 1]
  {
  }

  /** The brace depth after the first token of `r`, `k` characters long. */
  function DepthAfter(r: string, k: nat, d: nat): nat
    requires 1 <= k <= |r|
  {
    var d1 := if r[0] == '{' then d + 1 else if r[0] == '}' && d > 0 then d - 1 else d;
    if k == 1 then d1
    else if r[1] == '{' then d1 + 1
    else if r[1] == '}' && d1 > 0 then d1 - 1
    else d1
  }

  lemma ClosedToken(cc: CharClasses, r: string, q: string, d: nat, lvl: nat)
    requires cc.Valid() && r != "" && r[|r| - 1] == '}' && Braces(r, d) == Some(0) && lvl <= d
    ensures var k := TokenLen(cc, r + q, lvl);
            && k <= |r|
            && Braces(r[k..], DepthAfter(r, k, d)) == Some(0)
            && NextLevel(cc, r + q, lvl) <= DepthAfter(r, k, d)
  {
    var s := r + q;
    var k := TokenLen(cc, s, lvl);
    if lvl == 0 && s[0] == '\\' && !IsEscape(s) {
      forall j: nat | 1 <= j < k ensures s[j] != '{' && s[j] != '}' {
        ControlHasNoBraces(cc, s, j);
      }
      assert s[|r| - 1] == '}';
      assert k <= |r|;
      assert forall j | 0 <= j < k :: r[j] == s[j];
      BracesSkip(r, k, d);
    } else if lvl == 0 && s[0] == '\\' {
      assert r[1..][1..] == r[2..];
    }
  }

  /** Text that closes all its braces, the last character being one, ends at a
      boundary at the outer level, however its inner tokens are read. */
  lemma {:induction false} ClosedTextEnds(cc: CharClasses, r: string, q: string, d: nat, lvl: nat)
    requires cc.Valid() && Braces(r, d) == Some(0) && lvl <= d
    requires r != "" ==> r[|r| - 1] == '}'
    ensures |Emit(cc, r + q, lvl)| >= |Emit(cc, q, 0)|
    decreases |r|
  {
    if r == "" {
      assert r + q == q;
      assert lvl == 0;
      hide *;
    } else {
      hide *;
      var s := r + q;
      var k := TokenLen(cc, s, lvl);
      ClosedToken(cc, r, q, d, lvl);
      ShiftedStays(r, q, k);
      EmitToken(cc, s, lvl, r[k..] + q);
      LastOfRest(r, k);
      ClosedTextEnds(cc, r[k..], q, DepthAfter(r, k, d), NextLevel(cc, s, lvl));
    }
  }

  lemma GroupDelimits(cc: CharClasses, head: string, body: string, q: string)
    requires IsSkipHead(cc, head, body)
    ensures IsDelimiter(Group(head, body) + q)
  {
  }

  /** The same text comes before a boundary whatever delimiter follows it. */
  lemma EmitBefore(cc: CharClasses, p: string, q: string, q': string)
    requires cc.Valid() && IsDelimiter(q') && StopAt(cc, p + q, |p|, 0, false) == Boundary(0, false)
    ensures var t := TextUpTo(cc, p + q, |p|, 0);
            Emit(cc, p + q, 0) == t + Emit(cc, q, 0) && Emit(cc, p + q', 0) == t + Emit(cc, q', 0)
  {
    hide *;
    PrefixStays(cc, p, q, q', 0, false);
    EmitSplits(cc, p + q, |p|, 0, false);
    EmitSplits(cc, p + q', |p|, 0, false);
    assert (p + q)[|p|..] == q && (p + q')[|p|..] == q';
  }

  lemma GroupErased(cc: CharClasses, p: string, q: string, head: string, body: string)
    requires cc.Valid() && IsSkipHead(cc, head, body) && Balanced(body)
    requires StopAt(cc, p + q, |p|, 0, false) == Boundary(0, false)
    ensures Emit(cc, p + (Group(head, body) + q), 0) == Emit(cc, p + q, 0)
  {
    GroupDelimits(cc, head, body, q);
    hide *;
    var q' := Group(head, body) + q;
    GroupIsWorthNothing(cc, head, body, q);
    EmitBefore(cc, p, q, q');
  }

  /** The document around a backslash, without and with the group after it. */
  lemma BackslashParts(p: string, q: string, g: string)
    requires p != "" && p[|p| - 1] == '\\' && |g| >= 2 && g[0] == '{'
    ensures var p0 := p[..|p| - 1]; var q' := "\\" + (g + q);
            && p + q == p0 + ("\\" + q)
            && p + (g + q) == p0 + q'
            && q' == "\\{" + (g[1..] + q)
            && IsDelimiter(q')
  {
    assert p == p[..|p| - 1] + "\\";
  }

  lemma LoneBackslashAt(cc: CharClasses, p: string, q: string)
    requires p != "" && IsLoneBackslash(cc, (p + q)[|p| - 1..], 0)
    ensures p[|p| - 1] == '\\' && IsLoneBackslash(cc, "\\" + q, 0)
  {
    assert (p + q)[|p| - 1..][0] == p[|p| - 1];
    assert (p + q)[|p| - 1..] == "\\" + q;
  }

  lemma EmptyPrefix(cc: CharClasses, p: string, q: string)
    requires StopAt(cc, p + q, |p|, 0, false) == Boundary(0, true)
    ensures p != ""
  {
  }

  lemma BackslashThen(cc: CharClasses, p0: string, q: string, g: string)
    requires cc.Valid() && |g| >= 2 && g[0] == '{' && g[|g| - 1] == '}' && Braces(g[1..], 1) == Some(0)
    requires IsDelimiter("\\" + (g + q)) && "\\" + (g + q) == "\\{" + (g[1..] + q)
    requires StopAt(cc, p0 + ("\\" + q), |p0|, 0, false) == Boundary(0, false) && IsLoneBackslash(cc, "\\" + q, 0)
    ensures |Emit(cc, p0 + ("\\" + (g + q)), 0)| > |Emit(cc, p0 + ("\\" + q), 0)|
  {
    hide *;
    var q1, q1' := "\\" + q, "\\" + (g + q);
    EmitBefore(cc, p0, q1, q1');
    LoneBackslashIsSilent(cc, q);
    EscapedBrace(cc, g[1..] + q);
    LastOfRest(g, 1);
    ClosedTextEnds(cc, g[1..], q, 1, 0);
  }

  lemma {:induction false} BracesAppend(a: string, b: string, d: nat)
    requires Braces(a, d).Some?
    ensures Braces(a + b, d) == Braces(b, Braces(a, d).value)
    decreases |a|
  {
    if a == "" {
      assert a + b == b;
    } else {
      assert (a + b)[1..] == a[1..] + b;
      BracesAppend(a[1..], b, if a[0] == '{' then d + 1 else if a[0] == '}' then d - 1 else d);
    }
  }

  lemma {:induction false} BracesDeeper(a: string, d: nat, extra: nat)
    requires Braces(a, d).Some?
    ensures Braces(a, d + extra) == Some(Braces(a, d).value + extra)
    decreases |a|
  {
    if a != "" {
      BracesDeeper(a[1..], if a[0] == '{' then d + 1 else if a[0] == '}' then d - 1 else d, extra);
    }
  }

  /** Without its first brace, a skipped group closes one brace more than it opens. */
  lemma GroupTail(head: string, body: string)
    requires head != "" && head[0] == '{' && Braces(head[1..], 0) == Some(0) && Balanced(body)
    ensures var g := Group(head, body);
            g[0] == '{' && |g| >= 2 && g[|g| - 1] == '}' && Braces(g[1..], 1) == Some(0)
  {
    var g := Group(head, body);
    assert g[1..] == head[1..] + (body + "}");
    BracesDeeper(head[1..], 0, 1);
    BracesDeeper(body, 0, 1);
    BracesAppend(body, "}", 1);
    BracesAppend(head[1..], body + "}", 1);
  }

  lemma GroupAfterBackslash(cc: CharClasses, p: string, q: string, head: string, body: string)
    requires cc.Valid() && IsSkipHead(cc, head, body) && Balanced(body)
    requires StopAt(cc, p + q, |p|, 0, false) == Boundary(0, true)
    ensures |Emit(cc, p + (Group(head, body) + q), 0)| > |Emit(cc, p + q, 0)|
  {
    EmptyPrefix(cc, p, q);
    hide *;
    BeforeBackslash(cc, p + q, |p|, 0, false);
    LoneBackslashAt(cc, p, q);
    HeadHasNoOtherBraces(cc, head, body);
    GroupTail(head, body);
    var g := Group(head, body);
    BackslashParts(p, q, g);
    BackslashThen(cc, p[..|p| - 1], q, g);
  }

  /** Insertion of a skipped group between tokens, outside skipped groups: the text
      of the document stays the same if and only if the token before the place of
      insertion is not a lone backslash, which would escape the group's brace. */
  lemma GroupErasedExactly(cc: CharClasses, p: string, q: string, head: string, body: string)
    requires cc.Valid() && IsSkipHead(cc, head, body) && Balanced(body)
    requires StopAt(cc, p + q, |p|, 0, false).Boundary? && StopAt(cc, p + q, |p|, 0, false).lvl == 0
    ensures Emit(cc, p + (Group(head, body) + q), 0) == Emit(cc, p + q, 0)
            <==> !StopAt(cc, p + q, |p|, 0, false).afterBackslash
  {
    if StopAt(cc, p + q, |p|, 0, false).afterBackslash {
      GroupAfterBackslash(cc, p, q, head, body);
    } else {
      GroupErased(cc, p, q, head, body);
    }
    hide Emit;
    hide StopAt;
  }

  lemma LoneBackslash(cc: CharClasses)
    ensures StopAt(cc, "\\" + "", |"\\"|, 0, false) == Boundary(0, true)
  {
    var s := "\\" + "";
    assert s == "\\" && s[1..] == "";
    assert TokenLen(cc, s, 0) == 1 && IsLoneBackslash(cc, s, 0);
  }

  lemma EmptyIsBalanced(cc: CharClasses)
    ensures IsSkipHead(cc, "{\\*", "") && Balanced("")
  {
  }

  /** A group that shows: one right after a lone backslash. */
  lemma GroupThatShows(cc: CharClasses)
    requires cc.Valid()
    ensures StopAt(cc, "\\" + "", 1, 0, false) == Boundary(0, true)
    ensures Emit(cc, "\\" + (Group("{\\*", "") + ""), 0) != Emit(cc, "\\" + "", 0)
  {
    LoneBackslash(cc);
    hide *;
    EmptyIsBalanced(cc);
    GroupErasedExactly(cc, "\\", "", "{\\*", "");
  }
}
