/** What the scanner does to documents: text survives being written as RTF, and
    skipped groups leave no trace. */
module RtfDocuments {
  import opened Options
  import opened PyText
  import opened RtfStripper

  // ----- Tokens -----

  lemma EmitToken(cc: CharClasses, s: string, lvl: nat, rest: string)
    requires s != "" && s[TokenLen(cc, s, lvl)..] == rest
    ensures Emit(cc, s, lvl) == TokenText(cc, s, lvl) + Emit(cc, rest, NextLevel(cc, s, lvl))
  {
  }

  lemma ParamRunIs(cc: CharClasses, s: string, k: nat)
    requires k <= |s| && (k < |s| ==> !IsParam(cc, s[k]))
    requires forall j | 0 <= j < k :: IsParam(cc, s[j])
    ensures ParamRun(cc, s) == k
  {
  }

  predicate IsControl(cc: CharClasses, word: string, param: string, gap: string, rest: string) {
    && (forall j | 0 <= j < |word| :: cc.isAlpha(word[j]))
    && (forall j | 0 <= j < |param| :: cc.isDigit(param[j]) || param[j] == '-')
    && (gap == " " || (gap == "" && (rest != "" ==> rest[0] != ' ' && !cc.isDigit(rest[0]) && rest[0] != '-')))
    && (param != "" ==> !cc.isAlpha(param[0]))
    && (param + gap == "" && rest != "" ==> !cc.isAlpha(rest[0]))
    && (word + param + gap == "" && rest != "" ==> rest[0] !in "\\{}")
  }

  lemma ControlIsNoEscape(cc: CharClasses, word: string, param: string, gap: string, rest: string)
    requires cc.Valid() && IsControl(cc, word, param, gap, rest)
    ensures !IsEscape("\\" + word + param + gap + rest)
  {
    var s := "\\" + word + param + gap + rest;
    if |s| > 1 {
      assert s[1] == if word != "" then word[0] else if param != "" then param[0]
                     else if gap != "" then ' ' else rest[0];
    }
  }

  lemma LettersThen(cc: CharClasses, word: string, behind: string)
    requires (forall j | 0 <= j < |word| :: cc.isAlpha(word[j])) && (behind != "" ==> !cc.isAlpha(behind[0]))
    ensures AlphaRun(cc, word + behind) == |word|
  {
    AlphaRunIs(cc, word + behind, |word|);
  }

  lemma ParamThen(cc: CharClasses, param: string, behind: string)
    requires (forall j | 0 <= j < |param| :: IsParam(cc, param[j])) && (behind != "" ==> !IsParam(cc, behind[0]))
    ensures ParamRun(cc, param + behind) == |param|
  {
    ParamRunIs(cc, param + behind, |param|);
  }

  lemma ControlSlices(word: string, param: string, gap: string, rest: string)
    ensures var s := "\\" + word + param + gap + rest;
            && s[1..] == word + (param + (gap + rest)) && s[1 + |word|..] == param + (gap + rest)
            && s[1 + |word| + |param|..] == gap + rest && s[1..][..|word|] == word
  {
  }

  /** The parts of a control word as the scans find them. */
  lemma ControlParts(cc: CharClasses, word: string, param: string, gap: string, rest: string)
    requires cc.Valid() && IsControl(cc, word, param, gap, rest)
    ensures var s := "\\" + word + param + gap + rest; var a, b := 1 + |word|, 1 + |word| + |param|;
            && AlphaRun(cc, s[1..]) == |word| && ParamRun(cc, s[a..]) == |param|
            && s[1..][..|word|] == word && s[b..] == gap + rest
  {
    hide AlphaRun;
    hide ParamRun;
    ControlSlices(word, param, gap, rest);
    var last := gap + rest;
    assert last != "" ==> last[0] == if gap != "" then ' ' else rest[0];
    assert param + last != "" ==> (param + last)[0] == if param != "" then param[0] else last[0];
    LettersThen(cc, word, param + last);
    ParamThen(cc, param, last);
  }

  lemma ControlToken(cc: CharClasses, word: string, param: string, gap: string, rest: string)
    requires cc.Valid() && IsControl(cc, word, param, gap, rest)
    ensures var s := "\\" + word + param + gap + rest;
            ControlLen(cc, s) == |s| - |rest| && ControlWord(cc, s) == word
  {
    ControlParts(cc, word, param, gap, rest);
    hide AlphaRun;
    hide ParamRun;
    var s, b := "\\" + word + param + gap + rest, 1 + |word| + |param|;
    assert b < |s| ==> s[b] == s[b..][0];
  }

  /** A control word is worth a line break or nothing, and takes its parameter and one
      space with it. */
  lemma ControlIsWorth(cc: CharClasses, word: string, param: string, gap: string, rest: string)
    requires cc.Valid() && IsControl(cc, word, param, gap, rest)
    ensures Emit(cc, "\\" + word + param + gap + rest, 0) ==
            (if word == "par" || word == "line" then "\n" else "") + Emit(cc, rest, 0)
  {
    var s := "\\" + word + param + gap + rest;
    ControlToken(cc, word, param, gap, rest);
    ControlIsNoEscape(cc, word, param, gap, rest);
    assert s[0] == '\\' && s[|s| - |rest|..] == rest;
    hide *;
    TokenCases(cc, s, 0);
    EmitToken(cc, s, 0, rest);
  }

  lemma PlainIsWorth(cc: CharClasses, c: char, rest: string)
    requires c !in "\\{"
    ensures Emit(cc, [c] + rest, 0) == (if c in "}\r\n" then "" else [c]) + Emit(cc, rest, 0)
  {
    EmitToken(cc, [c] + rest, 0, rest);
    hide Emit;
  }

  lemma EscapeIsWorth(cc: CharClasses, c: char, rest: string)
    requires c in "\\{}"
    ensures Emit(cc, ['\\', c] + rest, 0) == [c] + Emit(cc, rest, 0)
  {
    EmitToken(cc, ['\\', c] + rest, 0, rest);
    hide Emit;
  }

  /** What a single character is worth at the outer level, and behind a backslash. */
  lemma CharacterIsWorth(cc: CharClasses, c: char, rest: string)
    ensures c !in "\\{}\r\n" ==> Emit(cc, [c] + rest, 0) == [c] + Emit(cc, rest, 0)
    ensures c in "}\r\n" ==> Emit(cc, [c] + rest, 0) == Emit(cc, rest, 0)
    ensures c in "\\{}" ==> Emit(cc, ['\\', c] + rest, 0) == [c] + Emit(cc, rest, 0)
  {
    hide Emit;
    if c !in "\\{" {
      PlainIsWorth(cc, c, rest);
    }
    if c in "\\{}" {
      EscapeIsWorth(cc, c, rest);
    }
  }

  // ----- Round trip -----

  function EscapeChar(c: char): string {
    if IsStructural(c) then ['\\', c]
    else if c == '\n' then "\\par "
    else [c]
  }

  function EscapeText(text: string): string {
    if text == "" then "" else EscapeChar(text[0]) + EscapeText(text[1..])
  }

  /** Plain text as an RTF document. */
  function Encode(text: string): string {
    "{\\rtf1 " + EscapeText(text) + "}"
  }

  function WithoutReturns(text: string): string {
    if text == "" then ""
    else (if text[0] == '\r' then "" else [text[0]]) + WithoutReturns(text[1..])
  }

  lemma ParagraphToken(cc: CharClasses, rest: string)
    requires cc.Valid()
    ensures Emit(cc, "\\par " + rest, 0) == "\n" + Emit(cc, rest, 0)
  {
    hide Emit;
    ControlIsWorth(cc, "par", "", " ", rest);
    assert "\\" + "par" + "" + " " + rest == "\\par " + rest;
  }

  lemma EscapedCharToken(cc: CharClasses, c: char, rest: string)
    requires cc.Valid()
    ensures Emit(cc, EscapeChar(c) + rest, 0) == (if c == '\r' then "" else [c]) + Emit(cc, rest, 0)
  {
    hide Emit;
    if c == '\n' {
      ParagraphToken(cc, rest);
    } else {
      CharacterIsWorth(cc, c, rest);
    }
  }

  lemma {:induction false} EscapedText(cc: CharClasses, text: string, rest: string)
    requires cc.Valid()
    ensures Emit(cc, EscapeText(text) + rest, 0) == WithoutReturns(text) + Emit(cc, rest, 0)
  {
    hide Emit;
    if text == "" {
      assert EscapeText(text) + rest == rest;
    } else {
      var tail := EscapeText(text[1..]) + rest;
      assert EscapeText(text) + rest == EscapeChar(text[0]) + tail;
      EscapedCharToken(cc, text[0], tail);
      EscapedText(cc, text[1..], rest);
    }
  }

  lemma RtfWordToken(cc: CharClasses, rest: string)
    requires cc.Valid()
    ensures Emit(cc, "\\rtf1 " + rest, 0) == Emit(cc, rest, 0)
  {
    hide Emit;
    ControlIsWorth(cc, "rtf", "1", " ", rest);
    assert "\\" + "rtf" + "1" + " " + rest == "\\rtf1 " + rest;
  }

  lemma HeaderTokens(cc: CharClasses, rest: string)
    requires cc.Valid()
    ensures Emit(cc, "{\\rtf1 " + rest, 0) == Emit(cc, rest, 0)
  {
    var s := "{\\rtf1 " + rest;
    assert s[1..] == "\\rtf1 " + rest;
    AlphaRunIs(cc, s[2..], 3);
    assert s[2..][..3] == "rtf";
    assert !OpensSkip(cc, s);
    hide OpensSkip;
    hide AlphaRun;
    EmitToken(cc, s, 0, s[1..]);
    hide Emit;
    RtfWordToken(cc, rest);
  }

  lemma {:induction false} ReturnsAreAllThatIsLost(text: string)
    ensures WithoutReturns(text) == text <==> '\r' !in text
    ensures |WithoutReturns(text)| <= |text|
  {
    if text != "" {
      ReturnsAreAllThatIsLost(text[1..]);
      assert text == [text[0]] + text[1..];
      assert '\r' in text <==> text[0] == '\r' || '\r' in text[1..];
      if text[0] != '\r' {
        assert WithoutReturns(text)[1..] == WithoutReturns(text[1..]);
      }
    }
  }

  /** Round trip: text written as RTF is read back as it was, trimmed, except that
      carriage returns are lost; so it comes back untrimmed exactly when it has none. */
  lemma RoundTrip(cc: CharClasses, text: string)
    requires cc.Valid()
    ensures Emit(cc, Encode(text), 0) == WithoutReturns(text)
    ensures Emit(cc, Encode(text), 0) == text <==> '\r' !in text
    ensures Strip(cc, Encode(text)) == Trim(cc, WithoutReturns(text))
  {
    HeaderTokens(cc, EscapeText(text) + "}");
    assert Encode(text) == "{\\rtf1 " + (EscapeText(text) + "}");
    EscapedText(cc, text, "}");
    assert Emit(cc, "}", 0) == "";
    ReturnsAreAllThatIsLost(text);
  }

  // ----- Skipped groups -----

  /** The brace depth after a string, starting from `d`; none if it goes below 0. */
  function Braces(s: string, d: nat): Option<nat> {
    if s == "" then Some(d)
    else if s[0] == '{' then Braces(s[1..], d + 1)
    else if s[0] == '}' then (if d == 0 then None else Braces(s[1..], d - 1))
    else Braces(s[1..], d)
  }

  predicate Balanced(s: string) {
    Braces(s, 0) == Some(0)
  }

  /** A whole skipped group. */
  function Group(head: string, body: string): string {
    head + body + "}"
  }

  lemma SkippedToken(cc: CharClasses, c: char, rest: string, lvl: nat)
    requires lvl > 0
    ensures Emit(cc, [c] + rest, lvl) ==
            Emit(cc, rest, if c == '{' then lvl + 1 else if c == '}' then lvl - 1 else lvl)
  {
    EmitToken(cc, [c] + rest, lvl, rest);
  }

  /** Inside a skipped group only braces matter. */
  lemma {:induction false} EmitSkipped(cc: CharClasses, x: string, rest: string, d: nat)
    requires Braces(x, d).Some?
    ensures Emit(cc, x + rest, d + 1) == Emit(cc, rest, Braces(x, d).value + 1)
    decreases |x|
  {
    hide Emit;
    if x == "" {
      assert x + rest == rest;
    } else {
      assert x + rest == [x[0]] + (x[1..] + rest);
      SkippedToken(cc, x[0], x[1..] + rest, d + 1);
      EmitSkipped(cc, x[1..], rest, if x[0] == '{' then d + 1 else if x[0] == '}' then d - 1 else d);
    }
  }

  lemma HeadOpensSkip(cc: CharClasses, head: string, body: string, rest: string)
    requires cc.Valid() && IsSkipHead(cc, head, body)
    ensures OpensSkip(cc, Group(head, body) + rest)
  {
    var s := Group(head, body) + rest;
    assert s[..|head|] == head && s[|head|..] == body + "}" + rest;
    assert (body + "}" + rest)[0] == if body != "" then body[0] else '}';
    SkipHeadOpens(cc, s, |head|);
  }

  lemma {:induction false} NoBraces(x: string, d: nat)
    requires forall j | 0 <= j < |x| :: x[j] != '{' && x[j] != '}'
    ensures Braces(x, d) == Some(d)
  {
    if x != "" {
      NoBraces(x[1..], d);
    }
  }

  lemma HeadHasNoOtherBraces(cc: CharClasses, head: string, body: string)
    requires cc.Valid() && IsSkipHead(cc, head, body)
    ensures head[0] == '{' && Braces(head[1..], 0) == Some(0)
  {
    if head != "{\\*" {
      SkipHeadIsWord(cc, head, body);
      SkippedWordsAreLetters(cc, head[2..]);
      hide IsSkippedWord;
      assert forall j | 1 <= j < |head| - 1 :: head[1..][j] == head[2..][j - 1];
    }
    NoBraces(head[1..], 0);
  }

  lemma OpenAndClose(cc: CharClasses, x: string, rest: string)
    ensures OpensSkip(cc, "{" + x) ==> Emit(cc, "{" + x, 0) == Emit(cc, x, 1)
    ensures Emit(cc, "}" + rest, 1) == Emit(cc, rest, 0)
  {
    EmitToken(cc, "{" + x, 0, x);
    EmitToken(cc, "}" + rest, 1, rest);
    hide Emit;
  }

  lemma GroupParts(head: string, body: string, rest: string)
    requires head != "" && head[0] == '{'
    ensures Group(head, body) + rest == "{" + (head[1..] + (body + ("}" + rest)))
  {
    assert head == "{" + head[1..];
    assert Group(head, body) + rest == head + (body + ("}" + rest));
  }

  lemma GroupBody(cc: CharClasses, h: string, body: string, tail: string)
    requires Braces(h, 0) == Some(0) && Balanced(body)
    ensures Emit(cc, h + (body + tail), 1) == Emit(cc, tail, 1)
  {
    EmitSkipped(cc, h, body + tail, 0);
    EmitSkipped(cc, body, tail, 0);
    hide Emit;
    hide Braces;
  }

  /** At the scanner's outer level a skipped group is worth nothing. */
  lemma GroupIsWorthNothing(cc: CharClasses, head: string, body: string, rest: string)
    requires cc.Valid() && IsSkipHead(cc, head, body) && Balanced(body)
    ensures Emit(cc, Group(head, body) + rest, 0) == Emit(cc, rest, 0)
  {
    HeadOpensSkip(cc, head, body, rest);
    HeadHasNoOtherBraces(cc, head, body);
    GroupParts(head, body, rest);
    hide *;
    var h := head[1..];
    var tail := "}" + rest;
    OpenAndClose(cc, h + (body + tail), rest);
    GroupBody(cc, h, body, tail);
  }
}
