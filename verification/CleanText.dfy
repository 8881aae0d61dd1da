/** Display text of a control: font tag or RTF wrapper removed, accelerators resolved. */
module CleanText {
  import opened Options
  import opened PyText
  import opened RtfStripper
  import opened RtfDocuments

  /** `&x` shows `x` (so `&&` shows `&`); a final `&` shows nothing. */
  function StripAmps(s: string): (r: string)
    ensures |r| <= |s|
  {
    if s == "" then ""
    else if s[0] != '&' then [s[0]] + StripAmps(s[1..])
    else if |s| >= 2 then [s[1]] + StripAmps(s[2..])
    else ""
  }

  predicate StartsNewline(s: string) {
    |s| >= 2 && s[0] == '\\' && s[1] == 'n'
  }

  /** `replace("\\n", newline)`: the two-character sequence becomes a line feed. */
  function ReplaceNewlines(s: string): string {
    if s == "" then ""
    else if StartsNewline(s) then "\n" + ReplaceNewlines(s[2..])
    else [s[0]] + ReplaceNewlines(s[1..])
  }

  /** `find("}")`. */
  function FindClose(s: string): (r: Option<nat>)
    ensures r.Some? ==> r.value < |s| && s[r.value] == '}' && forall j | 0 <= j < r.value :: s[j] != '}'
    ensures r.None? ==> '}' !in s
  {
    if s == "" then None
    else if s[0] == '}' then Some(0)
    else match FindClose(s[1..])
         case None => None
         case Some(k) => Some(k + 1)
  }

  /** Text that is not an RTF document, its leading font tag removed. */
  function WithoutFontTag(cc: CharClasses, stripped: string): string {
    var text := Trim(cc, ReplaceNewlines(stripped));
    if "{\\" <= text then
      match FindClose(text)
      case Some(k) => Trim(cc, text[k + 1..])
      case None => text
    else text
  }

  function Clean(cc: CharClasses, raw: string): string {
    var stripped := Trim(cc, raw);
    StripAmps(if "{\\rtf" <= stripped then Strip(cc, stripped) else WithoutFontTag(cc, stripped))
  }

  lemma StripAmpsStep(text: string, i: nat)
    requires i < |text|
    ensures var s := text[i..];
            StripAmps(s) ==
            if s[0] != '&' then [s[0]] + StripAmps(text[i + 1..])
            else if i + 1 < |text| then [text[i + 1]] + StripAmps(text[i + 2..])
            else ""
  {
    var s := text[i..];
    assert s[1..] == text[i + 1..];
    assert i + 1 < |text| ==> s[2..] == text[i + 2..];
  }

  lemma StripAmpsOfNothing()
    ensures StripAmps("") == ""
  {
  }

  /** The accelerator loop. */
  method StripAccelerators(text: string) returns (out: string)
    ensures out == StripAmps(text)
  {
    hide StripAmps;
    out := "";
    var i := 0;
    assert text[0..] == text;
    while i < |text|
      invariant 0 <= i <= |text|
      invariant out + StripAmps(text[i..]) == StripAmps(text)
      decreases |text| - i
    {
      StripAmpsStep(text, i);
      if text[i] == '&' {
        if i + 1 < |text| {
          assert out + StripAmps(text[i..]) == (out + [text[i + 1]]) + StripAmps(text[i + 2..]);
          out := out + [text[i + 1]];
          i := i + 2;
        } else {
          i := i + 1;
          StripAmpsOfNothing();
        }
      } else {
        assert out + StripAmps(text[i..]) == (out + [text[i]]) + StripAmps(text[i + 1..]);
        out := out + [text[i]];
        i := i + 1;
      }
    }
    assert text[i..] == "";
    StripAmpsOfNothing();
    assert out + "" == out;
  }

  method CleanMsiText(cc: CharClasses, raw: string) returns (r: string)
    ensures r == Clean(cc, raw)
  {
    var stripped := Trim(cc, raw);
    var text;
    if "{\\rtf" <= stripped {
      text := StripRtfText(cc, stripped);
    } else {
      text := Trim(cc, ReplaceNewlines(stripped));
      if "{\\" <= text {
        var end := FindClose(text);
        if end.Some? {
          text := Trim(cc, text[end.value + 1..]);
        }
      }
    }
    r := StripAccelerators(text);
  }

  // ----- Accelerators -----

  /** A label that shows as the given text. */
  function EscapeAmps(text: string): string {
    if text == "" then "" else (if text[0] == '&' then "&&" else [text[0]]) + EscapeAmps(text[1..])
  }

  lemma {:induction false} AmpsRoundTrip(text: string)
    ensures StripAmps(EscapeAmps(text)) == text
  {
    if text != "" {
      var rest := EscapeAmps(text[1..]);
      AmpsRoundTrip(text[1..]);
      if text[0] == '&' {
        assert ("&&" + rest)[2..] == rest;
      } else {
        assert ([text[0]] + rest)[1..] == rest;
      }
    }
  }

  /** A label that shows as the given text: an ampersand in front of each character that is
      one, and of any others. */
  function Marked(text: string, marks: seq<bool>): string
    requires |marks| == |text|
  {
    if text == "" then ""
    else (if marks[0] || text[0] == '&' then ['&', text[0]] else [text[0]]) + Marked(text[1..], marks[1..])
  }

  /** Whatever characters of a text are marked, the marks vanish and the text shows, and an
      ampersand at the end marks nothing. */
  lemma {:induction false} MarksVanish(text: string, marks: seq<bool>)
    requires |marks| == |text|
    ensures StripAmps(Marked(text, marks)) == text
    ensures StripAmps(Marked(text, marks) + "&") == text
  {
    if text != "" {
      MarksVanish(text[1..], marks[1..]);
      var rest := Marked(text[1..], marks[1..]);
      var first := if marks[0] || text[0] == '&' then ['&', text[0]] else [text[0]];
      assert (first + rest)[|first|..] == rest;
      assert (first + (rest + "&"))[|first|..] == rest + "&";
      assert (first + rest) + "&" == first + (rest + "&");
      assert text == [text[0]] + text[1..];
    }
  }

  /** Every label is a text with marks, with or without an ampersand at the end. */
  lemma {:induction false} EveryLabelIsMarked(s: string) returns (text: string, marks: seq<bool>, trailing: bool)
    ensures |marks| == |text| && s == Marked(text, marks) + if trailing then "&" else ""
    decreases |s|
  {
    text, marks, trailing := "", [], false;
    if s == "&" {
      trailing := true;
    } else if s != "" {
      var n := if s[0] == '&' then 2 else 1;
      text, marks, trailing := EveryLabelIsMarked(s[n..]);
      var rest := Marked(text, marks);
      var text', marks' := [s[n - 1]] + text, [n == 2] + marks;
      assert text'[1..] == text && marks'[1..] == marks;
      assert s == s[..n] + s[n..];
      text, marks := text', marks';
    }
  }

  /** Accelerator stripping changes exactly the texts that contain an ampersand. */
  lemma {:induction false} AmpsFixedExactly(s: string)
    ensures StripAmps(s) == s <==> '&' !in s
  {
    if s != "" {
      if s[0] != '&' {
        AmpsFixedExactly(s[1..]);
        assert s == [s[0]] + s[1..];
        assert StripAmps(s)[1..] == StripAmps(s[1..]);
      }
    }
  }

  lemma {:induction false} EscapeAmpsAppend(a: string, b: string)
    ensures EscapeAmps(a + b) == EscapeAmps(a) + EscapeAmps(b)
    decreases |a|
  {
    if a == "" {
      assert a + b == b;
    } else {
      assert (a + b)[1..] == a[1..] + b;
      EscapeAmpsAppend(a[1..], b);
    }
  }

  // ----- Trimming -----

  ghost predicate Blank(cc: CharClasses, s: string) {
    forall j | 0 <= j < |s| :: cc.isSpace(s[j])
  }

  lemma {:induction false} TrimLeftIs(cc: CharClasses, a: string, m: string)
    requires Blank(cc, a) && (m != "" ==> !cc.isSpace(m[0]))
    ensures TrimLeft(cc, a + m) == m
    decreases |a|
  {
    if a == "" {
      assert a + m == m;
    } else {
      assert (a + m)[1..] == a[1..] + m;
      TrimLeftIs(cc, a[1..], m);
    }
  }

  lemma {:induction false} TrimRightIs(cc: CharClasses, m: string, b: string)
    requires Blank(cc, b) && (m != "" ==> !cc.isSpace(m[|m| - 1]))
    ensures TrimRight(cc, m + b) == m
    decreases |b|
  {
    if b == "" {
      assert m + b == m;
    } else {
      assert (m + b)[..|m + b| - 1] == m + b[..|b| - 1];
      TrimRightIs(cc, m, b[..|b| - 1]);
    }
  }

  ghost predicate Tight(cc: CharClasses, m: string) {
    m != "" ==> !cc.isSpace(m[0]) && !cc.isSpace(m[|m| - 1])
  }

  /** Trimming takes off the blanks around the part that starts and ends without one. */
  lemma TrimIs(cc: CharClasses, a: string, m: string, b: string)
    requires Blank(cc, a) && Blank(cc, b) && Tight(cc, m)
    ensures Trim(cc, a + m + b) == m
  {
    if m == "" {
      assert a + m + b == (a + b) + "";
      TrimLeftIs(cc, a + b, "");
    } else {
      assert a + m + b == a + (m + b);
      TrimLeftIs(cc, a, m + b);
      TrimRightIs(cc, m, b);
    }
  }

  lemma {:induction false} TrimLeftSplits(cc: CharClasses, s: string) returns (a: string)
    ensures s == a + TrimLeft(cc, s) && Blank(cc, a)
    ensures TrimLeft(cc, s) != "" ==> !cc.isSpace(TrimLeft(cc, s)[0])
    decreases |s|
  {
    if s != "" && cc.isSpace(s[0]) {
      a := TrimLeftSplits(cc, s[1..]);
      a := [s[0]] + a;
    } else {
      a := "";
    }
  }

  lemma {:induction false} TrimRightSplits(cc: CharClasses, s: string) returns (b: string)
    ensures s == TrimRight(cc, s) + b && Blank(cc, b)
    ensures TrimRight(cc, s) != "" ==> !cc.isSpace(TrimRight(cc, s)[|TrimRight(cc, s)| - 1])
    decreases |s|
  {
    if s != "" && cc.isSpace(s[|s| - 1]) {
      b := TrimRightSplits(cc, s[..|s| - 1]);
      b := b + [s[|s| - 1]];
      assert s == s[..|s| - 1] + [s[|s| - 1]];
    } else {
      b := "";
    }
  }

  lemma TrimSplits(cc: CharClasses, s: string) returns (a: string, b: string)
    ensures s == a + Trim(cc, s) + b && Blank(cc, a) && Blank(cc, b) && Tight(cc, Trim(cc, s))
  {
    a := TrimLeftSplits(cc, s);
    b := TrimRightSplits(cc, TrimLeft(cc, s));
    var m := Trim(cc, s);
    assert m != "" ==> m[0] == TrimLeft(cc, s)[0];
    hide TrimLeft;
    hide TrimRight;
  }

  // ----- Labels survive -----

  lemma {:induction false} EscapeAmpsBlank(cc: CharClasses, s: string)
    requires cc.Valid() && Blank(cc, s)
    ensures EscapeAmps(s) == s
  {
    if s != "" {
      EscapeAmpsBlank(cc, s[1..]);
      assert s == [s[0]] + s[1..];
    }
  }

  lemma EscapeAmpsTight(cc: CharClasses, m: string)
    requires cc.Valid() && Tight(cc, m)
    ensures Tight(cc, EscapeAmps(m))
  {
    if m != "" {
      var init := m[..|m| - 1];
      var last := [m[|m| - 1]];
      assert m == init + last;
      EscapeAmpsAppend(init, last);
      assert EscapeAmps(last) == if last[0] == '&' then "&&" else last;
    }
  }

  lemma TrimCommutesWithEscape(cc: CharClasses, s: string)
    requires cc.Valid()
    ensures Trim(cc, EscapeAmps(s)) == EscapeAmps(Trim(cc, s))
  {
    var a, b := TrimSplits(cc, s);
    var m := Trim(cc, s);
    EscapeAmpsAppend(a + m, b);
    EscapeAmpsAppend(a, m);
    EscapeAmpsBlank(cc, a);
    EscapeAmpsBlank(cc, b);
    EscapeAmpsTight(cc, m);
    hide *;
    TrimIs(cc, a, EscapeAmps(m), b);
  }

  lemma {:induction false} ReturnsCommuteWithEscape(s: string)
    ensures WithoutReturns(EscapeAmps(s)) == EscapeAmps(WithoutReturns(s))
  {
    if s != "" {
      ReturnsCommuteWithEscape(s[1..]);
      var rest := EscapeAmps(s[1..]);
      if s[0] == '&' {
        assert ("&&" + rest)[1..] == "&" + rest;
        assert ("&" + rest)[1..] == rest;
        assert EscapeAmps(s) == "&&" + rest;
        assert WithoutReturns("&" + rest) == "&" + WithoutReturns(rest);
        assert WithoutReturns("&&" + rest) == "&" + WithoutReturns("&" + rest);
        assert (['&'] + WithoutReturns(s[1..]))[1..] == WithoutReturns(s[1..]);
      } else if s[0] == '\r' {
        assert EscapeAmps(s) == "\r" + rest;
        assert ("\r" + rest)[1..] == rest;
        assert WithoutReturns(s) == WithoutReturns(s[1..]);
      } else {
        assert EscapeAmps(s) == [s[0]] + rest;
        assert ([s[0]] + rest)[1..] == rest;
        assert ([s[0]] + WithoutReturns(s[1..]))[1..] == WithoutReturns(s[1..]);
      }
    }
  }

  lemma EncodedIsTight(cc: CharClasses, text: string)
    requires cc.Valid()
    ensures Trim(cc, Encode(text)) == Encode(text) && "{\\rtf" <= Encode(text)
  {
    var e := Encode(text);
    assert Tight(cc, e);
    TrimIs(cc, "", e, "");
    assert "" + e + "" == e;
  }

  /** End to end: a label whose ampersands are doubled and which is written as an
      RTF document is displayed as it was, trimmed and without carriage returns. */
  lemma RtfLabelRoundTrip(cc: CharClasses, caption: string)
    requires cc.Valid()
    ensures Clean(cc, Encode(EscapeAmps(caption))) == Trim(cc, WithoutReturns(caption))
  {
    EncodedIsTight(cc, EscapeAmps(caption));
    RoundTrip(cc, EscapeAmps(caption));
    ReturnsCommuteWithEscape(caption);
    TrimCommutesWithEscape(cc, WithoutReturns(caption));
    AmpsRoundTrip(Trim(cc, WithoutReturns(caption)));
    hide Trim;
    hide Encode;
    hide EscapeAmps;
    hide Emit;
  }

  lemma {:induction false} NothingToReplace(s: string)
    requires '\\' !in s
    ensures ReplaceNewlines(s) == s
  {
    if s != "" {
      NothingToReplace(s[1..]);
      assert s == [s[0]] + s[1..];
    }
  }

  lemma {:induction false} EscapeAddsNoBackslash(s: string)
    ensures '\\' in EscapeAmps(s) <==> '\\' in s
  {
    if s != "" {
      EscapeAddsNoBackslash(s[1..]);
      assert s == [s[0]] + s[1..];
    }
  }

  lemma PartHasNoBackslash(cc: CharClasses, caption: string)
    requires '\\' !in caption
    ensures '\\' !in Trim(cc, caption) && Tight(cc, Trim(cc, caption))
  {
    var a, b := TrimSplits(cc, caption);
    var m := Trim(cc, caption);
    hide Trim;
    assert forall c :: c in m ==> c in a + m + b;
  }

  lemma NoBackslashNoTag(s: string)
    requires '\\' !in s
    ensures !("{\\" <= s) && !("{\\rtf" <= s)
  {
    assert |s| >= 2 ==> s[1] in s;
  }

  lemma TightPlainText(cc: CharClasses, m: string)
    requires cc.Valid() && Tight(cc, m) && '\\' !in m
    ensures '\\' !in EscapeAmps(m)
    ensures Trim(cc, ReplaceNewlines(EscapeAmps(m))) == EscapeAmps(m)
  {
    EscapeAddsNoBackslash(m);
    NothingToReplace(EscapeAmps(m));
    EscapeAmpsTight(cc, m);
    hide EscapeAmps;
    hide ReplaceNewlines;
    TrimIs(cc, "", EscapeAmps(m), "");
    assert "" + EscapeAmps(m) + "" == EscapeAmps(m);
  }

  /** A plain label without backslashes is displayed as it was, trimmed. */
  lemma PlainLabelRoundTrip(cc: CharClasses, caption: string)
    requires cc.Valid() && '\\' !in caption
    ensures Clean(cc, EscapeAmps(caption)) == Trim(cc, caption)
  {
    PartHasNoBackslash(cc, caption);
    var m := Trim(cc, caption);
    TrimCommutesWithEscape(cc, caption);
    TightPlainText(cc, m);
    AmpsRoundTrip(m);
    NoBackslashNoTag(EscapeAmps(m));
    hide Trim;
    hide EscapeAmps;
    hide StripAmps;
    hide ReplaceNewlines;
    hide FindClose;
    hide Strip;
  }

  // ----- Font tags -----

  /** The first piece of a text that is replaced or kept as one. */
  function Piece(s: string): nat {
    if StartsNewline(s) then 2 else 1
  }

  function PieceText(s: string): string
    requires s != ""
  {
    if StartsNewline(s) then "\n" else [s[0]]
  }

  lemma ReplacePiece(s: string)
    requires s != ""
    ensures ReplaceNewlines(s) == PieceText(s) + ReplaceNewlines(s[Piece(s)..])
  {
  }

  lemma PieceStays(a: string, b: string)
    requires a != "" && !(a[|a| - 1] == '\\' && b != "" && b[0] == 'n')
    ensures Piece(a + b) == Piece(a) && PieceText(a + b) == PieceText(a)
    ensures (a + b)[Piece(a)..] == a[Piece(a)..] + b
    ensures a[Piece(a)..] != "" ==> a[Piece(a)..][|a[Piece(a)..]| - 1] == a[|a| - 1]
  {
  }

  lemma {:induction false} ReplaceAppend(a: string, b: string)
    requires !(a != "" && a[|a| - 1] == '\\' && b != "" && b[0] == 'n')
    ensures ReplaceNewlines(a + b) == ReplaceNewlines(a) + ReplaceNewlines(b)
    decreases |a|
  {
    if a == "" {
      assert a + b == b;
    } else {
      hide ReplaceNewlines;
      hide PieceText;
      PieceStays(a, b);
      ReplacePiece(a);
      ReplacePiece(a + b);
      var rest := a[Piece(a)..];
      ReplaceAppend(rest, b);
      Regroup(PieceText(a), ReplaceNewlines(rest), ReplaceNewlines(b));
    }
  }

  lemma NewlineAt(b: string)
    ensures ReplaceNewlines("\\n" + b) == "\n" + ReplaceNewlines(b)
  {
    assert ("\\n" + b)[2..] == b;
  }

  /** Each backslash with an `n` behind it is replaced by a line feed, wherever it stands. */
  lemma ReplaceSplits(a: string, b: string)
    ensures ReplaceNewlines(a + "\\n" + b) == ReplaceNewlines(a) + "\n" + ReplaceNewlines(b)
  {
    ReplaceAppend(a, "\\n" + b);
    NewlineAt(b);
    assert a + "\\n" + b == a + ("\\n" + b);
    hide ReplaceNewlines;
    Regroup(ReplaceNewlines(a), "\n", ReplaceNewlines(b));
  }

  /** A text is left alone if and only if it has no backslash with an `n` behind it. */
  lemma {:induction false} ReplaceFixedExactly(s: string)
    ensures ReplaceNewlines(s) == s <==> forall k: nat | k + 1 < |s| :: !(s[k] == '\\' && s[k + 1] == 'n')
  {
    if s != "" {
      ReplaceFixedExactly(s[1..]);
      assert s == [s[0]] + s[1..];
      assert forall k: nat | k + 1 < |s[1..]| :: s[1..][k] == s[k + 1];
      if StartsNewline(s) {
        assert ReplaceNewlines(s)[0] != s[0];
      } else {
        assert ReplaceNewlines(s)[1..] == ReplaceNewlines(s[1..]);
      }
    }
  }

  lemma {:induction false} ReplaceKeepsBraces(s: string)
    ensures '}' in ReplaceNewlines(s) <==> '}' in s
    decreases |s|
  {
    if s != "" {
      var k := Piece(s);
      ReplacePiece(s);
      hide ReplaceNewlines;
      ReplaceKeepsBraces(s[k..]);
      assert s == s[..k] + s[k..];
    }
  }

  lemma {:induction false} FindCloseIs(a: string, b: string)
    requires '}' !in a
    ensures FindClose(a + "}" + b) == Some(|a|)
    decreases |a|
  {
    var s := a + "}" + b;
    if a != "" {
      assert s[1..] == a[1..] + "}" + b;
      FindCloseIs(a[1..], b);
    }
  }

  lemma BlankReplaced(cc: CharClasses, x: string, blank: string)
    requires cc.Valid() && Blank(cc, blank)
    ensures ReplaceNewlines(x + blank) == ReplaceNewlines(x) + blank
  {
    assert '\\' !in blank;
    NothingToReplace(blank);
    ReplaceAppend(x, blank);
  }

  /** Blanks at either end make no difference to the trimmed text. */
  lemma TrimAbsorbs(cc: CharClasses, a: string, x: string, b: string)
    requires Blank(cc, a) && Blank(cc, b)
    ensures Trim(cc, a + x + b) == Trim(cc, x)
  {
    var a', b' := TrimSplits(cc, x);
    var m := Trim(cc, x);
    assert a + x + b == (a + a') + m + (b' + b);
    TrimIs(cc, a + a', m, b' + b);
  }

  /** A text that starts with a brace is trimmed on the right only. */
  lemma TrimTagged(cc: CharClasses, t: string, x: string)
    requires cc.Valid() && t != "" && t[0] == '{' && t[|t| - 1] == '}'
    ensures Trim(cc, t + x) == t + TrimRight(cc, x)
    ensures exists b :: Blank(cc, b) && x == TrimRight(cc, x) + b
  {
    var b := TrimRightSplits(cc, x);
    var y := TrimRight(cc, x);
    assert t + x == "" + (t + y) + b;
    assert Tight(cc, t + y);
    hide TrimRight;
    TrimIs(cc, "", t + y, b);
  }

  lemma TagReplaced(tag: string, c: string)
    requires '}' !in tag
    ensures var t := ReplaceNewlines("{\\" + tag);
            && t != "" && t[0] == '{' && '}' !in t
            && ReplaceNewlines("{\\" + tag + "}" + c) == t + "}" + ReplaceNewlines(c)
  {
    var open := "{\\" + tag;
    assert open[1..] == "\\" + tag;
    assert '}' !in open;
    ReplaceKeepsBraces(open);
    ReplaceAppend(open + "}", c);
    ReplaceAppend(open, "}");
  }

  /** Blanks taken off before line feeds are put in make no difference afterwards. */
  lemma TrimEarly(cc: CharClasses, s: string)
    requires cc.Valid()
    ensures Trim(cc, ReplaceNewlines(Trim(cc, s))) == Trim(cc, ReplaceNewlines(s))
  {
    var a, b := TrimSplits(cc, s);
    var m := Trim(cc, s);
    assert '\\' !in a;
    NothingToReplace(a);
    BlankReplaced(cc, a + m, b);
    ReplaceAppend(a, m);
    hide *;
    TrimAbsorbs(cc, a, ReplaceNewlines(m), b);
  }

  /** A text that starts with a tag still does when it has been trimmed. */
  lemma TaggedTrimmed(cc: CharClasses, tag: string, caption: string)
    requires cc.Valid() && '}' !in tag
    ensures Trim(cc, "{\\" + tag + "}" + caption) == "{\\" + tag + "}" + TrimRight(cc, caption)
    ensures Trim(cc, ReplaceNewlines("{\\" + tag + "}" + caption)) ==
            ReplaceNewlines("{\\" + tag) + "}" + TrimRight(cc, ReplaceNewlines(caption))
  {
    var open := "{\\" + tag;
    TagReplaced(tag, caption);
    hide ReplaceNewlines;
    TrimTagged(cc, open + "}", caption);
    TrimTagged(cc, ReplaceNewlines(open) + "}", ReplaceNewlines(caption));
    hide Trim;
    hide TrimRight;
    assert open + "}" + caption == (open + "}") + caption;
    var o, c := ReplaceNewlines(open), ReplaceNewlines(caption);
    assert o + "}" + c == (o + "}") + c;
  }

  lemma NotAnRtfDocument(tag: string, rest: string)
    requires '}' !in tag && !("rtf" <= tag)
    ensures !("{\\rtf" <= "{\\" + tag + "}" + rest)
  {
    var s := "{\\" + tag + "}" + rest;
    assert |tag| >= 3 ==> s[2] == tag[0] && s[3] == tag[1] && s[4] == tag[2];
    assert |tag| < 3 ==> s[2 + |tag|] == '}';
    assert |tag| >= 3 && tag[0] == 'r' && tag[1] == 't' && tag[2] == 'f' ==> "rtf" <= tag;
  }

  /** The tag is found, and what follows it is the caption. */
  lemma TagFound(t: string, rest: string)
    requires "{\\" <= t && '}' !in t
    ensures var text := t + "}" + rest;
            "{\\" <= text && FindClose(text) == Some(|t|) && text[|t| + 1..] == rest
  {
    FindCloseIs(t, rest);
    hide FindClose;
    var text := t + "}" + rest;
    assert text[0] == t[0] && text[1] == t[1];
  }

  lemma TagStartsWithBackslash(tag: string)
    requires !("n" <= tag)
    ensures "{\\" <= ReplaceNewlines("{\\" + tag)
  {
    var open := "{\\" + tag;
    assert open[1..] == "\\" + tag;
    assert ("\\" + tag)[1..] == tag;
    assert ReplaceNewlines("\\" + tag) == "\\" + ReplaceNewlines(tag);
    assert ReplaceNewlines(open) == "{" + ReplaceNewlines("\\" + tag);
  }

  lemma NewlineFirst(rest: string)
    ensures ReplaceNewlines("{" + ("\\n" + rest)) == "{\n" + ReplaceNewlines(rest)
  {
    hide ReplaceNewlines;
    var s := "\\n" + rest;
    ReplacePiece("{" + s);
    assert ("{" + s)[1..] == s;
    ReplacePiece(s);
    assert s[2..] == rest;
    Regroup("{", "\n", ReplaceNewlines(rest));
    assert "{" + "\n" == "{\n";
  }

  lemma SameTag(tag: string)
    requires "n" <= tag
    ensures "{\\" + tag == "{" + ("\\n" + tag[1..])
  {
    assert tag == "n" + tag[1..];
  }

  lemma NewlineTag(tag: string)
    requires "n" <= tag
    ensures ReplaceNewlines("{\\" + tag) == "{\n" + ReplaceNewlines(tag[1..])
  {
    hide ReplaceNewlines;
    SameTag(tag);
    NewlineFirst(tag[1..]);
  }

  /** The caption with its line feeds put in, before accelerators are resolved. */
  function Shown(cc: CharClasses, caption: string): string {
    Trim(cc, ReplaceNewlines(caption))
  }

  lemma NoBlank(cc: CharClasses)
    ensures Blank(cc, "")
  {
  }

  lemma TrimmedOnceMore(cc: CharClasses, c: string)
    ensures Trim(cc, TrimRight(cc, c)) == Trim(cc, c)
  {
    hide *;
    var b := TrimRightSplits(cc, c);
    var y := TrimRight(cc, c);
    assert y + b == "" + y + b;
    NoBlank(cc);
    TrimAbsorbs(cc, "", y, b);
  }

  lemma TagErased(cc: CharClasses, tag: string, caption: string)
    requires cc.Valid() && '}' !in tag && !("rtf" <= tag) && !("n" <= tag)
    ensures Clean(cc, "{\\" + tag + "}" + caption) == StripAmps(Shown(cc, caption))
  {
    var raw := "{\\" + tag + "}" + caption;
    TrimEarly(cc, raw);
    TaggedTrimmed(cc, tag, caption);
    NotAnRtfDocument(tag, TrimRight(cc, caption));
    TagReplaced(tag, caption);
    TagStartsWithBackslash(tag);
    var c := ReplaceNewlines(caption);
    hide ReplaceNewlines;
    hide StripAmps;
    TagFound(ReplaceNewlines("{\\" + tag), TrimRight(cc, c));
    hide FindClose;
    TrimmedOnceMore(cc, c);
    hide Trim;
    hide TrimRight;
  }

  lemma NotATag(w: string, rest: string)
    ensures !("{\\" <= ("{\n" + w) + "}" + rest)
  {
    var text := ("{\n" + w) + "}" + rest;
    assert text[1] == '\n';
  }

  lemma TagStays(cc: CharClasses, tag: string, caption: string)
    requires cc.Valid() && '}' !in tag && "n" <= tag
    ensures Clean(cc, "{\\" + tag + "}" + caption) == StripAmps(Shown(cc, "{\\" + tag + "}" + caption))
  {
    var raw := "{\\" + tag + "}" + caption;
    TrimEarly(cc, raw);
    TaggedTrimmed(cc, tag, caption);
    NotAnRtfDocument(tag, TrimRight(cc, caption));
    NewlineTag(tag);
    hide Trim;
    hide TrimRight;
    hide StripAmps;
    NotATag(ReplaceNewlines(tag[1..]), TrimRight(cc, ReplaceNewlines(caption)));
    hide ReplaceNewlines;
    hide FindClose;
  }

  // ----- Opening braces are what tells a tag that went from one that stayed -----

  function Opens(s: string): nat {
    multiset(s)['{']
  }

  lemma OpensAppend(a: string, b: string)
    ensures Opens(a + b) == Opens(a) + Opens(b)
  {
  }

  lemma OpensSuffix(s: string, k: nat)
    requires k <= |s|
    ensures Opens(s[k..]) <= Opens(s)
    ensures 0 < k && s[0] == '{' ==> Opens(s[k..]) < Opens(s)
  {
    assert s == s[..k] + s[k..];
    OpensAppend(s[..k], s[k..]);
    assert 0 < k && s[0] == '{' ==> '{' in s[..k];
  }

  lemma BlankOpensNothing(cc: CharClasses, s: string)
    requires cc.Valid() && Blank(cc, s)
    ensures Opens(s) == 0
  {
    assert '{' !in s;
  }

  lemma TrimKeepsOpens(cc: CharClasses, s: string)
    requires cc.Valid()
    ensures Opens(Trim(cc, s)) == Opens(s)
  {
    var a, b := TrimSplits(cc, s);
    BlankOpensNothing(cc, a);
    BlankOpensNothing(cc, b);
    OpensAppend(a + Trim(cc, s), b);
    OpensAppend(a, Trim(cc, s));
    hide Trim;
    hide Opens;
  }

  lemma OpensOfOne(c: char)
    ensures Opens([c]) == Opens(['&', c]) == if c == '{' then 1 else 0
  {
    assert ['&', c] == "&" + [c];
  }

  lemma StripAmpsPiece(s: string)
    requires s != ""
    ensures var k := if s[0] == '&' && |s| >= 2 then 2 else 1;
            && StripAmps(s) == (if s[0] != '&' then [s[0]] else if k == 2 then [s[1]] else "") + StripAmps(s[k..])
            && s[..k] == if k == 2 then ['&', s[1]] else [s[0]]
  {
  }

  lemma {:induction false} AmpsKeepOpens(s: string)
    ensures Opens(StripAmps(s)) == Opens(s)
    decreases |s|
  {
    assert Opens("") == 0;
    hide Opens;
    if s != "" {
      var k := if s[0] == '&' && |s| >= 2 then 2 else 1;
      StripAmpsPiece(s);
      hide StripAmps;
      AmpsKeepOpens(s[k..]);
      assert s == s[..k] + s[k..];
      OpensAppend(s[..k], s[k..]);
      var shown := if s[0] != '&' then [s[0]] else if k == 2 then [s[1]] else "";
      OpensAppend(shown, StripAmps(s[k..]));
      OpensOfOne(s[k - 1]);
    }
  }

  lemma {:induction false} ReplaceKeepsOpens(s: string)
    ensures Opens(ReplaceNewlines(s)) == Opens(s)
    decreases |s|
  {
    if s != "" {
      var k := Piece(s);
      ReplacePiece(s);
      hide ReplaceNewlines;
      ReplaceKeepsOpens(s[k..]);
      assert s == s[..k] + s[k..];
      OpensAppend(s[..k], s[k..]);
      OpensAppend(PieceText(s), ReplaceNewlines(s[k..]));
      assert s[..k] == if k == 2 then "\\n" else [s[0]];
    }
  }

  lemma TokenOpens(cc: CharClasses, s: string, lvl: nat)
    requires s != ""
    ensures Opens(TokenText(cc, s, lvl)) <= Opens(s[..TokenLen(cc, s, lvl)])
  {
    var t, k := TokenText(cc, s, lvl), TokenLen(cc, s, lvl);
    if '{' in t {
      assert t == "{" && k == 2 && s[1] == '{';
      assert s[..k][1] == '{';
    }
  }

  /** The RTF scanner shows no more opening braces than it reads. */
  lemma {:induction false} EmitOpens(cc: CharClasses, s: string, lvl: nat)
    ensures Opens(Emit(cc, s, lvl)) <= Opens(s)
    decreases |s|
  {
    if s == "" {
      EmitNothing(cc, lvl);
      hide *;
    } else {
      hide *;
      var k, next := TokenLen(cc, s, lvl), NextLevel(cc, s, lvl);
      TokenOpens(cc, s, lvl);
      EmitOpens(cc, s[k..], next);
      EmitToken(cc, s, lvl, s[k..]);
      OpensAppend(TokenText(cc, s, lvl), Emit(cc, s[k..], next));
      OpensAppend(s[..k], s[k..]);
      assert s == s[..k] + s[k..];
    }
  }

  /** A caption that is cleaned of markup of its own. */
  predicate HasMarkup(cc: CharClasses, caption: string) {
    || "{\\rtf" <= Trim(cc, caption)
    || ("{\\" <= Shown(cc, caption) && '}' in Shown(cc, caption))
  }

  lemma RtfOpensLess(cc: CharClasses, s: string)
    requires cc.Valid() && "{\\rtf" <= s
    ensures Opens(Strip(cc, s)) < Opens(s)
  {
    TrimKeepsOpens(cc, Emit(cc, s, 0));
    assert s[0] == '{';
    EmitToken(cc, s, 0, s[1..]);
    assert "" + Emit(cc, s[1..], NextLevel(cc, s, 0)) == Emit(cc, s[1..], NextLevel(cc, s, 0));
    EmitOpens(cc, s[1..], NextLevel(cc, s, 0));
    OpensSuffix(s, 1);
    hide Emit;
    hide Trim;
    hide NextLevel;
    hide Opens;
  }

  lemma ShownOpens(cc: CharClasses, caption: string)
    requires cc.Valid()
    ensures Opens(Shown(cc, caption)) == Opens(StripAmps(Shown(cc, caption))) == Opens(caption)
  {
    TrimKeepsOpens(cc, ReplaceNewlines(caption));
    ReplaceKeepsOpens(caption);
    AmpsKeepOpens(Shown(cc, caption));
    hide Opens;
    hide Trim;
    hide ReplaceNewlines;
    hide StripAmps;
  }

  /** A tag in front of a text takes its opening brace with it. */
  lemma TagOpensLess(cc: CharClasses, text: string)
    requires cc.Valid() && "{\\" <= text && '}' in text
    ensures FindClose(text).Some?
    ensures Opens(StripAmps(Trim(cc, text[FindClose(text).value + 1..]))) < Opens(text)
  {
    assert text[0] == '{';
    hide *;
    var k := FindClose(text).value;
    OpensSuffix(text, k + 1);
    TrimKeepsOpens(cc, text[k + 1..]);
    AmpsKeepOpens(Trim(cc, text[k + 1..]));
  }

  lemma DocumentOpensLess(cc: CharClasses, stripped: string)
    requires cc.Valid() && "{\\rtf" <= stripped
    ensures Opens(StripAmps(Strip(cc, stripped))) < Opens(stripped)
  {
    RtfOpensLess(cc, stripped);
    AmpsKeepOpens(Strip(cc, stripped));
    hide *;
  }

  /** The three ways of cleaning, as seen from the caption. */
  lemma CleanCases(cc: CharClasses, caption: string)
    requires cc.Valid()
    ensures var stripped, text := Trim(cc, caption), Shown(cc, caption);
            Clean(cc, caption) ==
            if "{\\rtf" <= stripped then StripAmps(Strip(cc, stripped))
            else if "{\\" <= text && FindClose(text).Some? then
              StripAmps(Trim(cc, text[FindClose(text).value + 1..]))
            else StripAmps(text)
  {
    TrimEarly(cc, caption);
    hide Trim;
    hide ReplaceNewlines;
    hide FindClose;
    hide StripAmps;
    hide Strip;
  }

  /** Cleaning shows all opening braces of a caption, except when it has markup. */
  lemma CleanOpens(cc: CharClasses, caption: string)
    requires cc.Valid()
    ensures !HasMarkup(cc, caption) ==> Clean(cc, caption) == StripAmps(Shown(cc, caption))
    ensures HasMarkup(cc, caption) ==> Opens(Clean(cc, caption)) < Opens(caption)
    ensures Opens(StripAmps(Shown(cc, caption))) == Opens(caption)
  {
    hide Trim;
    hide FindClose;
    hide StripAmps;
    hide Strip;
    hide Opens;
    hide Clean;
    hide Shown;
    var stripped, text := Trim(cc, caption), Shown(cc, caption);
    CleanCases(cc, caption);
    ShownOpens(cc, caption);
    if "{\\rtf" <= stripped {
      TrimKeepsOpens(cc, caption);
      DocumentOpensLess(cc, stripped);
    } else if "{\\" <= text && '}' in text {
      TagOpensLess(cc, text);
    }
  }

  /** A font tag is removed if and only if its name does not start with `n`, which
      would read as a line feed with the tag's backslash; then the tag shows. And the
      caption behind it is displayed as it would be without the tag if and only if,
      besides, it has no markup of its own: only one tag is removed. Tags whose name
      starts with `rtf` are taken for RTF documents instead. */
  lemma FontTagErasedExactly(cc: CharClasses, tag: string, caption: string)
    requires cc.Valid() && '}' !in tag && !("rtf" <= tag)
    ensures Clean(cc, "{\\" + tag + "}" + caption) == StripAmps(Shown(cc, caption)) <==> !("n" <= tag)
    ensures Clean(cc, "{\\" + tag + "}" + caption) == Clean(cc, caption)
            <==> !("n" <= tag) && !HasMarkup(cc, caption)
  {
    var raw := "{\\" + tag + "}" + caption;
    CleanOpens(cc, caption);
    if "n" <= tag {
      TagStays(cc, tag, caption);
      CleanOpens(cc, raw);
      OpensSuffix(raw, 3 + |tag|);
      assert raw[0] == '{' && raw[3 + |tag|..] == caption;
    } else {
      TagErased(cc, tag, caption);
    }
    hide Clean;
    hide Shown;
    hide StripAmps;
    hide HasMarkup;
    hide Opens;
  }

  lemma TagWithMarkupBehind(cc: CharClasses)
    requires cc.Valid()
    ensures HasMarkup(cc, "{\\i}a")
  {
    TaggedTrimmed(cc, "i", "a");
    TagStartsWithBackslash("i");
    assert "{\\" + "i" + "}" + "a" == "{\\i}a";
    var shown := Shown(cc, "{\\i}a");
    hide Trim;
    hide TrimRight;
    hide ReplaceNewlines;
    var t, rest := ReplaceNewlines("{\\" + "i"), TrimRight(cc, ReplaceNewlines("a"));
    assert shown == t + "}" + rest && shown[|t|] == '}';
    assert t[0] == shown[0] && t[1] == shown[1];
  }

  /** A font tag that shows, and a second tag that shows behind one that does not. */
  lemma TagsThatShow(cc: CharClasses)
    requires cc.Valid()
    ensures Clean(cc, "{\\n}a") != Clean(cc, "a")
    ensures Clean(cc, "{\\b}{\\i}a") != Clean(cc, "{\\i}a")
  {
    hide *;
    TagWithMarkupBehind(cc);
    FontTagErasedExactly(cc, "n", "a");
    FontTagErasedExactly(cc, "b", "{\\i}a");
    assert "{\\" + "n" + "}" + "a" == "{\\n}a";
    assert "{\\" + "b" + "}" + "{\\i}a" == "{\\b}{\\i}a";
  }
}
