/** Word wrapping of a paragraph to a pixel width. */
module WordWrap {
  import opened PyText

  // ----- Words -----

  /** Length of the first word of a text that starts with one. */
  function WordLen(cc: CharClasses, s: string): (k: nat)
    ensures k <= |s| && (k < |s| ==> cc.isSpace(s[k]))
    ensures forall j | 0 <= j < k :: !cc.isSpace(s[j])
    ensures s != "" && !cc.isSpace(s[0]) ==> k >= 1
  {
    if s != "" && !cc.isSpace(s[0]) then 1 + WordLen(cc, s[1..]) else 0
  }

  predicate IsWord(cc: CharClasses, w: string) {
    w != "" && forall j | 0 <= j < |w| :: !cc.isSpace(w[j])
  }

  /** `split()`. */
  function Words(cc: CharClasses, s: string): (ws: seq<string>)
    ensures forall k | 0 <= k < |ws| :: IsWord(cc, ws[k])
    decreases |s|
  {
    if s == "" then []
    else if cc.isSpace(s[0]) then Words(cc, s[1..])
    else [s[..WordLen(cc, s)]] + Words(cc, s[WordLen(cc, s)..])
  }

  ghost predicate WordsStandAt(s: string, starts: seq<nat>, ends: seq<nat>, ws: seq<string>) {
    && |starts| == |ends| == |ws|
    && forall k | 0 <= k < |ws| :: starts[k] < ends[k] <= |s| && s[starts[k]..ends[k]] == ws[k]
  }

  ghost predicate Covered(starts: seq<nat>, ends: seq<nat>, i: nat)
    requires |starts| == |ends|
  {
    exists k :: 0 <= k < |starts| && starts[k] <= i < ends[k]
  }

  /** The words stand between these places of the text, with blanks between one and the
      next and blanks alone everywhere else. */
  ghost predicate IsSplit(cc: CharClasses, s: string, starts: seq<nat>, ends: seq<nat>, ws: seq<string>) {
    && WordsStandAt(s, starts, ends, ws)
    && (forall j, k | 0 <= j < k < |ws| :: ends[j] < starts[k])
    && (forall i: nat | i < |s| :: cc.isSpace(s[i]) <==> !Covered(starts, ends, i))
  }

  function Shifted(places: seq<nat>, n: nat): (r: seq<nat>)
    ensures |r| == |places| && forall k | 0 <= k < |places| :: r[k] == places[k] + n
  {
    seq(|places|, k requires 0 <= k < |places| => places[k] + n)
  }

  lemma ShiftedCovers(starts: seq<nat>, ends: seq<nat>, n: nat, i: nat)
    requires |starts| == |ends|
    ensures Covered(Shifted(starts, n), Shifted(ends, n), i) <==> i >= n && Covered(starts, ends, i - n)
  {
    var starts', ends' := Shifted(starts, n), Shifted(ends, n);
    hide Shifted;
    if Covered(starts', ends', i) {
      var k :| 0 <= k < |starts'| && starts'[k] <= i < ends'[k];
      assert starts[k] <= i - n < ends[k];
    }
    if i >= n && Covered(starts, ends, i - n) {
      var k :| 0 <= k < |starts| && starts[k] <= i - n < ends[k];
      assert starts'[k] <= i < ends'[k];
    }
  }

  lemma ShiftedWords(s: string, n: nat, starts: seq<nat>, ends: seq<nat>, ws: seq<string>)
    requires n <= |s| && WordsStandAt(s[n..], starts, ends, ws)
    ensures WordsStandAt(s, Shifted(starts, n), Shifted(ends, n), ws)
  {
    forall k | 0 <= k < |ws| ensures s[starts[k] + n..ends[k] + n] == ws[k] {
      assert s[n..][starts[k]..ends[k]] == ws[k];
    }
    hide Shifted;
  }

  /** Text in front moves all places. */
  lemma ShiftedSplit(cc: CharClasses, s: string, n: nat, starts: seq<nat>, ends: seq<nat>, ws: seq<string>)
    requires n <= |s| && IsSplit(cc, s[n..], starts, ends, ws)
    ensures var starts', ends' := Shifted(starts, n), Shifted(ends, n);
            && WordsStandAt(s, starts', ends', ws)
            && (forall j, k | 0 <= j < k < |ws| :: ends'[j] < starts'[k])
            && (forall i: nat | i < |s| :: Covered(starts', ends', i) <==> i >= n && !cc.isSpace(s[i]))
  {
    ShiftedWords(s, n, starts, ends, ws);
    hide Shifted;
    hide WordsStandAt;
    forall i: nat | i < |s|
      ensures Covered(Shifted(starts, n), Shifted(ends, n), i) <==> i >= n && !cc.isSpace(s[i])
    {
      ShiftedCovers(starts, ends, n, i);
      assert i >= n ==> s[i] == s[n..][i - n];
    }
  }

  lemma OneMoreCovers(start: nat, end: nat, starts: seq<nat>, ends: seq<nat>, i: nat)
    requires |starts| == |ends|
    ensures Covered([start] + starts, [end] + ends, i) <==> start <= i < end || Covered(starts, ends, i)
  {
    var starts', ends' := [start] + starts, [end] + ends;
    if Covered(starts', ends', i) && !(start <= i < end) {
      var k :| 0 <= k < |starts'| && starts'[k] <= i < ends'[k];
      assert starts[k - 1] <= i < ends[k - 1];
    }
    if Covered(starts, ends, i) {
      var k :| 0 <= k < |starts| && starts[k] <= i < ends[k];
      assert starts'[k + 1] <= i < ends'[k + 1];
    }
    assert starts'[0] == start && ends'[0] == end;
  }

  lemma OneMoreWord(s: string, n: nat, starts: seq<nat>, ends: seq<nat>, ws: seq<string>)
    requires 0 < n <= |s| && WordsStandAt(s, starts, ends, ws)
    ensures WordsStandAt(s, [0] + starts, [n] + ends, [s[..n]] + ws)
  {
  }

  lemma OneMoreInOrder(n: nat, starts: seq<nat>, ends: seq<nat>, count: nat)
    requires |starts| == |ends| == count && (forall j, k | 0 <= j < k < count :: ends[j] < starts[k])
    requires forall k | 0 <= k < count :: n < starts[k]
    ensures var starts', ends' := [0] + starts, [n] + ends;
            forall j, k | 0 <= j < k < count + 1 :: ends'[j] < starts'[k]
  {
  }

  /** A word in front, and a blank behind it if anything is. */
  lemma SplitBehindWord(cc: CharClasses, s: string, n: nat, starts: seq<nat>, ends: seq<nat>, ws: seq<string>)
    requires 0 < n <= |s| && (n < |s| ==> cc.isSpace(s[n])) && (forall i | 0 <= i < n :: !cc.isSpace(s[i]))
    requires IsSplit(cc, s[n..], starts, ends, ws)
    ensures IsSplit(cc, s, [0] + Shifted(starts, n), [n] + Shifted(ends, n), [s[..n]] + ws)
  {
    ShiftedSplit(cc, s, n, starts, ends, ws);
    hide Shifted;
    var starts', ends' := Shifted(starts, n), Shifted(ends, n);
    forall k | 0 <= k < |ws| ensures n < starts'[k] {
      assert Covered(starts', ends', starts'[k]);
    }
    OneMoreWord(s, n, starts', ends', ws);
    OneMoreInOrder(n, starts', ends', |ws|);
    forall i: nat | i < |s| ensures cc.isSpace(s[i]) <==> !Covered([0] + starts', [n] + ends', i) {
      OneMoreCovers(0, n, starts', ends', i);
    }
    hide Covered;
    hide WordsStandAt;
  }

  /** Splitting finds the words of any text: its maximal runs of characters that are no
      blanks, in order. */
  lemma {:induction false} SplitExactly(cc: CharClasses, s: string) returns (starts: seq<nat>, ends: seq<nat>)
    ensures IsSplit(cc, s, starts, ends, Words(cc, s))
    decreases |s|
  {
    if s == "" {
      starts, ends := [], [];
    } else if cc.isSpace(s[0]) {
      starts, ends := SplitExactly(cc, s[1..]);
      ShiftedSplit(cc, s, 1, starts, ends, Words(cc, s[1..]));
      starts, ends := Shifted(starts, 1), Shifted(ends, 1);
    } else {
      var n := WordLen(cc, s);
      starts, ends := SplitExactly(cc, s[n..]);
      SplitBehindWord(cc, s, n, starts, ends, Words(cc, s[n..]));
      starts, ends := [0] + Shifted(starts, n), [n] + Shifted(ends, n);
    }
    hide Shifted;
    hide Covered;
    hide WordsStandAt;
  }

  /** Words with single spaces between them. */
  function Join(ws: seq<string>): string {
    if ws == [] then ""
    else if |ws| == 1 then ws[0]
    else ws[0] + " " + Join(ws[1..])
  }

  lemma {:induction false} JoinSplits(a: seq<string>, b: seq<string>)
    requires a != [] && b != []
    ensures Join(a + b) == Join(a) + " " + Join(b)
  {
    if |a| > 1 {
      assert (a + b)[1..] == a[1..] + b;
      JoinSplits(a[1..], b);
    } else {
      assert (a + b)[1..] == b;
    }
  }

  lemma WordLenIs(cc: CharClasses, s: string, k: nat)
    requires k <= |s| && (k < |s| ==> cc.isSpace(s[k]))
    requires forall j | 0 <= j < k :: !cc.isSpace(s[j])
    ensures WordLen(cc, s) == k
  {
  }

  lemma FirstOfMany(ws: seq<string>)
    requires |ws| > 1
    ensures Join(ws) == ws[0] + (" " + Join(ws[1..]))
  {
  }

  lemma WordsOfSpaced(cc: CharClasses, w: string, tail: string)
    requires cc.Valid() && IsWord(cc, w)
    ensures Words(cc, w + (" " + tail)) == [w] + Words(cc, tail)
  {
    var s := w + (" " + tail);
    assert s[|w|] == ' ';
    WordLenIs(cc, s, |w|);
    assert s[..|w|] == w;
    assert s[|w|..] == " " + tail;
    assert (" " + tail)[1..] == tail;
  }

  lemma {:induction false} WordsOfJoin(cc: CharClasses, ws: seq<string>)
    requires cc.Valid() && forall k | 0 <= k < |ws| :: IsWord(cc, ws[k])
    ensures Words(cc, Join(ws)) == ws
  {
    if |ws| == 1 {
      assert Join(ws) == ws[0];
      WordLenIs(cc, ws[0], |ws[0]|);
      assert ws[0][..|ws[0]|] == ws[0];
      assert ws[0][|ws[0]|..] == "";
    } else if ws != [] {
      FirstOfMany(ws);
      WordsOfSpaced(cc, ws[0], Join(ws[1..]));
      WordsOfJoin(cc, ws[1..]);
    }
  }

  // ----- Lines -----

  predicate Fits(width: string -> int, maxWidth: int, ws: seq<string>) {
    width(Join(ws)) <= maxWidth
  }

  /** First-fit wrapping with the current line and the words still to place. */
  function WrapFrom(width: string -> int, maxWidth: int, cur: seq<string>, rest: seq<string>): (lines: seq<seq<string>>)
    ensures lines != []
    decreases |rest|
  {
    if rest == [] then [cur]
    else if Fits(width, maxWidth, cur + [rest[0]]) then WrapFrom(width, maxWidth, cur + [rest[0]], rest[1..])
    else [cur] + WrapFrom(width, maxWidth, [rest[0]], rest[1..])
  }

  function Wrap(width: string -> int, maxWidth: int, ws: seq<string>): seq<seq<string>> {
    if ws == [] then [] else WrapFrom(width, maxWidth, [ws[0]], ws[1..])
  }

  function JoinAll(lines: seq<seq<string>>): (r: seq<string>)
    ensures |r| == |lines|
    ensures forall k | 0 <= k < |lines| :: r[k] == Join(lines[k])
  {
    if lines == [] then [] else [Join(lines[0])] + JoinAll(lines[1..])
  }

  /** What placing the next word does to the lines still to come. */
  lemma PlaceWord(width: string -> int, maxWidth: int, words: seq<string>, line: seq<string>, k: nat)
    requires k < |words| && line != []
    ensures Join(line + [words[k]]) == Join(line) + " " + words[k]
    ensures var lines := JoinAll(WrapFrom(width, maxWidth, line, words[k..]));
            lines == if width(Join(line) + " " + words[k]) <= maxWidth
                     then JoinAll(WrapFrom(width, maxWidth, line + [words[k]], words[k + 1..]))
                     else [Join(line)] + JoinAll(WrapFrom(width, maxWidth, [words[k]], words[k + 1..]))
  {
    var rest := words[k..];
    assert rest[1..] == words[k + 1..] && rest[0] == words[k];
    JoinSplits(line, [words[k]]);
    var tail := WrapFrom(width, maxWidth, [words[k]], words[k + 1..]);
    assert ([line] + tail)[1..] == tail;
  }

  lemma LastLine(width: string -> int, maxWidth: int, line: seq<string>)
    ensures JoinAll(WrapFrom(width, maxWidth, line, [])) == [Join(line)]
  {
    assert [line][1..] == [];
  }

  // ----- What wrapping guarantees -----

  function Flatten(lines: seq<seq<string>>): seq<string> {
    if lines == [] then [] else lines[0] + Flatten(lines[1..])
  }

  /** A way to cut words into consecutive nonempty lines that fit or are one word. */
  ghost predicate IsLayout(width: string -> int, maxWidth: int, lines: seq<seq<string>>, ws: seq<string>) {
    && Flatten(lines) == ws
    && forall k | 0 <= k < |lines| :: lines[k] != [] && (|lines[k]| == 1 || Fits(width, maxWidth, lines[k]))
  }

  lemma {:induction false} WrapFromIsLayout(width: string -> int, maxWidth: int, cur: seq<string>, rest: seq<string>)
    requires cur != [] && (|cur| == 1 || Fits(width, maxWidth, cur))
    ensures IsLayout(width, maxWidth, WrapFrom(width, maxWidth, cur, rest), cur + rest)
    decreases |rest|
  {
    hide Fits;
    if rest == [] {
      assert Flatten([cur]) == cur + Flatten([]);
      assert cur + rest == cur;
    } else if Fits(width, maxWidth, cur + [rest[0]]) {
      WrapFromIsLayout(width, maxWidth, cur + [rest[0]], rest[1..]);
      assert cur + [rest[0]] + rest[1..] == cur + rest;
    } else {
      var tail := WrapFrom(width, maxWidth, [rest[0]], rest[1..]);
      WrapFromIsLayout(width, maxWidth, [rest[0]], rest[1..]);
      assert [rest[0]] + rest[1..] == rest;
      assert ([cur] + tail)[1..] == tail;
    }
  }

  /** The wrapped lines are a layout of exactly the words, in order. */
  lemma WrapIsLayout(width: string -> int, maxWidth: int, ws: seq<string>)
    ensures IsLayout(width, maxWidth, Wrap(width, maxWidth, ws), ws)
  {
    if ws != [] {
      WrapFromIsLayout(width, maxWidth, [ws[0]], ws[1..]);
      assert [ws[0]] + ws[1..] == ws;
    }
  }

  /** The width measure is sane on the words: a contiguous part of a run of them that
      fits, fits. */
  ghost predicate SubrunsFit(width: string -> int, maxWidth: int, ws: seq<string>) {
    forall i, j, k, m | 0 <= i <= j < k <= m <= |ws| && Fits(width, maxWidth, ws[i..m]) ::
      Fits(width, maxWidth, ws[j..k])
  }

  lemma SuffixSubrunsFit(width: string -> int, maxWidth: int, ws: seq<string>, n: nat)
    requires n <= |ws| && SubrunsFit(width, maxWidth, ws)
    ensures SubrunsFit(width, maxWidth, ws[n..])
  {
    hide Fits;
    var tail := ws[n..];
    forall i, j, k, m | 0 <= i <= j < k <= m <= |tail| && Fits(width, maxWidth, tail[i..m])
      ensures Fits(width, maxWidth, tail[j..k])
    {
      assert tail[i..m] == ws[n + i..n + m] && tail[j..k] == ws[n + j..n + k];
    }
  }

  lemma RunInsideLine(width: string -> int, maxWidth: int, pre: seq<string>, cur: seq<string>,
                      rest: seq<string>, n: nat)
    requires rest != [] && |pre + cur| < n <= |pre + cur + rest|
    requires SubrunsFit(width, maxWidth, pre + cur + rest)
    ensures Fits(width, maxWidth, (pre + cur + rest)[..n]) ==> Fits(width, maxWidth, cur + [rest[0]])
  {
    var ws := pre + cur + rest;
    assert ws[|pre|..|pre + cur| + 1] == cur + [rest[0]];
    assert ws[0..n] == ws[..n];
    hide Fits;
  }

  lemma FirstLineStopsHere(width: string -> int, maxWidth: int, pre: seq<string>, cur: seq<string>,
                           rest: seq<string>, layout: seq<seq<string>>)
    requires SubrunsFit(width, maxWidth, pre + cur + rest) && cur != [] && rest != []
    requires layout != [] && IsLayout(width, maxWidth, layout, pre + cur + rest)
    requires !Fits(width, maxWidth, cur + [rest[0]])
    ensures |layout[0]| <= |pre + cur|
  {
    hide Fits;
    var first := layout[0];
    assert pre + cur + rest == first + Flatten(layout[1..]);
    if |first| > |pre + cur| {
      assert first == (pre + cur + rest)[..|first|];
      RunInsideLine(width, maxWidth, pre, cur, rest, |first|);
    }
  }

  /** The first-fit line started no earlier than the first line of any layout of the
      same words with more in front, so it reaches at least as far. */
  lemma {:induction false} FirstFitStaysAhead(width: string -> int, maxWidth: int, pre: seq<string>, cur: seq<string>,
                                              rest: seq<string>, layout: seq<seq<string>>)
    requires SubrunsFit(width, maxWidth, pre + cur + rest) && cur != []
    requires IsLayout(width, maxWidth, layout, pre + cur + rest)
    ensures |WrapFrom(width, maxWidth, cur, rest)| <= |layout|
    decreases |rest|
  {
    hide Fits;
    hide SubrunsFit;
    assert layout != [];
    if rest != [] {
      var w := rest[0];
      if Fits(width, maxWidth, cur + [w]) {
        assert pre + (cur + [w]) + rest[1..] == pre + cur + rest;
        FirstFitStaysAhead(width, maxWidth, pre, cur + [w], rest[1..], layout);
      } else {
        var first := layout[0];
        FirstLineStopsHere(width, maxWidth, pre, cur, rest, layout);
        var pre' := (pre + cur)[|first|..];
        assert Flatten(layout) == first + Flatten(layout[1..]);
        assert Flatten(layout[1..]) == (pre + cur + rest)[|first|..] == pre' + [w] + rest[1..];
        SuffixSubrunsFit(width, maxWidth, pre + cur + rest, |first|);
        FirstFitStaysAhead(width, maxWidth, pre', [w], rest[1..], layout[1..]);
      }
    }
  }

  /** First-fit wrapping uses the fewest lines any layout of the words can have. */
  lemma WrapIsOptimal(width: string -> int, maxWidth: int, ws: seq<string>, layout: seq<seq<string>>)
    requires SubrunsFit(width, maxWidth, ws) && IsLayout(width, maxWidth, layout, ws)
    ensures |Wrap(width, maxWidth, ws)| <= |layout|
  {
    if ws != [] {
      assert [] + [ws[0]] + ws[1..] == ws;
      FirstFitStaysAhead(width, maxWidth, [], [ws[0]], ws[1..], layout);
    }
  }

  lemma {:induction false} JoinOfLines(lines: seq<seq<string>>)
    requires forall k | 0 <= k < |lines| :: lines[k] != []
    ensures Join(JoinAll(lines)) == Join(Flatten(lines))
  {
    if |lines| == 1 {
      assert lines[1..] == [];
      assert Flatten(lines) == lines[0] + [];
      assert Flatten(lines) == lines[0];
      assert JoinAll(lines) == [Join(lines[0])];
    } else if lines != [] {
      JoinOfLines(lines[1..]);
      assert lines[1..][0] == lines[1];
      assert Flatten(lines[1..]) != [];
      JoinSplits(lines[0], Flatten(lines[1..]));
      assert JoinAll(lines)[1..] == JoinAll(lines[1..]);
    }
  }

  /** Splitting the wrapped lines again gives back exactly the words of the text. */
  lemma WrapKeepsWords(cc: CharClasses, width: string -> int, maxWidth: int, text: string)
    requires cc.Valid()
    ensures Words(cc, Join(JoinAll(Wrap(width, maxWidth, Words(cc, text))))) == Words(cc, text)
  {
    var ws := Words(cc, text);
    WrapIsLayout(width, maxWidth, ws);
    JoinOfLines(Wrap(width, maxWidth, ws));
    WordsOfJoin(cc, ws);
  }

  // ----- First fit, said by its lines -----

  ghost predicate TakesFitting(width: string -> int, maxWidth: int, line: seq<string>)
    ensures TakesFitting(width, maxWidth, line) ==> line != []
  {
    line != [] && forall n | 2 <= n <= |line| :: width(Join(line[..n])) <= maxWidth
  }

  /** Each line takes words as long as they fit: every longer part of it from its start
      fits, and the first word of the next line would not have. */
  ghost predicate IsFirstFit(width: string -> int, maxWidth: int, lines: seq<seq<string>>, ws: seq<string>) {
    && Flatten(lines) == ws
    && (forall k | 0 <= k < |lines| :: TakesFitting(width, maxWidth, lines[k]))
    && (forall k | 0 <= k < |lines| - 1 :: width(Join(lines[k] + [lines[k + 1][0]])) > maxWidth)
  }

  lemma TakesOneMore(width: string -> int, maxWidth: int, line: seq<string>, w: string)
    requires TakesFitting(width, maxWidth, line) && width(Join(line + [w])) <= maxWidth
    ensures TakesFitting(width, maxWidth, line + [w])
  {
    var longer := line + [w];
    forall n | 2 <= n <= |longer| ensures width(Join(longer[..n])) <= maxWidth {
      assert longer[..n] == if n <= |line| then line[..n] else longer;
    }
  }

  lemma {:induction false} WrapFromIsFirstFit(width: string -> int, maxWidth: int, cur: seq<string>, rest: seq<string>)
    requires TakesFitting(width, maxWidth, cur)
    ensures var lines := WrapFrom(width, maxWidth, cur, rest);
            IsFirstFit(width, maxWidth, lines, cur + rest) && lines[0][0] == cur[0]
    decreases |rest|
  {
    if rest == [] {
      assert Flatten([cur]) == cur + Flatten([]);
      assert cur + rest == cur;
    } else if Fits(width, maxWidth, cur + [rest[0]]) {
      TakesOneMore(width, maxWidth, cur, rest[0]);
      WrapFromIsFirstFit(width, maxWidth, cur + [rest[0]], rest[1..]);
      assert cur + [rest[0]] + rest[1..] == cur + rest;
    } else {
      var tail := WrapFrom(width, maxWidth, [rest[0]], rest[1..]);
      WrapFromIsFirstFit(width, maxWidth, [rest[0]], rest[1..]);
      assert [rest[0]] + rest[1..] == rest;
      assert ([cur] + tail)[1..] == tail;
    }
  }

  /** The lines behind the first are first fit for the words behind it. */
  lemma BehindFirstLine(width: string -> int, maxWidth: int, lines: seq<seq<string>>, ws: seq<string>)
    requires lines != [] && IsFirstFit(width, maxWidth, lines, lines[0] + ws)
    ensures IsFirstFit(width, maxWidth, lines[1..], ws)
    ensures lines[1..] == [] <==> ws == []
    ensures ws != [] ==> lines[1][0] == ws[0] && !Fits(width, maxWidth, lines[0] + [ws[0]])
  {
    var tail := lines[1..];
    assert Flatten(tail) == (lines[0] + ws)[|lines[0]|..] == ws;
    assert forall k | 0 <= k < |tail| :: tail[k] == lines[k + 1];
    if tail != [] {
      assert TakesFitting(width, maxWidth, tail[0]);
      assert Flatten(tail)[0] == tail[0][0];
    }
    hide TakesFitting;
  }

  lemma {:induction false} FirstFitIsUnique(width: string -> int, maxWidth: int, lines: seq<seq<string>>,
                                            cur: seq<string>, rest: seq<string>)
    requires lines != [] && IsFirstFit(width, maxWidth, lines, cur + rest) && cur != [] && cur <= lines[0]
    ensures lines == WrapFrom(width, maxWidth, cur, rest)
    decreases |rest|
  {
    var first := lines[0];
    if first != cur {
      assert Flatten(lines) == first + Flatten(lines[1..]);
      assert TakesFitting(width, maxWidth, first);
      var w := first[|cur|];
      assert w == (cur + rest)[|cur|] == rest[0];
      assert first[..|cur| + 1] == cur + [w];
      assert cur + [w] + rest[1..] == cur + rest;
      FirstFitIsUnique(width, maxWidth, lines, cur + [w], rest[1..]);
    } else {
      BehindFirstLine(width, maxWidth, lines, rest);
      if rest != [] {
        assert TakesFitting(width, maxWidth, lines[1]);
        assert [rest[0]] + rest[1..] == rest;
        FirstFitIsUnique(width, maxWidth, lines[1..], [rest[0]], rest[1..]);
      }
      assert lines == [cur] + lines[1..];
    }
  }

  lemma NoWordsNoLines(width: string -> int, maxWidth: int, lines: seq<seq<string>>)
    ensures IsFirstFit(width, maxWidth, lines, []) <==> lines == []
  {
    if lines != [] {
      assert Flatten(lines) == lines[0] + Flatten(lines[1..]);
    }
    hide TakesFitting;
  }

  /** The wrapped lines are the one way to cut the words into lines by first fit: of any
      other way some line takes a word that does not fit or leaves one that does. */
  lemma WrapIsTheFirstFit(width: string -> int, maxWidth: int, ws: seq<string>, lines: seq<seq<string>>)
    ensures lines == Wrap(width, maxWidth, ws) <==> IsFirstFit(width, maxWidth, lines, ws)
  {
    if ws != [] {
      assert [ws[0]] + ws[1..] == ws;
      WrapFromIsFirstFit(width, maxWidth, [ws[0]], ws[1..]);
      if IsFirstFit(width, maxWidth, lines, ws) {
        assert TakesFitting(width, maxWidth, lines[0]);
        assert lines[0][0] == Flatten(lines)[0];
        FirstFitIsUnique(width, maxWidth, lines, [ws[0]], ws[1..]);
      }
    } else {
      NoWordsNoLines(width, maxWidth, lines);
    }
  }

  // ----- The wrapped text, said by its characters -----

  /** The characters of a text that are no blanks. */
  function NonBlank(cc: CharClasses, s: string): string {
    if s == "" then "" else (if cc.isSpace(s[0]) then "" else [s[0]]) + NonBlank(cc, s[1..])
  }

  /** Texts one after the other. */
  function Glue(texts: seq<string>): string {
    if texts == [] then "" else texts[0] + Glue(texts[1..])
  }

  lemma {:induction false} NonBlankAppend(cc: CharClasses, a: string, b: string)
    ensures NonBlank(cc, a + b) == NonBlank(cc, a) + NonBlank(cc, b)
    decreases |a|
  {
    if a == "" {
      assert a + b == b;
    } else {
      assert (a + b)[1..] == a[1..] + b;
      NonBlankAppend(cc, a[1..], b);
    }
  }

  lemma {:induction false} NonBlankWord(cc: CharClasses, w: string)
    requires forall j | 0 <= j < |w| :: !cc.isSpace(w[j])
    ensures NonBlank(cc, w) == w
  {
    if w != "" {
      NonBlankWord(cc, w[1..]);
      assert w == [w[0]] + w[1..];
    }
  }

  lemma {:induction false} WordsKeepAll(cc: CharClasses, s: string)
    ensures NonBlank(cc, s) == Glue(Words(cc, s))
    decreases |s|
  {
    if s != "" && cc.isSpace(s[0]) {
      WordsKeepAll(cc, s[1..]);
    } else if s != "" {
      var n := WordLen(cc, s);
      WordsKeepAll(cc, s[n..]);
      assert s == s[..n] + s[n..];
      NonBlankAppend(cc, s[..n], s[n..]);
      NonBlankWord(cc, s[..n]);
      assert ([s[..n]] + Words(cc, s[n..]))[1..] == Words(cc, s[n..]);
    }
  }

  lemma {:induction false} GlueAppend(a: seq<string>, b: seq<string>)
    ensures Glue(a + b) == Glue(a) + Glue(b)
  {
    if a == [] {
      assert a + b == b;
    } else {
      assert (a + b)[1..] == a[1..] + b;
      GlueAppend(a[1..], b);
    }
  }

  ghost predicate AreWords(cc: CharClasses, ws: seq<string>) {
    forall k | 0 <= k < |ws| :: IsWord(cc, ws[k])
  }

  lemma NonBlankSpaced(cc: CharClasses, w: string, tail: string)
    requires cc.Valid() && IsWord(cc, w)
    ensures NonBlank(cc, w + (" " + tail)) == w + NonBlank(cc, tail)
  {
    assert (" " + tail)[1..] == tail;
    NonBlankAppend(cc, w, " " + tail);
    NonBlankWord(cc, w);
  }

  /** A line shows its words, and blanks. */
  lemma {:induction false} LineKeepsAll(cc: CharClasses, ws: seq<string>)
    requires cc.Valid() && AreWords(cc, ws)
    ensures NonBlank(cc, Join(ws)) == Glue(ws)
  {
    hide NonBlank;
    hide CharClasses.Valid;
    if |ws| == 1 {
      NonBlankWord(cc, ws[0]);
      assert Glue(ws) == ws[0] + Glue(ws[1..]);
    } else if ws != [] {
      FirstOfMany(ws);
      hide Join;
      LineKeepsAll(cc, ws[1..]);
      NonBlankSpaced(cc, ws[0], Join(ws[1..]));
    } else {
      NonBlankWord(cc, "");
    }
  }

  lemma WordsOfLines(cc: CharClasses, lines: seq<seq<string>>)
    requires lines != [] && AreWords(cc, Flatten(lines))
    ensures AreWords(cc, lines[0]) && AreWords(cc, Flatten(lines[1..]))
  {
    var first, rest := lines[0], Flatten(lines[1..]);
    assert forall k | 0 <= k < |first| :: Flatten(lines)[k] == first[k];
    assert forall k | 0 <= k < |rest| :: Flatten(lines)[|first| + k] == rest[k];
  }

  lemma {:induction false} LinesKeepAll(cc: CharClasses, lines: seq<seq<string>>)
    requires cc.Valid() && AreWords(cc, Flatten(lines))
    ensures NonBlank(cc, Glue(JoinAll(lines))) == Glue(Flatten(lines))
  {
    if lines != [] {
      WordsOfLines(cc, lines);
      LinesKeepAll(cc, lines[1..]);
      LineKeepsAll(cc, lines[0]);
      GlueAppend(lines[0], Flatten(lines[1..]));
      assert JoinAll(lines)[1..] == JoinAll(lines[1..]);
      NonBlankAppend(cc, Join(lines[0]), Glue(JoinAll(lines[1..])));
    }
  }

  /** Nothing of the text is lost but blanks, and nothing else is added: the lines, put one
      after the other, have the characters of the text that are no blanks, in order. */
  lemma WrapKeepsText(cc: CharClasses, width: string -> int, maxWidth: int, text: string)
    requires cc.Valid()
    ensures NonBlank(cc, Glue(JoinAll(Wrap(width, maxWidth, Words(cc, text))))) == NonBlank(cc, text)
  {
    var ws := Words(cc, text);
    WrapIsLayout(width, maxWidth, ws);
    LinesKeepAll(cc, Wrap(width, maxWidth, ws));
    WordsKeepAll(cc, text);
  }

  /** Each blank in the line is one space between two characters that are none. */
  ghost predicate SingleSpaced(cc: CharClasses, line: string) {
    forall i: nat | i < |line| && cc.isSpace(line[i]) ::
      line[i] == ' ' && 0 < i < |line| - 1 && !cc.isSpace(line[i - 1]) && !cc.isSpace(line[i + 1])
  }

  lemma SpacedAgain(cc: CharClasses, w: string, line: string)
    requires IsWord(cc, w) && line != "" && !cc.isSpace(line[0]) && SingleSpaced(cc, line)
    ensures SingleSpaced(cc, w + " " + line) && !cc.isSpace((w + " " + line)[0])
  {
    var longer := w + " " + line;
    var n := |w| + 1;
    forall i: nat | i < |longer| && cc.isSpace(longer[i])
      ensures longer[i] == ' ' && 0 < i < |longer| - 1 && !cc.isSpace(longer[i - 1]) && !cc.isSpace(longer[i + 1])
    {
      if i >= n {
        assert longer[i] == line[i - n];
      }
    }
  }

  lemma {:induction false} LineIsSpaced(cc: CharClasses, ws: seq<string>)
    requires ws != [] && AreWords(cc, ws)
    ensures Join(ws) != "" && !cc.isSpace(Join(ws)[0]) && SingleSpaced(cc, Join(ws))
  {
    if |ws| > 1 {
      LineIsSpaced(cc, ws[1..]);
      SpacedAgain(cc, ws[0], Join(ws[1..]));
    }
  }

  lemma {:induction false} LinesAreSpaced(cc: CharClasses, lines: seq<seq<string>>)
    requires AreWords(cc, Flatten(lines)) && forall k | 0 <= k < |lines| :: lines[k] != []
    ensures forall k | 0 <= k < |lines| :: SingleSpaced(cc, JoinAll(lines)[k])
  {
    if lines != [] {
      WordsOfLines(cc, lines);
      LineIsSpaced(cc, lines[0]);
      LinesAreSpaced(cc, lines[1..]);
    }
    hide SingleSpaced;
    hide AreWords;
    hide Flatten;
  }

  /** The lines show the words of the text, which stand where the blanks end, laid out by
      first fit with single spaces between them; so they show all of the text but blanks. */
  ghost predicate IsWrapped(cc: CharClasses, width: string -> int, maxWidth: int, text: string, lines: seq<string>,
                            starts: seq<nat>, ends: seq<nat>, layout: seq<seq<string>>) {
    && lines == JoinAll(layout) && IsSplit(cc, text, starts, ends, Flatten(layout))
    && IsFirstFit(width, maxWidth, layout, Flatten(layout))
    && (forall k | 0 <= k < |lines| :: SingleSpaced(cc, lines[k]))
    && (cc.Valid() ==> NonBlank(cc, Glue(lines)) == NonBlank(cc, text))
  }

  lemma WrapIsWrapped(cc: CharClasses, width: string -> int, maxWidth: int, text: string)
    returns (starts: seq<nat>, ends: seq<nat>)
    ensures var layout := Wrap(width, maxWidth, Words(cc, text));
            IsWrapped(cc, width, maxWidth, text, JoinAll(layout), starts, ends, layout)
  {
    var ws := Words(cc, text);
    var layout := Wrap(width, maxWidth, ws);
    starts, ends := SplitExactly(cc, text);
    WrapIsLayout(width, maxWidth, ws);
    WrapIsTheFirstFit(width, maxWidth, ws, layout);
    LinesAreSpaced(cc, layout);
    if cc.Valid() {
      WrapKeepsText(cc, width, maxWidth, text);
    }
    hide SingleSpaced;
    hide IsFirstFit;
    hide IsSplit;
    hide NonBlank;
    hide Glue;
  }

  /** The loop: the lines are those of a layout of the words of the text by first fit. */
  method WrapTextLines(cc: CharClasses, width: string -> int, text: string, maxWidth: int)
    returns (lines: seq<string>, ghost starts: seq<nat>, ghost ends: seq<nat>, ghost layout: seq<seq<string>>)
    ensures lines == JoinAll(Wrap(width, maxWidth, Words(cc, text)))
    ensures IsWrapped(cc, width, maxWidth, text, lines, starts, ends, layout)
  {
    var words := Words(cc, text);
    starts, ends := WrapIsWrapped(cc, width, maxWidth, text);
    hide IsWrapped;
    layout := Wrap(width, maxWidth, words);
    if words == [] {
      lines := [];
      return;
    }
    hide JoinAll;
    hide WrapFrom;
    hide Words;
    forall w ensures Join([w]) == w {
    }
    hide Join;
    lines := [];
    var cur := words[0];
    ghost var line := [words[0]];
    ghost var all := JoinAll(Wrap(width, maxWidth, words));
    var k := 1;
    while k < |words|
      invariant 1 <= k <= |words|
      invariant line != [] && cur == Join(line)
      invariant lines + JoinAll(WrapFrom(width, maxWidth, line, words[k..])) == all
      decreases |words| - k
    {
      var word := words[k];
      PlaceWord(width, maxWidth, words, line, k);
      var candidate := cur + " " + word;
      if width(candidate) <= maxWidth {
        cur := candidate;
        line := line + [word];
      } else {
        ghost var tail := JoinAll(WrapFrom(width, maxWidth, [word], words[k + 1..]));
        assert lines + ([cur] + tail) == (lines + [cur]) + tail;
        lines := lines + [cur];
        cur := word;
        line := [word];
      }
      k := k + 1;
    }
    assert words[k..] == [];
    LastLine(width, maxWidth, line);
    lines := lines + [cur];
  }
}
