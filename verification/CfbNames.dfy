/** The order of directory entry names in a compound file. */
module CfbNames {

  /** A UTF-16 code unit, and text as code units. */
  type CodeUnit = n: int | 0 <= n < 0x1_0000
  type Units = seq<CodeUnit>

  /** A character of Unicode. */
  type Scalar = n: int | 0 <= n < 0x11_0000 && !(0xD800 <= n < 0xE000)

  predicate IsHigh(u: CodeUnit) {
    0xD800 <= u < 0xDC00
  }

  predicate IsLow(u: CodeUnit) {
    0xDC00 <= u < 0xE000
  }

  /** One half of a character that takes two code units. */
  predicate IsSurrogate(u: CodeUnit) {
    IsHigh(u) || IsLow(u)
  }

  /** The code units of a string: high and low surrogates come in pairs. */
  predicate WellFormed(s: Units) {
    if s == [] then true
    else if IsHigh(s[0]) then |s| >= 2 && IsLow(s[1]) && WellFormed(s[2..])
    else !IsLow(s[0]) && WellFormed(s[1..])
  }

  type Name = s: Units | WellFormed(s)

  /** The half at a place, if there is one, has its other half beside it. */
  predicate PairedAt(s: Units, k: nat)
    requires k < |s|
  {
    && (0xD800 <= s[k] < 0xDC00 ==> k + 1 < |s| && 0xDC00 <= s[k + 1] < 0xE000)
    && (0xDC00 <= s[k] < 0xE000 ==> 0 < k && 0xD800 <= s[k - 1] < 0xDC00)
  }

  /** A string of code units is well formed if and only if each high surrogate has a low
      one behind it and each low one a high one in front. */
  lemma {:induction false} WellFormedExactly(s: Units)
    ensures WellFormed(s) <==> forall k: nat | k < |s| :: PairedAt(s, k)
    decreases |s|
  {
    if s != [] && PairedAt(s, 0) {
      var n := if IsHigh(s[0]) then 2 else 1;
      var rest := s[n..];
      WellFormedExactly(rest);
      forall k: nat | k < |rest| ensures PairedAt(rest, k) <==> PairedAt(s, n + k) {
        assert rest[k] == s[n + k];
      }
      if WellFormed(rest) {
        forall k: nat | k < |s| ensures PairedAt(s, k) {
          assert k >= n ==> PairedAt(rest, k - n);
        }
      }
    }
  }

  function PairOf(high: CodeUnit, low: CodeUnit): Scalar
    requires IsHigh(high) && IsLow(low)
  {
    0x1_0000 + (high - 0xD800) * 0x400 + (low - 0xDC00)
  }

  /** The characters of a name. */
  function Chars(s: Name): seq<Scalar> {
    if s == [] then []
    else if IsHigh(s[0]) then [PairOf(s[0], s[1])] + Chars(s[2..])
    else [s[0]] + Chars(s[1..])
  }

  /** Upper-casing of a character. The table is that of Unicode; all that is assumed of
      it is that no character vanishes. */
  type Upcase = f: Scalar -> string | forall c: Scalar :: f(c) != ""
    witness (c: Scalar) => "X"

  /** What a code unit counts as in a comparison: half a character has no upper case. */
  function UpperUnit(up: Upcase, u: CodeUnit): string {
    if IsSurrogate(u) then "" else up(u)
  }

  datatype Order = Less | Equal | Greater

  function Reverse(o: Order): Order {
    match o
    case Less => Greater
    case Equal => Equal
    case Greater => Less
  }

  /** Order of strings: by the first difference, a prefix first. */
  function CompareText(a: string, b: string): Order {
    if a == "" then (if b == "" then Equal else Less)
    else if b == "" then Greater
    else if a[0] < b[0] then Less
    else if b[0] < a[0] then Greater
    else CompareText(a[1..], b[1..])
  }

  function CompareUnits(up: Upcase, a: Units, b: Units): Order
    requires |a| == |b|
  {
    if a == [] then Equal
    else if CompareText(UpperUnit(up, a[0]), UpperUnit(up, b[0])) != Equal then
      CompareText(UpperUnit(up, a[0]), UpperUnit(up, b[0]))
    else CompareUnits(up, a[1..], b[1..])
  }

  /** Shorter names first; names of one length by their upper-case forms. */
  function CompareNames(up: Upcase, a: Units, b: Units): Order {
    if |a| < |b| then Less
    else if |a| > |b| then Greater
    else CompareUnits(up, a, b)
  }

  // ----- A total order, up to case -----

  lemma {:induction false} TextLaws(a: string, b: string)
    ensures CompareText(b, a) == Reverse(CompareText(a, b))
    ensures CompareText(a, b) == Equal <==> a == b
  {
    if a != "" && b != "" && a[0] == b[0] {
      TextLaws(a[1..], b[1..]);
      assert a == [a[0]] + a[1..] && b == [b[0]] + b[1..];
    }
  }

  /** What two comparisons say of the outer names, if they say anything. */
  predicate Chains(o1: Order, o2: Order, o: Order) {
    (o1 == Equal ==> o == o2) && (o2 == Equal || o1 == o2 ==> o == o1)
  }

  lemma {:induction false} TextChains(a: string, b: string, c: string)
    ensures Chains(CompareText(a, b), CompareText(b, c), CompareText(a, c))
  {
    if a != "" && b != "" && c != "" && a[0] == b[0] == c[0] {
      TextChains(a[1..], b[1..], c[1..]);
    }
  }

  lemma {:induction false} UnitsReverse(up: Upcase, a: Units, b: Units)
    requires |a| == |b|
    ensures CompareUnits(up, b, a) == Reverse(CompareUnits(up, a, b))
  {
    if a != [] {
      TextLaws(UpperUnit(up, a[0]), UpperUnit(up, b[0]));
      UnitsReverse(up, a[1..], b[1..]);
    }
  }

  lemma {:induction false} UnitsChain(up: Upcase, a: Units, b: Units, c: Units)
    requires |a| == |b| == |c|
    ensures Chains(CompareUnits(up, a, b), CompareUnits(up, b, c), CompareUnits(up, a, c))
  {
    if a != [] {
      TextChains(UpperUnit(up, a[0]), UpperUnit(up, b[0]), UpperUnit(up, c[0]));
      TextLaws(UpperUnit(up, a[0]), UpperUnit(up, b[0]));
      TextLaws(UpperUnit(up, b[0]), UpperUnit(up, c[0]));
      UnitsChain(up, a[1..], b[1..], c[1..]);
    }
  }

  lemma NamesReverse(up: Upcase, a: Units, b: Units)
    ensures CompareNames(up, b, a) == Reverse(CompareNames(up, a, b))
  {
    if |a| == |b| {
      UnitsReverse(up, a, b);
    }
  }

  lemma NamesChain(up: Upcase, a: Units, b: Units, c: Units)
    ensures Chains(CompareNames(up, a, b), CompareNames(up, b, c), CompareNames(up, a, c))
  {
    if |a| == |b| == |c| {
      UnitsChain(up, a, b, c);
    }
  }

  // ----- The order, said by positions -----

  /** The strings are alike up to place `k`, where the first one ends or has the smaller
      character. */
  predicate SmallerAt(a: string, b: string, k: nat) {
    && k <= |a| && k < |b| && (k < |a| ==> a[k] < b[k])
    && forall j | 0 <= j < k :: a[j] == b[j]
  }

  ghost predicate TextBefore(a: string, b: string) {
    exists k: nat :: SmallerAt(a, b, k)
  }

  /** The two code units are halves of some characters, or characters with the same
      upper case. */
  predicate SameUnit(up: Upcase, x: CodeUnit, y: CodeUnit) {
    if IsSurrogate(x) then IsSurrogate(y) else !IsSurrogate(y) && up(x) == up(y)
  }

  /** Half a character comes before any whole one; two whole ones by their upper case. */
  ghost predicate UnitBefore(up: Upcase, x: CodeUnit, y: CodeUnit) {
    !IsSurrogate(y) && (IsSurrogate(x) || TextBefore(up(x), up(y)))
  }

  /** The first place at which the units differ up to case is `k`, and the first name's
      comes before the second's there. */
  ghost predicate FirstSmallerUnit(up: Upcase, a: Units, b: Units, k: nat) {
    && k < |a| == |b| && UnitBefore(up, a[k], b[k])
    && forall j | 0 <= j < k :: SameUnit(up, a[j], b[j])
  }

  /** A shorter name comes first; of two of one length, the one that is smaller where
      they first differ up to case. */
  ghost predicate NameBefore(up: Upcase, a: Units, b: Units) {
    |a| < |b| || exists k: nat :: FirstSmallerUnit(up, a, b, k)
  }

  ghost predicate SameUnits(up: Upcase, a: Units, b: Units) {
    |a| == |b| && forall k | 0 <= k < |a| :: SameUnit(up, a[k], b[k])
  }

  lemma {:induction false} TextOrder(a: string, b: string)
    ensures CompareText(a, b) == Less <==> TextBefore(a, b)
  {
    if a == "" && b != "" {
      assert SmallerAt(a, b, 0);
    } else if a != "" && b != "" && a[0] != b[0] {
      if a[0] < b[0] {
        assert SmallerAt(a, b, 0);
      }
    } else if a != "" && b != "" {
      TextOrder(a[1..], b[1..]);
      assert a == [a[0]] + a[1..] && b == [b[0]] + b[1..];
      if TextBefore(a[1..], b[1..]) {
        var k: nat :| SmallerAt(a[1..], b[1..], k);
        assert SmallerAt(a, b, k + 1) by {
          assert forall j | 1 <= j < k + 1 :: a[j] == a[1..][j - 1] && b[j] == b[1..][j - 1];
        }
      }
      if TextBefore(a, b) {
        var k: nat :| SmallerAt(a, b, k);
        assert SmallerAt(a[1..], b[1..], k - 1);
      }
    }
  }

  lemma UnitOrder(up: Upcase, x: CodeUnit, y: CodeUnit)
    ensures CompareText(UpperUnit(up, x), UpperUnit(up, y)) == Less <==> UnitBefore(up, x, y)
    ensures CompareText(UpperUnit(up, x), UpperUnit(up, y)) == Equal <==> SameUnit(up, x, y)
  {
    TextOrder(UpperUnit(up, x), UpperUnit(up, y));
    TextLaws(UpperUnit(up, x), UpperUnit(up, y));
    hide CompareText;
    if IsSurrogate(x) && !IsSurrogate(y) {
      assert SmallerAt("", up(y), 0);
    }
  }

  lemma UnitsOrderStep(up: Upcase, a: Units, b: Units)
    requires |a| == |b| > 0 && !(UnitBefore(up, a[0], b[0]) && SameUnit(up, a[0], b[0]))
    ensures (exists k: nat :: FirstSmallerUnit(up, a, b, k)) <==>
              || UnitBefore(up, a[0], b[0])
              || (SameUnit(up, a[0], b[0]) && exists k: nat :: FirstSmallerUnit(up, a[1..], b[1..], k))
    ensures SameUnits(up, a, b) <==> SameUnit(up, a[0], b[0]) && SameUnits(up, a[1..], b[1..])
  {
    hide SameUnit;
    hide UnitBefore;
    assert forall j | 1 <= j < |a| :: a[j] == a[1..][j - 1] && b[j] == b[1..][j - 1];
    if UnitBefore(up, a[0], b[0]) {
      assert FirstSmallerUnit(up, a, b, 0);
    }
    if k: nat :| FirstSmallerUnit(up, a[1..], b[1..], k) && SameUnit(up, a[0], b[0]) {
      assert FirstSmallerUnit(up, a, b, k + 1);
    }
    if k: nat :| FirstSmallerUnit(up, a, b, k) && k > 0 {
      assert FirstSmallerUnit(up, a[1..], b[1..], k - 1);
    }
  }

  lemma {:induction false} UnitsOrder(up: Upcase, a: Units, b: Units)
    requires |a| == |b|
    ensures CompareUnits(up, a, b) == Less <==> exists k: nat :: FirstSmallerUnit(up, a, b, k)
    ensures CompareUnits(up, a, b) == Equal <==> SameUnits(up, a, b)
  {
    if a != [] {
      UnitOrder(up, a[0], b[0]);
      UnitsOrder(up, a[1..], b[1..]);
      hide CompareText;
      hide UpperUnit;
      hide SameUnit;
      hide UnitBefore;
      UnitsOrderStep(up, a, b);
      hide FirstSmallerUnit;
      hide SameUnits;
    }
  }

  /** A name comes first if and only if it is shorter, or of the same length and smaller at
      the first place at which the upper-case forms differ; two are equal exactly when they
      have one length and nowhere differ up to case. */
  lemma NamesInOrderExactly(up: Upcase, a: Units, b: Units)
    ensures CompareNames(up, a, b) == Less <==> NameBefore(up, a, b)
    ensures CompareNames(up, a, b) == Greater <==> NameBefore(up, b, a)
    ensures CompareNames(up, a, b) == Equal <==> SameUnits(up, a, b)
  {
    NamesReverse(up, a, b);
    if |a| == |b| {
      UnitsOrder(up, a, b);
      UnitsOrder(up, b, a);
    }
    hide FirstSmallerUnit;
  }

  method CompareCfbNames(up: Upcase, a: Units, b: Units) returns (o: Order)
    ensures o == CompareNames(up, a, b)
    ensures o == Less <==> NameBefore(up, a, b)
    ensures o == Greater <==> NameBefore(up, b, a)
    ensures o == Equal <==> SameUnits(up, a, b)
  {
    NamesInOrderExactly(up, a, b);
    hide NameBefore;
    hide SameUnits;
    if |a| != |b| {
      return if |a| < |b| then Less else Greater;
    }
    assert a[0..] == a && b[0..] == b;
    for k := 0 to |a|
      invariant CompareUnits(up, a[k..], b[k..]) == CompareUnits(up, a, b)
    {
      assert a[k..][1..] == a[k + 1..] && b[k..][1..] == b[k + 1..];
      var charOrder := CompareText(UpperUnit(up, a[k]), UpperUnit(up, b[k]));
      if charOrder != Equal {
        return charOrder;
      }
    }
    o := Equal;
  }

  /** Names compare as a total order, in which two are equal exactly when they have the
      same length and at each place both halves of some characters or characters with
      the same upper case. */
  lemma NamesAreTotallyOrdered(up: Upcase, a: Units, b: Units, c: Units)
    ensures CompareNames(up, b, a) == Reverse(CompareNames(up, a, b))
    ensures Chains(CompareNames(up, a, b), CompareNames(up, b, c), CompareNames(up, a, c))
    ensures CompareNames(up, a, b) == Equal <==> |a| == |b| && forall k | 0 <= k < |a| :: SameUnit(up, a[k], b[k])
  {
    NamesReverse(up, a, b);
    NamesChain(up, a, b, c);
    if |a| == |b| {
      UnitsOrder(up, a, b);
    }
  }

  // ----- Equal, and the same up to case -----

  /** Character by character, the names have the same upper case. */
  ghost predicate SameUpToCase(up: Upcase, a: Name, b: Name) {
    var x, y := Chars(a), Chars(b);
    |x| == |y| && forall k | 0 <= k < |x| :: up(x[k]) == up(y[k])
  }

  predicate HoldsPair(s: Units, k: nat) {
    k + 1 < |s| && IsHigh(s[k]) && IsLow(s[k + 1])
  }

  /** Where both names hold a character of two code units, these have the same upper case. */
  ghost predicate PairsAgree(up: Upcase, a: Units, b: Units) {
    forall k: nat | HoldsPair(a, k) && HoldsPair(b, k) ::
      up(PairOf(a[k], a[k + 1])) == up(PairOf(b[k], b[k + 1]))
  }

  /** Characters in front of the names that agree do not matter. */
  lemma PairsAgreeBehind(up: Upcase, a: Units, b: Units, n: nat)
    requires n <= |a| && n <= |b| && (n == 1 || n == 2) && (n == 1 ==> !IsHigh(a[0])) && (n == 2 ==> IsLow(a[1]))
    requires HoldsPair(a, 0) && HoldsPair(b, 0) ==> up(PairOf(a[0], a[1])) == up(PairOf(b[0], b[1]))
    ensures PairsAgree(up, a[n..], b[n..]) <==> PairsAgree(up, a, b)
  {
    if PairsAgree(up, a, b) {
      forall k: nat | HoldsPair(a[n..], k) && HoldsPair(b[n..], k)
        ensures up(PairOf(a[n..][k], a[n..][k + 1])) == up(PairOf(b[n..][k], b[n..][k + 1]))
      {
        assert HoldsPair(a, n + k) && HoldsPair(b, n + k);
      }
    }
    if PairsAgree(up, a[n..], b[n..]) {
      forall k: nat | HoldsPair(a, k) && HoldsPair(b, k)
        ensures up(PairOf(a[k], a[k + 1])) == up(PairOf(b[k], b[k + 1]))
      {
        if k >= n {
          assert HoldsPair(a[n..], k - n) && HoldsPair(b[n..], k - n);
        }
      }
    }
  }

  lemma FirstPairMatters(up: Upcase, a: Units, b: Units)
    requires PairsAgree(up, a, b) && HoldsPair(a, 0) && HoldsPair(b, 0)
    ensures up(PairOf(a[0], a[1])) == up(PairOf(b[0], b[1]))
  {
  }

  /** The first characters agree, and so do the rest. */
  lemma SameUpToCaseStep(up: Upcase, a: Name, b: Name, x: Scalar, y: Scalar, rest: Name, rest': Name)
    requires Chars(a) == [x] + Chars(rest) && Chars(b) == [y] + Chars(rest')
    ensures SameUpToCase(up, a, b) <==> up(x) == up(y) && SameUpToCase(up, rest, rest')
  {
    var c, d, r, r' := Chars(a), Chars(b), Chars(rest), Chars(rest');
    assert c[0] == x && d[0] == y;
    assert forall k | 0 <= k < |r| :: c[k + 1] == r[k];
    assert forall k | 0 <= k < |r'| :: d[k + 1] == r'[k];
    if SameUpToCase(up, a, b) {
      forall k | 0 <= k < |r| ensures up(r[k]) == up(r'[k]) {
        assert up(c[k + 1]) == up(d[k + 1]);
      }
    }
    hide Chars;
  }

  lemma BehindIsEqual(up: Upcase, a: Name, b: Name, n: nat)
    requires CompareNames(up, a, b) == Equal && a != [] && n == if IsHigh(a[0]) then 2 else 1
    ensures n <= |a| == |b| && WellFormed(a[n..]) && WellFormed(b[n..])
    ensures IsHigh(a[0]) <==> IsHigh(b[0])
    ensures CompareNames(up, a[n..], b[n..]) == Equal
  {
    NamesAreTotallyOrdered(up, a, b, b);
    assert SameUnit(up, a[0], b[0]);
    UnitsOrder(up, a[n..], b[n..]);
    assert forall k | 0 <= k < |a[n..]| :: a[n..][k] == a[n + k] && b[n..][k] == b[n + k];
  }

  lemma {:induction false} EqualNamesAlign(up: Upcase, a: Name, b: Name)
    requires CompareNames(up, a, b) == Equal
    ensures SameUpToCase(up, a, b) <==> PairsAgree(up, a, b)
    decreases |a|
  {
    NamesAreTotallyOrdered(up, a, b, b);
    if a != [] {
      var n := if IsHigh(a[0]) then 2 else 1;
      assert SameUnit(up, a[0], b[0]);
      BehindIsEqual(up, a, b, n);
      EqualNamesAlign(up, a[n..], b[n..]);
      if n == 2 {
        SameUpToCaseStep(up, a, b, PairOf(a[0], a[1]), PairOf(b[0], b[1]), a[2..], b[2..]);
      } else {
        SameUpToCaseStep(up, a, b, a[0], b[0], a[1..], b[1..]);
      }
      hide SameUpToCase;
      hide CompareNames;
      if HoldsPair(a, 0) && PairsAgree(up, a, b) {
        FirstPairMatters(up, a, b);
      }
      if !HoldsPair(a, 0) || up(PairOf(a[0], a[1])) == up(PairOf(b[0], b[1])) {
        PairsAgreeBehind(up, a, b, n);
      }
      hide PairsAgree;
    }
  }

  /** Names that compare equal are the same up to case if and only if, where both hold
      a character of two code units, these are the same up to case; in particular if no
      place holds two different halves. */
  lemma EqualIsSameUpToCaseExactly(up: Upcase, a: Name, b: Name)
    requires CompareNames(up, a, b) == Equal
    ensures SameUpToCase(up, a, b) <==> PairsAgree(up, a, b)
    ensures (forall k | 0 <= k < |a| && IsSurrogate(a[k]) :: a[k] == b[k]) ==> SameUpToCase(up, a, b)
  {
    NamesAreTotallyOrdered(up, a, b, b);
    EqualNamesAlign(up, a, b);
    hide SameUpToCase;
  }

  const GRINNING: Name := [0xD83D, 0xDE00]
  const BEAMING: Name := [0xD83D, 0xDE01]

  /** Two characters that have nothing to do with each other, of two code units each,
      compare equal as names, whatever the upper-case table. */
  lemma DifferentNamesThatAreEqual(up: Upcase)
    ensures CompareNames(up, GRINNING, BEAMING) == Equal
    ensures SameUpToCase(up, GRINNING, BEAMING) <==> up(0x1_F600) == up(0x1_F601)
  {
    UnitsOrder(up, GRINNING, BEAMING);
    EqualIsSameUpToCaseExactly(up, GRINNING, BEAMING);
    assert HoldsPair(GRINNING, 0) && HoldsPair(BEAMING, 0);
    assert PairsAgree(up, GRINNING, BEAMING) <==> up(0x1_F600) == up(0x1_F601);
  }
}
