/** Red-black trees of directory entries as values, seen whole or from a place inside. */
module SiblingTrees {

  type StreamId = n: int | 0 <= n < 0x1_0000_0000

  const NO_STREAM: StreamId := 0xFFFF_FFFF
  const MAX_VALID: StreamId := 0xFFFF_FFFA

  datatype Color = Red | Black

  datatype Tree = Leaf | Node(left: Tree, id: StreamId, color: Color, right: Tree)

  /** The tree around a place, from the place upwards: the place is the left or the
      right child of entry `id`, whose other child is the subtree given. */
  datatype Place =
    | Root
    | LeftOf(up: Place, id: StreamId, color: Color, right: Tree)
    | RightOf(up: Place, left: Tree, id: StreamId, color: Color)

  function Plug(place: Place, t: Tree): Tree {
    match place
    case Root => t
    case LeftOf(up, id, color, right) => Plug(up, Node(t, id, color, right))
    case RightOf(up, left, id, color) => Plug(up, Node(left, id, color, t))
  }

  function Depth(place: Place): nat {
    if place.Root? then 0 else 1 + Depth(place.up)
  }

  // ----- Order -----

  function Inorder(t: Tree): seq<StreamId> {
    match t
    case Leaf => []
    case Node(left, id, _, right) => Inorder(left) + [id] + Inorder(right)
  }

  /** The entries in front of a place and behind it, in order. */
  function Before(place: Place): seq<StreamId> {
    match place
    case Root => []
    case LeftOf(up, _, _, _) => Before(up)
    case RightOf(up, left, id, _) => Before(up) + Inorder(left) + [id]
  }

  function After(place: Place): seq<StreamId> {
    match place
    case Root => []
    case LeftOf(up, id, _, right) => [id] + Inorder(right) + After(up)
    case RightOf(up, _, _, _) => After(up)
  }

  lemma {:induction false} InorderOfPlug(place: Place, t: Tree)
    ensures Inorder(Plug(place, t)) == Before(place) + Inorder(t) + After(place)
  {
    match place
    case Root =>
    case LeftOf(up, id, color, right) => InorderOfPlug(up, Node(t, id, color, right));
    case RightOf(up, left, id, color) => InorderOfPlug(up, Node(left, id, color, t));
  }

  /** How often an entry occurs in a tree, and around a place. */
  function Count(t: Tree, i: StreamId): nat {
    match t
    case Leaf => 0
    case Node(left, id, _, right) => Count(left, i) + (if id == i then 1 else 0) + Count(right, i)
  }

  function CountAround(place: Place, i: StreamId): nat {
    match place
    case Root => 0
    case LeftOf(up, id, _, right) => (if id == i then 1 else 0) + Count(right, i) + CountAround(up, i)
    case RightOf(up, left, id, _) => Count(left, i) + (if id == i then 1 else 0) + CountAround(up, i)
  }

  lemma {:induction false} CountIsOccurrences(t: Tree, i: StreamId)
    ensures multiset(Inorder(t))[i] == Count(t, i)
    ensures i in Inorder(t) <==> Count(t, i) > 0
  {
    if t.Node? {
      CountIsOccurrences(t.left, i);
      CountIsOccurrences(t.right, i);
    }
  }

  /** No entry occurs twice. */
  ghost predicate Distinct(place: Place, t: Tree) {
    forall i: StreamId :: Count(t, i) + CountAround(place, i) <= 1
  }

  // ----- Colours and black heights -----

  predicate IsRed(t: Tree) {
    t.Node? && t.color == Red
  }

  /** No red entry has a red child. */
  predicate RedOk(t: Tree) {
    t.Node? ==>
      && RedOk(t.left) && RedOk(t.right)
      && (t.color == Red ==> !IsRed(t.left) && !IsRed(t.right))
  }

  function Weight(color: Color): nat {
    if color == Black then 1 else 0
  }

  /** Every way down passes the same number of black entries. */
  predicate HasHeight(t: Tree, h: nat) {
    match t
    case Leaf => h == 0
    case Node(left, _, color, right) =>
      h >= Weight(color) && HasHeight(left, h - Weight(color)) && HasHeight(right, h - Weight(color))
  }

  ghost predicate IsRedBlack(t: Tree) {
    RedOk(t) && !IsRed(t) && exists h: nat :: HasHeight(t, h)
  }

  predicate UnderRed(place: Place) {
    !place.Root? && place.color == Red
  }

  /** The same of the tree around a place, whose topmost entry is black. */
  predicate RedOkAround(place: Place) {
    match place
    case Root => true
    case LeftOf(up, _, color, right) =>
      RedOk(right) && RedOkAround(up) && (color == Red ==> !IsRed(right) && !up.Root? && !UnderRed(up))
    case RightOf(up, left, _, color) =>
      RedOk(left) && RedOkAround(up) && (color == Red ==> !IsRed(left) && !up.Root? && !UnderRed(up))
  }

  /** A tree of black height `h` fits the place. */
  predicate Fits(place: Place, h: nat) {
    match place
    case Root => true
    case LeftOf(up, _, color, right) => HasHeight(right, h) && Fits(up, h + Weight(color))
    case RightOf(up, left, _, color) => HasHeight(left, h) && Fits(up, h + Weight(color))
  }

  /** A red-black tree, but for the place itself, where red may meet red and the whole
      tree may be red. */
  predicate AllButHere(place: Place, t: Tree, h: nat) {
    RedOk(t) && HasHeight(t, h) && RedOkAround(place) && Fits(place, h)
  }

  /** Not even at the place. */
  predicate FineHere(place: Place, t: Tree) {
    IsRed(t) ==> !place.Root? && !UnderRed(place)
  }

  lemma {:induction false} PlugIsRedBlack(place: Place, t: Tree, h: nat)
    requires AllButHere(place, t, h) && FineHere(place, t)
    ensures IsRedBlack(Plug(place, t))
    decreases place
  {
    match place
    case Root =>
    case LeftOf(up, id, color, right) => PlugIsRedBlack(up, Node(t, id, color, right), h + Weight(color));
    case RightOf(up, left, id, color) => PlugIsRedBlack(up, Node(left, id, color, t), h + Weight(color));
  }

  /** Going down one step keeps a red-black tree's promise. */
  lemma DownIsFine(place: Place, t: Tree, h: nat)
    requires t.Node? && AllButHere(place, t, h) && FineHere(place, t)
    ensures var l, r := LeftOf(place, t.id, t.color, t.right), RightOf(place, t.left, t.id, t.color);
            && h >= Weight(t.color)
            && AllButHere(l, t.left, h - Weight(t.color)) && FineHere(l, t.left)
            && AllButHere(r, t.right, h - Weight(t.color)) && FineHere(r, t.right)
  {
  }

  // ----- Height -----

  function Height(t: Tree): nat {
    if t.Leaf? then 0 else 1 + if Height(t.left) > Height(t.right) then Height(t.left) else Height(t.right)
  }

  function Power(n: nat): nat {
    if n == 0 then 1 else 2 * Power(n - 1)
  }

  lemma {:induction false} HeightBounds(t: Tree, h: nat)
    requires RedOk(t) && HasHeight(t, h)
    ensures Height(t) <= 2 * h + (if IsRed(t) then 1 else 0)
    ensures Power(h) <= |Inorder(t)| + 1
  {
    if t.Node? {
      HeightBounds(t.left, h - Weight(t.color));
      HeightBounds(t.right, h - Weight(t.color));
    }
  }

  lemma {:induction false} PowerGrows(a: nat, b: nat)
    requires a <= b
    ensures Power(a) <= Power(b)
  {
    if a < b {
      PowerGrows(a, b - 1);
    }
  }

  /** A red-black tree is no deeper than twice the logarithm of its size. */
  lemma RedBlackIsShallow(t: Tree)
    requires IsRedBlack(t)
    ensures Power((Height(t) + 1) / 2) <= |Inorder(t)| + 1
  {
    var h: nat :| HasHeight(t, h);
    HeightBounds(t, h);
    PowerGrows((Height(t) + 1) / 2, h);
  }

  // ----- Repairing red under red -----

  /** The parts of a tree around red under red: what hangs below the parent and the
      grandparent, and the place of the grandparent. */
  predicate PartsFit(place: Place, t: Tree, sibling: Tree, uncle: Tree, h: nat) {
    && RedOk(t) && HasHeight(t, h)
    && RedOk(sibling) && HasHeight(sibling, h) && !IsRed(sibling)
    && RedOk(uncle) && HasHeight(uncle, h)
    && RedOkAround(place) && Fits(place, h + 1)
  }

  lemma TakeApart(place: Place, t: Tree, p: StreamId, sibling: Tree, gp: StreamId, uncle: Tree, h: nat)
    ensures AllButHere(LeftOf(LeftOf(place, gp, Black, uncle), p, Red, sibling), t, h)
            <==> PartsFit(place, t, sibling, uncle, h)
    ensures AllButHere(RightOf(LeftOf(place, gp, Black, uncle), sibling, p, Red), t, h)
            <==> PartsFit(place, t, sibling, uncle, h)
    ensures AllButHere(LeftOf(RightOf(place, uncle, gp, Black), p, Red, sibling), t, h)
            <==> PartsFit(place, t, sibling, uncle, h)
    ensures AllButHere(RightOf(RightOf(place, uncle, gp, Black), sibling, p, Red), t, h)
            <==> PartsFit(place, t, sibling, uncle, h)
  {
    var l, r := LeftOf(place, gp, Black, uncle), RightOf(place, uncle, gp, Black);
    assert RedOkAround(l) == RedOkAround(r) == (RedOk(uncle) && RedOkAround(place));
    assert Fits(l, h) == Fits(r, h) == (HasHeight(uncle, h) && Fits(place, h + 1));
    assert !UnderRed(l) && !UnderRed(r);
    hide RedOk;
    hide HasHeight;
    hide IsRed;
  }

  /** A parent turned black over its children, with a red grandparent over a black uncle
      on the other side. */
  lemma RaisedFits(t: Tree, p: StreamId, sibling: Tree, uncle: Tree, h: nat)
    requires RedOk(t) && HasHeight(t, h) && RedOk(sibling) && HasHeight(sibling, h)
    requires RedOk(uncle) && HasHeight(uncle, h) && uncle.Node? && uncle.color == Red
    ensures var raised := uncle.(color := Black);
            && RedOk(raised) && HasHeight(raised, h + 1) && !IsRed(raised)
            && RedOk(Node(t, p, Black, sibling)) && HasHeight(Node(t, p, Black, sibling), h + 1)
            && RedOk(Node(sibling, p, Black, t)) && HasHeight(Node(sibling, p, Black, t), h + 1)
  {
  }

  lemma RedOver(l: Tree, id: StreamId, r: Tree, h: nat)
    requires RedOk(l) && RedOk(r) && !IsRed(l) && !IsRed(r) && HasHeight(l, h) && HasHeight(r, h)
    ensures RedOk(Node(l, id, Red, r)) && HasHeight(Node(l, id, Red, r), h)
  {
  }

  /** A red entry under a red parent with a red uncle: the colours move up. */
  lemma RecolorMovesUp(place: Place, t: Tree, p: StreamId, sibling: Tree, gp: StreamId, uncle: Tree, h: nat)
    requires uncle.Node? && uncle.color == Red && PartsFit(place, t, sibling, uncle, h)
    ensures var raised := uncle.(color := Black);
            && AllButHere(place, Node(Node(t, p, Black, sibling), gp, Red, raised), h + 1)
            && AllButHere(place, Node(Node(sibling, p, Black, t), gp, Red, raised), h + 1)
            && AllButHere(place, Node(raised, gp, Red, Node(t, p, Black, sibling)), h + 1)
            && AllButHere(place, Node(raised, gp, Red, Node(sibling, p, Black, t)), h + 1)
  {
    RaisedFits(t, p, sibling, uncle, h);
    var raised, l, r := uncle.(color := Black), Node(t, p, Black, sibling), Node(sibling, p, Black, t);
    RedOver(l, gp, raised, h + 1);
    RedOver(r, gp, raised, h + 1);
    RedOver(raised, gp, l, h + 1);
    RedOver(raised, gp, r, h + 1);
    hide RedOk;
    hide HasHeight;
  }

  /** With a black uncle, an outer entry: its parent takes the grandparent's place. */
  lemma OuterRotates(place: Place, t: Tree, p: StreamId, sibling: Tree, gp: StreamId, uncle: Tree, h: nat)
    requires !IsRed(uncle) && PartsFit(place, t, sibling, uncle, h)
    ensures AllButHere(LeftOf(place, p, Black, Node(sibling, gp, Red, uncle)), t, h)
    ensures AllButHere(RightOf(place, Node(uncle, gp, Red, sibling), p, Black), t, h)
  {
    RedOver(sibling, gp, uncle, h);
    RedOver(uncle, gp, sibling, h);
    hide RedOk;
    hide HasHeight;
    hide IsRed;
  }

  /** An inner entry `n` over `l` and `r` is first turned outwards, and then takes the
      grandparent's place itself. */
  lemma InnerRotates(place: Place, l: Tree, n: StreamId, r: Tree, p: StreamId, sibling: Tree, gp: StreamId,
                     uncle: Tree, h: nat)
    requires !IsRed(uncle) && PartsFit(place, Node(l, n, Red, r), sibling, uncle, h)
    ensures AllButHere(LeftOf(place, n, Black, Node(r, gp, Red, uncle)), Node(sibling, p, Red, l), h)
    ensures AllButHere(RightOf(place, Node(uncle, gp, Red, l), n, Black), Node(r, p, Red, sibling), h)
  {
    RedOver(r, gp, uncle, h);
    RedOver(uncle, gp, l, h);
    RedOver(sibling, p, l, h);
    RedOver(r, p, sibling, h);
    hide RedOk;
    hide HasHeight;
    hide IsRed;
  }
}
