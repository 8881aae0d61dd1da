/** The directory's sibling tree as the writer keeps it: links between the entries of an
    array and parent links in another, changed in place by rotations and recolouring. */
module DirectoryLinks {
  import opened Options
  import opened CfbNames
  import opened SiblingTrees

  datatype Entry = Entry(name: Name, color: Color, left: StreamId, right: StreamId)

  predicate IsNone(id: StreamId) {
    id == NO_STREAM
  }

  predicate IsValid(id: StreamId) {
    id <= MAX_VALID
  }

  function RootId(t: Tree): StreamId {
    if t.Leaf? then NO_STREAM else t.id
  }

  function ParentId(place: Place): StreamId {
    if place.Root? then NO_STREAM else place.id
  }

  /** The root of a whole tree, given the root of what stands at a place in it. */
  function TopId(place: Place, id: StreamId): StreamId {
    if place.Root? then id else TopId(place.up, place.id)
  }

  // ----- Arrays that hold a tree -----

  /** Child links, colours and parent links of the entries are those of the tree. */
  predicate Linked(e: seq<Entry>, par: seq<StreamId>, t: Tree, parent: StreamId) {
    match t
    case Leaf => true
    case Node(left, id, color, right) =>
      && IsValid(id) && id < |e| && id < |par|
      && e[id].color == color && e[id].left == RootId(left) && e[id].right == RootId(right)
      && par[id] == parent
      && Linked(e, par, left, id) && Linked(e, par, right, id)
  }

  /** The same around a place at which entry `child` stands. */
  predicate LinkedAround(e: seq<Entry>, par: seq<StreamId>, place: Place, child: StreamId) {
    if place.Root? then true
    else
      && IsValid(place.id) && place.id < |e| && place.id < |par|
      && e[place.id].color == place.color && par[place.id] == ParentId(place.up)
      && (if place.LeftOf?
          then e[place.id].left == child && e[place.id].right == RootId(place.right)
               && Linked(e, par, place.right, place.id)
          else e[place.id].right == child && e[place.id].left == RootId(place.left)
               && Linked(e, par, place.left, place.id))
      && LinkedAround(e, par, place.up, place.id)
  }

  /** The arrays hold the tree with `t` at the place, and `root` is its root. */
  ghost predicate Held(e: seq<Entry>, par: seq<StreamId>, place: Place, t: Tree, root: StreamId) {
    && |e| == |par| && Distinct(place, t)
    && Linked(e, par, t, ParentId(place)) && LinkedAround(e, par, place, RootId(t))
    && root == TopId(place, RootId(t))
  }

  lemma RootCounts(t: Tree)
    ensures t.Node? ==> Count(t, t.id) > 0
  {
  }

  lemma {:induction false} LinkedFrame(e: seq<Entry>, par: seq<StreamId>, e': seq<Entry>, par': seq<StreamId>, t: Tree,
                                       parent: StreamId, parent': StreamId)
    requires Linked(e, par, t, parent) && |e'| == |e| && |par'| == |par|
    requires forall i: StreamId :: Count(t, i) <= 1
    requires forall i: StreamId | Count(t, i) > 0 && i < |e| && i < |par| ::
               e'[i] == e[i] && (i != RootId(t) ==> par'[i] == par[i])
    requires t.Node? ==> par'[t.id] == parent'
    ensures Linked(e', par', t, parent')
  {
    if t.Node? {
      assert Count(t, t.id) > 0;
      assert forall i: StreamId :: Count(t, i) == Count(t.left, i) + (if t.id == i then 1 else 0) + Count(t.right, i);
      RootCounts(t.left);
      RootCounts(t.right);
      LinkedFrame(e, par, e', par', t.left, t.id, t.id);
      LinkedFrame(e, par, e', par', t.right, t.id, t.id);
    }
  }

  lemma {:induction false} AroundFrame(e: seq<Entry>, par: seq<StreamId>, e': seq<Entry>, par': seq<StreamId>,
                                       place: Place, child: StreamId)
    requires LinkedAround(e, par, place, child) && |e'| == |e| && |par'| == |par|
    requires forall i: StreamId :: CountAround(place, i) <= 1
    requires forall i: StreamId | CountAround(place, i) > 0 && i < |e| && i < |par| :: e'[i] == e[i] && par'[i] == par[i]
    ensures LinkedAround(e', par', place, child)
    decreases place
  {
    if !place.Root? {
      var side := if place.LeftOf? then place.right else place.left;
      assert forall i: StreamId ::
          CountAround(place, i) == Count(side, i) + (if place.id == i then 1 else 0) + CountAround(place.up, i);
      assert CountAround(place, place.id) > 0;
      RootCounts(side);
      LinkedFrame(e, par, e', par', side, place.id, place.id);
      AroundFrame(e, par, e', par', place.up, place.id);
    }
  }

  lemma SideCounts(place: Place, side: Tree)
    requires !place.Root? && side == (if place.LeftOf? then place.right else place.left)
    ensures forall i: StreamId ::
              CountAround(place, i) == Count(side, i) + (if place.id == i then 1 else 0) + CountAround(place.up, i)
  {
  }

  lemma SideMoved(e: seq<Entry>, par: seq<StreamId>, e': seq<Entry>, par': seq<StreamId>, place: Place,
                  child: StreamId, side: Tree)
    requires !place.Root? && side == (if place.LeftOf? then place.right else place.left)
    requires LinkedAround(e, par, place, child) && |e'| == |e| && |par'| == |par|
    requires forall i: StreamId :: CountAround(place, i) <= 1
    requires forall i: StreamId | CountAround(place, i) > 0 && i < |e| && i < |par| && i != place.id ::
               e'[i] == e[i] && par'[i] == par[i]
    ensures Linked(e', par', side, place.id)
  {
    SideCounts(place, side);
    RootCounts(side);
    hide Count;
    hide CountAround;
    LinkedFrame(e, par, e', par', side, place.id, place.id);
  }

  lemma UpMoved(e: seq<Entry>, par: seq<StreamId>, e': seq<Entry>, par': seq<StreamId>, place: Place,
                child: StreamId, side: Tree)
    requires !place.Root? && side == (if place.LeftOf? then place.right else place.left)
    requires LinkedAround(e, par, place, child) && |e'| == |e| && |par'| == |par|
    requires forall i: StreamId :: CountAround(place, i) <= 1
    requires forall i: StreamId | CountAround(place, i) > 0 && i < |e| && i < |par| && i != place.id ::
               e'[i] == e[i] && par'[i] == par[i]
    ensures LinkedAround(e', par', place.up, place.id)
  {
    SideCounts(place, side);
    hide Count;
    hide CountAround;
    hide Linked;
    AroundFrame(e, par, e', par', place.up, place.id);
  }

  lemma AroundMoved(e: seq<Entry>, par: seq<StreamId>, e': seq<Entry>, par': seq<StreamId>, place: Place,
                    child: StreamId, child': StreamId)
    requires LinkedAround(e, par, place, child) && |e'| == |e| && |par'| == |par|
    requires forall i: StreamId :: CountAround(place, i) <= 1
    requires !place.Root? ==>
               && e'[place.id] == (if place.LeftOf? then e[place.id].(left := child') else e[place.id].(right := child'))
               && par'[place.id] == par[place.id]
    requires forall i: StreamId | CountAround(place, i) > 0 && i < |e| && i < |par| && i != ParentId(place) ::
               e'[i] == e[i] && par'[i] == par[i]
    ensures LinkedAround(e', par', place, child')
  {
    if !place.Root? {
      var side := if place.LeftOf? then place.right else place.left;
      SideMoved(e, par, e', par', place, child, side);
      UpMoved(e, par, e', par', place, child, side);
      hide Count;
      hide CountAround;
      hide Linked;
    }
  }

  lemma PlaceIsLinked(e: seq<Entry>, par: seq<StreamId>, place: Place, child: StreamId)
    requires LinkedAround(e, par, place, child)
    ensures place.Root? || (IsValid(place.id) && place.id < |e| && place.id < |par| && CountAround(place, place.id) > 0)
  {
  }

  /** What a rotation to the left does to the tree. */
  function TurnLeft(t: Tree): Tree
    requires t.Node? && t.right.Node?
  {
    Node(Node(t.left, t.id, t.color, t.right.left), t.right.id, t.right.color, t.right.right)
  }

  /** The links a rotation to the left sets, entry by entry. */
  ghost predicate LeftTurnLinks(e: seq<Entry>, par: seq<StreamId>, e': seq<Entry>, par': seq<StreamId>, place: Place,
                               t: Tree)
    requires t.Node? && t.right.Node?
  {
    var x, y, b, p := t.id, t.right.id, t.right.left, ParentId(place);
    && |e| == |par| == |e'| == |par'| && x < |e| && y < |e|
    && e'[x] == e[x].(right := RootId(b)) && par'[x] == y
    && e'[y] == e[y].(left := x) && par'[y] == p
    && (!place.Root? && p < |e| ==>
          e'[p] == (if place.LeftOf? then e[p].(left := y) else e[p].(right := y)) && par'[p] == par[p])
    && (b.Node? && b.id < |e| ==> e'[b.id] == e[b.id] && par'[b.id] == x)
    && (forall i | 0 <= i < |e| && i != x && i != y && (place.Root? || i != p) && (b.Leaf? || i != b.id) ::
          e'[i] == e[i] && par'[i] == par[i])
  }

  /** The parts of a rotation do not overlap. */
  lemma PartsAreApart(place: Place, t: Tree, child: Tree, outer: Tree, inner1: Tree, inner2: Tree)
    requires Distinct(place, t) && t.Node? && child.Node?
    requires child.left == inner1 && child.right == inner2
    requires (t.left == outer && t.right == child) || (t.left == child && t.right == outer)
    ensures forall i: StreamId :: Count(outer, i) + Count(inner1, i) + Count(inner2, i)
                                  + (if t.id == i then 1 else 0) + (if child.id == i then 1 else 0)
                                  + CountAround(place, i) <= 1
  {
    forall i: StreamId
      ensures Count(outer, i) + Count(inner1, i) + Count(inner2, i)
              + (if t.id == i then 1 else 0) + (if child.id == i then 1 else 0) + CountAround(place, i) <= 1
    {
      assert Count(t, i) + CountAround(place, i) <= 1;
      assert Count(child, i) == Count(inner1, i) + (if child.id == i then 1 else 0) + Count(inner2, i);
    }
  }

  lemma TurnLeftKeepsDistinct(place: Place, t: Tree)
    requires t.Node? && t.right.Node? && Distinct(place, t)
    ensures Distinct(place, TurnLeft(t)) && forall i: StreamId :: Count(TurnLeft(t), i) == Count(t, i)
  {
    forall i: StreamId ensures Count(TurnLeft(t), i) == Count(t, i) {
      assert Count(t.right, i) ==
             Count(t.right.left, i) + (if t.right.id == i then 1 else 0) + Count(t.right.right, i);
    }
    hide Count;
  }

  lemma LeftTurnMissesOuter(e: seq<Entry>, par: seq<StreamId>, e': seq<Entry>, par': seq<StreamId>, place: Place,
                            t: Tree, root: StreamId, part: Tree)
    requires t.Node? && t.right.Node? && Held(e, par, place, t, root) && LeftTurnLinks(e, par, e', par', place, t)
    requires part == t.left || part == t.right.right
    ensures forall i: StreamId | Count(part, i) > 0 && i < |e| && i < |par| :: e'[i] == e[i] && par'[i] == par[i]
    ensures forall i: StreamId :: Count(part, i) <= 1
  {
    PartsAreApart(place, t, t.right, t.left, t.right.left, t.right.right);
    PlaceIsLinked(e, par, place, t.id);
    RootCounts(t.right.left);
    hide Count;
    hide CountAround;
    hide Distinct;
    hide Linked;
    hide LinkedAround;
  }

  /** The parts move without being changed inside: the outer two keep their parents, */
  lemma LeftTurnOuter(e: seq<Entry>, par: seq<StreamId>, e': seq<Entry>, par': seq<StreamId>, place: Place, t: Tree,
                      root: StreamId, part: Tree, parent: StreamId)
    requires t.Node? && t.right.Node? && Held(e, par, place, t, root) && LeftTurnLinks(e, par, e', par', place, t)
    requires (part == t.left && parent == t.id) || (part == t.right.right && parent == t.right.id)
    ensures Linked(e', par', part, parent)
  {
    assert Linked(e, par, t.right, t.id);
    assert Linked(e, par, part, parent);
    LeftTurnMissesOuter(e, par, e', par', place, t, root, part);
    RootCounts(part);
    hide Count;
    hide CountAround;
    hide Linked;
    hide LinkedAround;
    hide LeftTurnLinks;
    LinkedFrame(e, par, e', par', part, parent, parent);
  }

  /** the inner one changes its parent, */
  lemma LeftTurnInner(e: seq<Entry>, par: seq<StreamId>, e': seq<Entry>, par': seq<StreamId>, place: Place, t: Tree,
                      root: StreamId)
    requires t.Node? && t.right.Node? && Held(e, par, place, t, root) && LeftTurnLinks(e, par, e', par', place, t)
    ensures Linked(e', par', t.right.left, t.id)
  {
    PartsAreApart(place, t, t.right, t.left, t.right.left, t.right.right);
    assert Linked(e, par, t.right, t.id);
    PlaceIsLinked(e, par, place, t.id);
    RootCounts(t.right.left);
    hide Count;
    hide CountAround;
    hide Distinct;
    hide LinkedAround;
    LinkedFrame(e, par, e', par', t.right.left, t.right.id, t.id);
    hide Linked;
    hide LeftTurnLinks;
  }

  /** and the place has a new child. */
  lemma LeftTurnPlace(e: seq<Entry>, par: seq<StreamId>, e': seq<Entry>, par': seq<StreamId>, place: Place, t: Tree,
                      root: StreamId)
    requires t.Node? && t.right.Node? && Held(e, par, place, t, root) && LeftTurnLinks(e, par, e', par', place, t)
    ensures LinkedAround(e', par', place, t.right.id)
  {
    PartsAreApart(place, t, t.right, t.left, t.right.left, t.right.right);
    PlaceIsLinked(e, par, place, t.id);
    RootCounts(t.right.left);
    hide Count;
    hide CountAround;
    hide Distinct;
    hide LinkedAround;
    hide Linked;
    AroundMoved(e, par, e', par', place, t.id, t.right.id);
    hide LeftTurnLinks;
  }

  lemma LeftTurnHolds(e: seq<Entry>, par: seq<StreamId>, e': seq<Entry>, par': seq<StreamId>, place: Place, t: Tree,
                      root: StreamId)
    requires t.Node? && t.right.Node? && Held(e, par, place, t, root) && LeftTurnLinks(e, par, e', par', place, t)
    ensures Held(e', par', place, TurnLeft(t), TopId(place, t.right.id))
  {
    LeftTurnOuter(e, par, e', par', place, t, root, t.left, t.id);
    LeftTurnOuter(e, par, e', par', place, t, root, t.right.right, t.right.id);
    LeftTurnInner(e, par, e', par', place, t, root);
    LeftTurnPlace(e, par, e', par', place, t, root);
    TurnLeftKeepsDistinct(place, t);
    assert Linked(e, par, t.right, t.id);
    hide Distinct;
    hide LinkedAround;
    var turned := TurnLeft(t);
    assert Linked(e', par', turned.left, turned.id);
    assert Linked(e', par', turned, ParentId(place));
  }

  /** What a rotation to the right does to the tree. */
  function TurnRight(t: Tree): Tree
    requires t.Node? && t.left.Node?
  {
    Node(t.left.left, t.left.id, t.left.color, Node(t.left.right, t.id, t.color, t.right))
  }

  /** The links a rotation to the right sets, entry by entry. */
  ghost predicate RightTurnLinks(e: seq<Entry>, par: seq<StreamId>, e': seq<Entry>, par': seq<StreamId>, place: Place,
                               t: Tree)
    requires t.Node? && t.left.Node?
  {
    var x, y, b, p := t.id, t.left.id, t.left.right, ParentId(place);
    && |e| == |par| == |e'| == |par'| && x < |e| && y < |e|
    && e'[x] == e[x].(left := RootId(b)) && par'[x] == y
    && e'[y] == e[y].(right := x) && par'[y] == p
    && (!place.Root? && p < |e| ==>
          e'[p] == (if place.LeftOf? then e[p].(left := y) else e[p].(right := y)) && par'[p] == par[p])
    && (b.Node? && b.id < |e| ==> e'[b.id] == e[b.id] && par'[b.id] == x)
    && (forall i | 0 <= i < |e| && i != x && i != y && (place.Root? || i != p) && (b.Leaf? || i != b.id) ::
          e'[i] == e[i] && par'[i] == par[i])
  }

  lemma TurnRightKeepsDistinct(place: Place, t: Tree)
    requires t.Node? && t.left.Node? && Distinct(place, t)
    ensures Distinct(place, TurnRight(t)) && forall i: StreamId :: Count(TurnRight(t), i) == Count(t, i)
  {
    forall i: StreamId ensures Count(TurnRight(t), i) == Count(t, i) {
      assert Count(t.left, i) == Count(t.left.left, i) + (if t.left.id == i then 1 else 0) + Count(t.left.right, i);
    }
    hide Count;
  }

  lemma RightTurnMissesOuter(e: seq<Entry>, par: seq<StreamId>, e': seq<Entry>, par': seq<StreamId>, place: Place,
                            t: Tree, root: StreamId, part: Tree)
    requires t.Node? && t.left.Node? && Held(e, par, place, t, root) && RightTurnLinks(e, par, e', par', place, t)
    requires part == t.left.left || part == t.right
    ensures forall i: StreamId | Count(part, i) > 0 && i < |e| && i < |par| :: e'[i] == e[i] && par'[i] == par[i]
    ensures forall i: StreamId :: Count(part, i) <= 1
  {
    PartsAreApart(place, t, t.left, t.right, t.left.left, t.left.right);
    PlaceIsLinked(e, par, place, t.id);
    RootCounts(t.left.right);
    hide Count;
    hide CountAround;
    hide Distinct;
    hide Linked;
    hide LinkedAround;
  }

  /** The parts move without being changed inside: the outer two keep their parents, */
  lemma RightTurnOuter(e: seq<Entry>, par: seq<StreamId>, e': seq<Entry>, par': seq<StreamId>, place: Place, t: Tree,
                      root: StreamId, part: Tree, parent: StreamId)
    requires t.Node? && t.left.Node? && Held(e, par, place, t, root) && RightTurnLinks(e, par, e', par', place, t)
    requires (part == t.left.left && parent == t.left.id) || (part == t.right && parent == t.id)
    ensures Linked(e', par', part, parent)
  {
    assert Linked(e, par, t.left, t.id);
    assert Linked(e, par, part, parent);
    RightTurnMissesOuter(e, par, e', par', place, t, root, part);
    RootCounts(part);
    hide Count;
    hide CountAround;
    hide Linked;
    hide LinkedAround;
    hide RightTurnLinks;
    LinkedFrame(e, par, e', par', part, parent, parent);
  }

  /** the inner one changes its parent, */
  lemma RightTurnInner(e: seq<Entry>, par: seq<StreamId>, e': seq<Entry>, par': seq<StreamId>, place: Place, t: Tree,
                      root: StreamId)
    requires t.Node? && t.left.Node? && Held(e, par, place, t, root) && RightTurnLinks(e, par, e', par', place, t)
    ensures Linked(e', par', t.left.right, t.id)
  {
    PartsAreApart(place, t, t.left, t.right, t.left.left, t.left.right);
    assert Linked(e, par, t.left, t.id);
    PlaceIsLinked(e, par, place, t.id);
    RootCounts(t.left.right);
    hide Count;
    hide CountAround;
    hide Distinct;
    hide LinkedAround;
    LinkedFrame(e, par, e', par', t.left.right, t.left.id, t.id);
    hide Linked;
    hide RightTurnLinks;
  }

  /** and the place has a new child. */
  lemma RightTurnPlace(e: seq<Entry>, par: seq<StreamId>, e': seq<Entry>, par': seq<StreamId>, place: Place, t: Tree,
                      root: StreamId)
    requires t.Node? && t.left.Node? && Held(e, par, place, t, root) && RightTurnLinks(e, par, e', par', place, t)
    ensures LinkedAround(e', par', place, t.left.id)
  {
    PartsAreApart(place, t, t.left, t.right, t.left.left, t.left.right);
    PlaceIsLinked(e, par, place, t.id);
    RootCounts(t.left.right);
    hide Count;
    hide CountAround;
    hide Distinct;
    hide LinkedAround;
    hide Linked;
    AroundMoved(e, par, e', par', place, t.id, t.left.id);
    hide RightTurnLinks;
  }

  lemma RightTurnHolds(e: seq<Entry>, par: seq<StreamId>, e': seq<Entry>, par': seq<StreamId>, place: Place, t: Tree,
                      root: StreamId)
    requires t.Node? && t.left.Node? && Held(e, par, place, t, root) && RightTurnLinks(e, par, e', par', place, t)
    ensures Held(e', par', place, TurnRight(t), TopId(place, t.left.id))
  {
    RightTurnOuter(e, par, e', par', place, t, root, t.left.left, t.left.id);
    RightTurnOuter(e, par, e', par', place, t, root, t.right, t.id);
    RightTurnInner(e, par, e', par', place, t, root);
    RightTurnPlace(e, par, e', par', place, t, root);
    TurnRightKeepsDistinct(place, t);
    assert Linked(e, par, t.left, t.id);
    hide Distinct;
    hide LinkedAround;
    var turned := TurnRight(t);
    assert Linked(e', par', turned.right, turned.id);
    assert Linked(e', par', turned, ParentId(place));
  }

  // ----- What rearranging leaves alone -----

  ghost predicate SameNames(e: seq<Entry>, e': seq<Entry>) {
    |e'| == |e| && forall i | 0 <= i < |e| :: e'[i].name == e[i].name
  }

  /** The same entries in the same order, held by arrays that differ at those entries
      alone, and not in their names. */
  ghost predicate Rearranged(e: seq<Entry>, par: seq<StreamId>, place: Place, t: Tree,
                             e': seq<Entry>, par': seq<StreamId>, place': Place, t': Tree) {
    && SameNames(e, e') && |par'| == |par| == |e|
    && Before(place') + Inorder(t') + After(place') == Before(place) + Inorder(t) + After(place)
    && (forall i: StreamId :: Count(t', i) + CountAround(place', i) == Count(t, i) + CountAround(place, i))
    && (forall i: StreamId | i < |e| && Count(t, i) + CountAround(place, i) == 0 :: e'[i] == e[i] && par'[i] == par[i])
  }

  lemma RearrangedTwice(e: seq<Entry>, par: seq<StreamId>, place: Place, t: Tree,
                        e1: seq<Entry>, par1: seq<StreamId>, place1: Place, t1: Tree,
                        e2: seq<Entry>, par2: seq<StreamId>, place2: Place, t2: Tree)
    requires Rearranged(e, par, place, t, e1, par1, place1, t1)
    requires Rearranged(e1, par1, place1, t1, e2, par2, place2, t2)
    ensures Rearranged(e, par, place, t, e2, par2, place2, t2)
  {
    hide Count;
    hide CountAround;
    hide Inorder;
    hide Before;
    hide After;
  }

  lemma SameOrder(a: seq<StreamId>, x: StreamId, b: seq<StreamId>, y: StreamId, d: seq<StreamId>)
    ensures (a + [x] + b) + [y] + d == a + [x] + (b + [y] + d)
  {
  }

  lemma TurnLeftKeepsOrder(t: Tree)
    requires t.Node? && t.right.Node?
    ensures Inorder(TurnLeft(t)) == Inorder(t)
  {
    var l, x, r := t.left, t.id, t.right;
    assert Inorder(r) == Inorder(r.left) + [r.id] + Inorder(r.right);
    assert Inorder(Node(l, x, t.color, r.left)) == Inorder(l) + [x] + Inorder(r.left);
    SameOrder(Inorder(l), x, Inorder(r.left), r.id, Inorder(r.right));
  }

  lemma TurnRightKeepsOrder(t: Tree)
    requires t.Node? && t.left.Node?
    ensures Inorder(TurnRight(t)) == Inorder(t)
  {
    var l, x, r := t.left, t.id, t.right;
    assert Inorder(l) == Inorder(l.left) + [l.id] + Inorder(l.right);
    assert Inorder(Node(l.right, x, t.color, r)) == Inorder(l.right) + [x] + Inorder(r);
    SameOrder(Inorder(l.left), l.id, Inorder(l.right), x, Inorder(r));
  }

  // ----- Rotations -----

  /** The other child of the entry over a place is not the child at the place. */
  lemma SiblingIsOther(e: seq<Entry>, par: seq<StreamId>, place: Place, child: StreamId)
    requires LinkedAround(e, par, place, child) && IsValid(child) && CountAround(place, child) == 0
    ensures !place.Root? ==> (child == e[place.id].left <==> place.LeftOf?)
  {
    if !place.Root? {
      var side := if place.LeftOf? then place.right else place.left;
      SideCounts(place, side);
      RootCounts(side);
    }
  }

  /** What the links say where a rotation to the left begins. */
  lemma LeftTurnFacts(e: seq<Entry>, par: seq<StreamId>, place: Place, t: Tree, root: StreamId)
    requires t.Node? && t.right.Node? && Held(e, par, place, t, root)
    ensures var x, y, b, p := t.id, t.right.id, t.right.left, ParentId(place);
            && x < |e| == |par| && y < |e| && x != y
            && e[x].right == y && e[y].left == RootId(b) && par[x] == p
            && (IsValid(RootId(b)) <==> b.Node?)
            && (b.Node? ==> b.id < |e| && b.id != x && b.id != y)
            && (IsNone(p) <==> place.Root?)
            && (!place.Root? ==>
                  && p < |e| && p != x && p != y && (b.Node? ==> p != b.id)
                  && (x == e[p].left <==> place.LeftOf?))
            && TopId(place, y) == if place.Root? then y else root
  {
    assert Linked(e, par, t.right, t.id) && Linked(e, par, t.right.left, t.right.id);
    PartsAreApart(place, t, t.right, t.left, t.right.left, t.right.right);
    RootCounts(t.right.left);
    PlaceIsLinked(e, par, place, t.id);
    SiblingIsOther(e, par, place, t.id);
    RootCounts(t);
    assert Count(t, t.id) + CountAround(place, t.id) <= 1;
    hide Count;
    hide CountAround;
    hide Distinct;
  }

  lemma LeftTurnRearranges(e: seq<Entry>, par: seq<StreamId>, e': seq<Entry>, par': seq<StreamId>, place: Place,
                           t: Tree, root: StreamId)
    requires t.Node? && t.right.Node? && Held(e, par, place, t, root) && LeftTurnLinks(e, par, e', par', place, t)
    ensures Rearranged(e, par, place, t, e', par', place, TurnLeft(t))
  {
    LeftTurnFacts(e, par, place, t, root);
    TurnLeftKeepsDistinct(place, t);
    TurnLeftKeepsOrder(t);
    PlaceIsLinked(e, par, place, t.id);
    RootCounts(t.right);
    RootCounts(t.right.left);
    RootCounts(t);
    assert Count(t, t.right.id) >= Count(t.right, t.right.id);
    assert t.right.left.Node? ==> Count(t, t.right.left.id) >= Count(t.right, t.right.left.id) >= Count(t.right.left, t.right.left.id);
    hide Count;
    hide CountAround;
    hide Held;
    hide Inorder;
    hide Before;
    hide After;
  }

  /** The assignments of a rotation to the left, one after the other. */
  lemma LeftTurnAssigns(e: seq<Entry>, par: seq<StreamId>, place: Place, t: Tree, root: StreamId,
                       e1: seq<Entry>, par1: seq<StreamId>, e2: seq<Entry>, par2: seq<StreamId>)
    requires t.Node? && t.right.Node? && Held(e, par, place, t, root)
    requires t.id < |e| == |par| && t.right.id < |e| && (t.right.left.Node? ==> t.right.left.id < |e|)
    requires e1 == e[t.id := e[t.id].(right := RootId(t.right.left))]
    requires par1 == if t.right.left.Node? then par[t.right.left.id := t.id] else par
    requires !place.Root? ==> place.id < |e|
    requires e2 == if place.Root? then e1
                   else if place.LeftOf? then e1[place.id := e1[place.id].(left := t.right.id)]
                   else e1[place.id := e1[place.id].(right := t.right.id)]
    requires par2 == par1[t.right.id := ParentId(place)]
    ensures LeftTurnLinks(e, par, e2[t.right.id := e2[t.right.id].(left := t.id)], par2[t.id := t.right.id], place, t)
  {
    LeftTurnFacts(e, par, place, t, root);
    hide Held;
    hide TopId;
  }

  method RotateLeft(x: StreamId, root: StreamId, entries: array<Entry>, parents: array<StreamId>,
                    ghost place: Place, ghost t: Tree) returns (newRoot: StreamId)
    requires t.Node? && t.id == x && t.right.Node? && Held(entries[..], parents[..], place, t, root)
    modifies entries, parents
    ensures Held(entries[..], parents[..], place, TurnLeft(t), newRoot)
    ensures Rearranged(old(entries[..]), old(parents[..]), place, t, entries[..], parents[..], place, TurnLeft(t))
  {
    ghost var e0, par0 := entries[..], parents[..];
    LeftTurnFacts(e0, par0, place, t, root);
    hide TopId;
    hide Held;
    hide Rearranged;
    hide TurnLeft;
    hide LeftTurnLinks;
    var y := entries[x].right;
    var inner := entries[y].left;
    entries[x] := entries[x].(right := inner);
    if IsValid(inner) {
      parents[inner] := x;
    }
    ghost var e1 := e0[x := e0[x].(right := inner)];
    ghost var par1: seq<StreamId> := if IsValid(inner) then par0[inner := x] else par0;
    assert entries[..] == e1 && parents[..] == par1;
    var p := parents[x];
    parents[y] := p;
    if IsNone(p) {
      newRoot := y;
    } else {
      if x == entries[p].left {
        entries[p] := entries[p].(left := y);
      } else {
        entries[p] := entries[p].(right := y);
      }
      newRoot := root;
    }
    ghost var e2 := if IsNone(p) then e1 else if place.LeftOf? then e1[p := e1[p].(left := y)] else e1[p := e1[p].(right := y)];
    ghost var par2: seq<StreamId> := par1[y := p];
    assert entries[..] == e2 && parents[..] == par2;
    entries[y] := entries[y].(left := x);
    parents[x] := y;
    assert entries[..] == e2[y := e2[y].(left := x)] && parents[..] == par2[x := y];
    LeftTurnAssigns(e0, par0, place, t, root, e1, par1, e2, par2);
    LeftTurnHolds(e0, par0, entries[..], parents[..], place, t, root);
    LeftTurnRearranges(e0, par0, entries[..], parents[..], place, t, root);
  }

  /** What the links say where a rotation to the right begins. */
  lemma RightTurnFacts(e: seq<Entry>, par: seq<StreamId>, place: Place, t: Tree, root: StreamId)
    requires t.Node? && t.left.Node? && Held(e, par, place, t, root)
    ensures var x, y, b, p := t.id, t.left.id, t.left.right, ParentId(place);
            && x < |e| == |par| && y < |e| && x != y
            && e[x].left == y && e[y].right == RootId(b) && par[x] == p
            && (IsValid(RootId(b)) <==> b.Node?)
            && (b.Node? ==> b.id < |e| && b.id != x && b.id != y)
            && (IsNone(p) <==> place.Root?)
            && (!place.Root? ==>
                  && p < |e| && p != x && p != y && (b.Node? ==> p != b.id)
                  && (x == e[p].left <==> place.LeftOf?))
            && TopId(place, y) == if place.Root? then y else root
  {
    assert Linked(e, par, t.left, t.id) && Linked(e, par, t.left.right, t.left.id);
    PartsAreApart(place, t, t.left, t.right, t.left.left, t.left.right);
    RootCounts(t.left.right);
    PlaceIsLinked(e, par, place, t.id);
    SiblingIsOther(e, par, place, t.id);
    RootCounts(t);
    assert Count(t, t.id) + CountAround(place, t.id) <= 1;
    hide Count;
    hide CountAround;
    hide Distinct;
  }

  lemma RightTurnRearranges(e: seq<Entry>, par: seq<StreamId>, e': seq<Entry>, par': seq<StreamId>, place: Place,
                           t: Tree, root: StreamId)
    requires t.Node? && t.left.Node? && Held(e, par, place, t, root) && RightTurnLinks(e, par, e', par', place, t)
    ensures Rearranged(e, par, place, t, e', par', place, TurnRight(t))
  {
    RightTurnFacts(e, par, place, t, root);
    TurnRightKeepsDistinct(place, t);
    TurnRightKeepsOrder(t);
    PlaceIsLinked(e, par, place, t.id);
    RootCounts(t.left);
    RootCounts(t.left.right);
    RootCounts(t);
    assert Count(t, t.left.id) >= Count(t.left, t.left.id);
    assert t.left.right.Node? ==> Count(t, t.left.right.id) >= Count(t.left, t.left.right.id) >= Count(t.left.right, t.left.right.id);
    hide Count;
    hide CountAround;
    hide Held;
    hide Inorder;
    hide Before;
    hide After;
  }

  /** The assignments of a rotation to the right, one after the other. */
  lemma RightTurnAssigns(e: seq<Entry>, par: seq<StreamId>, place: Place, t: Tree, root: StreamId,
                       e1: seq<Entry>, par1: seq<StreamId>, e2: seq<Entry>, par2: seq<StreamId>)
    requires t.Node? && t.left.Node? && Held(e, par, place, t, root)
    requires t.id < |e| == |par| && t.left.id < |e| && (t.left.right.Node? ==> t.left.right.id < |e|)
    requires e1 == e[t.id := e[t.id].(left := RootId(t.left.right))]
    requires par1 == if t.left.right.Node? then par[t.left.right.id := t.id] else par
    requires !place.Root? ==> place.id < |e|
    requires e2 == if place.Root? then e1
                   else if place.LeftOf? then e1[place.id := e1[place.id].(left := t.left.id)]
                   else e1[place.id := e1[place.id].(right := t.left.id)]
    requires par2 == par1[t.left.id := ParentId(place)]
    ensures RightTurnLinks(e, par, e2[t.left.id := e2[t.left.id].(right := t.id)], par2[t.id := t.left.id], place, t)
  {
    RightTurnFacts(e, par, place, t, root);
    hide Held;
    hide TopId;
  }

  method RotateRight(y: StreamId, root: StreamId, entries: array<Entry>, parents: array<StreamId>,
                    ghost place: Place, ghost t: Tree) returns (newRoot: StreamId)
    requires t.Node? && t.id == y && t.left.Node? && Held(entries[..], parents[..], place, t, root)
    modifies entries, parents
    ensures Held(entries[..], parents[..], place, TurnRight(t), newRoot)
    ensures Rearranged(old(entries[..]), old(parents[..]), place, t, entries[..], parents[..], place, TurnRight(t))
  {
    ghost var e0, par0 := entries[..], parents[..];
    RightTurnFacts(e0, par0, place, t, root);
    hide TopId;
    hide Held;
    hide Rearranged;
    hide TurnRight;
    hide RightTurnLinks;
    var x := entries[y].left;
    var inner := entries[x].right;
    entries[y] := entries[y].(left := inner);
    if IsValid(inner) {
      parents[inner] := y;
    }
    ghost var e1 := e0[y := e0[y].(left := inner)];
    ghost var par1: seq<StreamId> := if IsValid(inner) then par0[inner := y] else par0;
    assert entries[..] == e1 && parents[..] == par1;
    var p := parents[y];
    parents[x] := p;
    if IsNone(p) {
      newRoot := x;
    } else {
      if y == entries[p].left {
        entries[p] := entries[p].(left := x);
      } else {
        entries[p] := entries[p].(right := x);
      }
      newRoot := root;
    }
    ghost var e2 := if IsNone(p) then e1 else if place.LeftOf? then e1[p := e1[p].(left := x)] else e1[p := e1[p].(right := x)];
    ghost var par2: seq<StreamId> := par1[x := p];
    assert entries[..] == e2 && parents[..] == par2;
    entries[x] := entries[x].(right := y);
    parents[y] := x;
    assert entries[..] == e2[x := e2[x].(right := y)] && parents[..] == par2[y := x];
    RightTurnAssigns(e0, par0, place, t, root, e1, par1, e2, par2);
    RightTurnHolds(e0, par0, entries[..], parents[..], place, t, root);
    RightTurnRearranges(e0, par0, entries[..], parents[..], place, t, root);
  }

  // ----- Moving about in the tree the arrays hold -----

  /** One tree seen from two places. */
  ghost predicate SameWhole(place: Place, t: Tree, place': Place, t': Tree) {
    && Before(place') + Inorder(t') + After(place') == Before(place) + Inorder(t) + After(place)
    && (forall i: StreamId :: Count(t', i) + CountAround(place', i) == Count(t, i) + CountAround(place, i))
  }

  lemma LeftChildIsSameWhole(place: Place, t: Tree)
    requires t.Node?
    ensures SameWhole(place, t, LeftOf(place, t.id, t.color, t.right), t.left)
    ensures SameWhole(LeftOf(place, t.id, t.color, t.right), t.left, place, t)
  {
    var b, l, x, r, a := Before(place), Inorder(t.left), [t.id], Inorder(t.right), After(place);
    assert b + l + (x + r + a) == b + (l + x + r) + a;
  }

  lemma RightChildIsSameWhole(place: Place, t: Tree)
    requires t.Node?
    ensures SameWhole(place, t, RightOf(place, t.left, t.id, t.color), t.right)
    ensures SameWhole(RightOf(place, t.left, t.id, t.color), t.right, place, t)
  {
    var b, l, x, r, a := Before(place), Inorder(t.left), [t.id], Inorder(t.right), After(place);
    assert (b + l + x) + r + a == b + (l + x + r) + a;
  }

  lemma LeftChildIsHeld(e: seq<Entry>, par: seq<StreamId>, place: Place, t: Tree, root: StreamId)
    requires t.Node?
    ensures Held(e, par, place, t, root) <==> Held(e, par, LeftOf(place, t.id, t.color, t.right), t.left, root)
  {
    LeftChildIsSameWhole(place, t);
    hide Count;
    hide CountAround;
  }

  lemma RightChildIsHeld(e: seq<Entry>, par: seq<StreamId>, place: Place, t: Tree, root: StreamId)
    requires t.Node?
    ensures Held(e, par, place, t, root) <==> Held(e, par, RightOf(place, t.left, t.id, t.color), t.right, root)
  {
    RightChildIsSameWhole(place, t);
    hide Count;
    hide CountAround;
  }

  lemma SeenElsewhere(e: seq<Entry>, par: seq<StreamId>, place: Place, t: Tree,
                      e1: seq<Entry>, par1: seq<StreamId>, place1: Place, t1: Tree, place2: Place, t2: Tree)
    requires Rearranged(e, par, place, t, e1, par1, place1, t1) && SameWhole(place1, t1, place2, t2)
    ensures Rearranged(e, par, place, t, e1, par1, place2, t2)
  {
    hide Count;
    hide CountAround;
    hide Inorder;
    hide Before;
    hide After;
  }

  lemma SeenFromElsewhere(e: seq<Entry>, par: seq<StreamId>, place: Place, t: Tree, place0: Place, t0: Tree,
                          e1: seq<Entry>, par1: seq<StreamId>, place1: Place, t1: Tree)
    requires Rearranged(e, par, place, t, e1, par1, place1, t1) && SameWhole(place0, t0, place, t)
    ensures Rearranged(e, par, place0, t0, e1, par1, place1, t1)
  {
    hide Count;
    hide CountAround;
    hide Inorder;
    hide Before;
    hide After;
  }

  // ----- Colours -----

  lemma RecolorKeepsWhole(place: Place, t: Tree, color: Color)
    requires t.Node?
    ensures SameWhole(place, t, place, t.(color := color))
    ensures Count(t, t.id) > 0
    ensures forall i: StreamId ::
              Count(t, i) == Count(t.left, i) + (if t.id == i then 1 else 0) + Count(t.right, i)
  {
    assert forall i: StreamId :: Count(t.(color := color), i) == Count(t, i);
    assert Inorder(t.(color := color)) == Inorder(t);
  }

  lemma RecolorLinks(e: seq<Entry>, par: seq<StreamId>, place: Place, t: Tree, root: StreamId, color: Color)
    requires t.Node? && Held(e, par, place, t, root)
    ensures t.id < |e|
    ensures var e' := e[t.id := e[t.id].(color := color)];
            Linked(e', par, t.(color := color), ParentId(place)) && LinkedAround(e', par, place, t.id)
  {
    var e' := e[t.id := e[t.id].(color := color)];
    RecolorKeepsWhole(place, t, color);
    RootCounts(t.left);
    RootCounts(t.right);
    hide Count;
    hide CountAround;
    hide Inorder;
    hide Before;
    hide After;
    hide SameWhole;
    hide LinkedAround;
    LinkedFrame(e, par, e', par, t.left, t.id, t.id);
    LinkedFrame(e, par, e', par, t.right, t.id, t.id);
    AroundFrame(e, par, e', par, place, t.id);
  }

  lemma RecolorHolds(e: seq<Entry>, par: seq<StreamId>, place: Place, t: Tree, root: StreamId, color: Color)
    requires t.Node? && Held(e, par, place, t, root)
    ensures t.id < |e|
    ensures var e' := e[t.id := e[t.id].(color := color)]; var t' := t.(color := color);
            Held(e', par, place, t', root) && Rearranged(e, par, place, t, e', par, place, t')
  {
    RecolorLinks(e, par, place, t, root, color);
    RecolorKeepsWhole(place, t, color);
    hide Linked;
    hide LinkedAround;
    hide Count;
    hide CountAround;
    hide Inorder;
    hide Before;
    hide After;
  }

  method SetColor(id: StreamId, color: Color, entries: array<Entry>, ghost par: seq<StreamId>,
                  ghost place: Place, ghost t: Tree, ghost root: StreamId)
    requires t.Node? && t.id == id && Held(entries[..], par, place, t, root)
    modifies entries
    ensures Held(entries[..], par, place, t.(color := color), root)
    ensures Rearranged(old(entries[..]), par, place, t, entries[..], par, place, t.(color := color))
  {
    ghost var e := entries[..];
    RecolorHolds(e, par, place, t, root, color);
    entries[id] := entries[id].(color := color);
    assert entries[..] == e[id := e[id].(color := color)];
    hide Held;
    hide Rearranged;
  }

  function Raised(g: Tree): Tree
    requires g.Node? && g.left.Node? && g.right.Node?
  {
    Node(g.left.(color := Black), g.id, Red, g.right.(color := Black))
  }

  method SetLeftBlack(id: StreamId, entries: array<Entry>, ghost par: seq<StreamId>,
                      ghost place: Place, ghost g: Tree, ghost root: StreamId)
    requires g.Node? && g.left.Node? && g.left.id == id && Held(entries[..], par, place, g, root)
    modifies entries
    ensures Held(entries[..], par, place, g.(left := g.left.(color := Black)), root)
    ensures Rearranged(old(entries[..]), par, place, g, entries[..], par, place, g.(left := g.left.(color := Black)))
  {
    ghost var e, inside := entries[..], LeftOf(place, g.id, g.color, g.right);
    ghost var l', g' := g.left.(color := Black), g.(left := g.left.(color := Black));
    LeftChildIsHeld(e, par, place, g, root);
    LeftChildIsSameWhole(place, g);
    LeftChildIsSameWhole(place, g');
    hide *;
    SetColor(id, Black, entries, par, inside, g.left, root);
    LeftChildIsHeld(entries[..], par, place, g', root);
    SeenElsewhere(e, par, inside, g.left, entries[..], par, inside, l', place, g');
    SeenFromElsewhere(e, par, inside, g.left, place, g, entries[..], par, place, g');
  }

  method SetRightBlack(id: StreamId, entries: array<Entry>, ghost par: seq<StreamId>,
                       ghost place: Place, ghost g: Tree, ghost root: StreamId)
    requires g.Node? && g.right.Node? && g.right.id == id && Held(entries[..], par, place, g, root)
    modifies entries
    ensures Held(entries[..], par, place, g.(right := g.right.(color := Black)), root)
    ensures Rearranged(old(entries[..]), par, place, g, entries[..], par, place, g.(right := g.right.(color := Black)))
  {
    ghost var e, inside := entries[..], RightOf(place, g.left, g.id, g.color);
    ghost var r', g' := g.right.(color := Black), g.(right := g.right.(color := Black));
    RightChildIsHeld(e, par, place, g, root);
    RightChildIsSameWhole(place, g);
    RightChildIsSameWhole(place, g');
    hide *;
    SetColor(id, Black, entries, par, inside, g.right, root);
    RightChildIsHeld(entries[..], par, place, g', root);
    SeenElsewhere(e, par, inside, g.right, entries[..], par, inside, r', place, g');
    SeenFromElsewhere(e, par, inside, g.right, place, g, entries[..], par, place, g');
  }
}
