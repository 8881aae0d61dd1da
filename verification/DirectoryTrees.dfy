/** Insertion into the directory's sibling tree, its construction, and the search in it. */
module DirectoryTrees {
  import opened Options
  import opened CfbNames
  import opened SiblingTrees
  import opened DirectoryLinks

  // ----- A red entry under the left child of its grandparent -----

  /** The subtree of the grandparent after an inner entry has been turned outwards. */
  function OuterLeft(g: Tree, inner: bool): Tree
    requires g.Node? && g.left.Node? && (inner ==> g.left.right.Node?)
  {
    if inner then g.(left := TurnLeft(g.left)) else g
  }

  /** And after the parent has then taken the grandparent's place. */
  function RisenLeft(g: Tree, inner: bool): Tree
    requires g.Node? && g.left.Node? && (inner ==> g.left.right.Node?)
  {
    var g1 := OuterLeft(g, inner);
    TurnRight(Node(g1.left.(color := Black), g1.id, Red, g1.right))
  }

  lemma LeftChildLinks(e: seq<Entry>, par: seq<StreamId>, pl: Place, g: Tree, root: StreamId)
    requires g.Node? && g.left.Node? && Held(e, par, pl, g, root)
    ensures g.id < |e| == |par| && g.left.id < |e| && IsValid(g.left.id)
    ensures e[g.id].left == g.left.id && e[g.id].right == RootId(g.right) && par[g.left.id] == g.id
    ensures g.right.Node? ==> IsValid(g.right.id) && g.right.id < |e| && e[g.right.id].color == g.right.color
    ensures e[g.left.id].left == RootId(g.left.left) && e[g.left.id].right == RootId(g.left.right)
    ensures g.left.left.Node? ==> g.left.left.id < |e| && par[g.left.left.id] == g.left.id
    ensures g.left.right.Node? ==> g.left.right.id < |e| && par[g.left.right.id] == g.left.id
    ensures g.left.left.Node? && g.left.right.Node? ==> g.left.left.id != g.left.right.id
    ensures g.left.left.Node? ==> IsValid(g.left.left.id)
    ensures g.left.right.Node? ==> IsValid(g.left.right.id)
    ensures g.right.Node? ==> g.right.id != g.left.id
  {
    var p := g.left;
    assert Linked(e, par, p, g.id) && Linked(e, par, p.left, p.id) && Linked(e, par, p.right, p.id);
    assert Linked(e, par, g.right, g.id);
    RootCounts(p);
    RootCounts(p.left);
    RootCounts(p.right);
    RootCounts(g.right);
    forall i: StreamId ensures Count(p, i) + Count(g.right, i) <= 1 && Count(p.left, i) + Count(p.right, i) <= 1 {
      assert Count(g, i) + CountAround(pl, i) <= 1;
    }
    hide Count;
    hide Distinct;
    hide LinkedAround;
  }

  method TurnLeftOutwards(p: StreamId, root: StreamId, entries: array<Entry>, parents: array<StreamId>,
                          ghost pl: Place, ghost g: Tree) returns (newRoot: StreamId)
    requires g.Node? && g.left.Node? && g.left.right.Node? && g.left.id == p
    requires Held(entries[..], parents[..], pl, g, root)
    modifies entries, parents
    ensures Held(entries[..], parents[..], pl, OuterLeft(g, true), newRoot)
    ensures Rearranged(old(entries[..]), old(parents[..]), pl, g, entries[..], parents[..], pl, OuterLeft(g, true))
  {
    ghost var e, par, inside, g1 := entries[..], parents[..], LeftOf(pl, g.id, g.color, g.right), OuterLeft(g, true);
    LeftChildIsHeld(e, par, pl, g, root);
    LeftChildIsSameWhole(pl, g);
    LeftChildIsSameWhole(pl, g1);
    hide Held;
    hide Rearranged;
    hide SameWhole;
    hide TurnLeft;
    newRoot := RotateLeft(p, root, entries, parents, inside, g.left);
    LeftChildIsHeld(entries[..], parents[..], pl, g1, newRoot);
    SeenElsewhere(e, par, inside, g.left, entries[..], parents[..], inside, g1.left, pl, g1);
    SeenFromElsewhere(e, par, inside, g.left, pl, g, entries[..], parents[..], pl, g1);
  }

  method RiseLeft(p: StreamId, gp: StreamId, root: StreamId, entries: array<Entry>, parents: array<StreamId>,
                  ghost pl: Place, ghost g: Tree) returns (newRoot: StreamId)
    requires g.Node? && g.left.Node? && g.left.id == p && g.id == gp
    requires Held(entries[..], parents[..], pl, g, root)
    modifies entries, parents
    ensures Held(entries[..], parents[..], pl, RisenLeft(g, false), newRoot)
    ensures Rearranged(old(entries[..]), old(parents[..]), pl, g, entries[..], parents[..], pl, RisenLeft(g, false))
  {
    hide Held;
    hide Rearranged;
    hide TurnRight;
    ghost var e, par := entries[..], parents[..];
    ghost var g2 := g.(left := g.left.(color := Black));
    ghost var g3 := g2.(color := Red);
    SetLeftBlack(p, entries, par, pl, g, root);
    ghost var e2 := entries[..];
    SetColor(gp, Red, entries, par, pl, g2, root);
    ghost var e3 := entries[..];
    RearrangedTwice(e, par, pl, g, e2, par, pl, g2, e3, par, pl, g3);
    newRoot := RotateRight(gp, root, entries, parents, pl, g3);
    RearrangedTwice(e, par, pl, g, e3, par, pl, g3, entries[..], parents[..], pl, TurnRight(g3));
  }

  // ----- A red entry under the right child of its grandparent -----

  /** The subtree of the grandparent after an inner entry has been turned outwards. */
  function OuterRight(g: Tree, inner: bool): Tree
    requires g.Node? && g.right.Node? && (inner ==> g.right.left.Node?)
  {
    if inner then g.(right := TurnRight(g.right)) else g
  }

  /** And after the parent has then taken the grandparent's place. */
  function RisenRight(g: Tree, inner: bool): Tree
    requires g.Node? && g.right.Node? && (inner ==> g.right.left.Node?)
  {
    var g1 := OuterRight(g, inner);
    TurnLeft(Node(g1.left, g1.id, Red, g1.right.(color := Black)))
  }

  lemma RightChildLinks(e: seq<Entry>, par: seq<StreamId>, pl: Place, g: Tree, root: StreamId)
    requires g.Node? && g.right.Node? && Held(e, par, pl, g, root)
    ensures g.id < |e| == |par| && g.right.id < |e| && IsValid(g.right.id)
    ensures e[g.id].right == g.right.id && e[g.id].left == RootId(g.left) && par[g.right.id] == g.id
    ensures g.left.Node? ==> IsValid(g.left.id) && g.left.id < |e| && e[g.left.id].color == g.left.color
    ensures e[g.right.id].right == RootId(g.right.right) && e[g.right.id].left == RootId(g.right.left)
    ensures g.right.right.Node? ==> g.right.right.id < |e| && par[g.right.right.id] == g.right.id
    ensures g.right.left.Node? ==> g.right.left.id < |e| && par[g.right.left.id] == g.right.id
    ensures g.right.right.Node? && g.right.left.Node? ==> g.right.right.id != g.right.left.id
    ensures g.right.right.Node? ==> IsValid(g.right.right.id)
    ensures g.right.left.Node? ==> IsValid(g.right.left.id)
    ensures g.left.Node? ==> g.left.id != g.right.id
  {
    var p := g.right;
    assert Linked(e, par, p, g.id) && Linked(e, par, p.right, p.id) && Linked(e, par, p.left, p.id);
    assert Linked(e, par, g.left, g.id);
    RootCounts(p);
    RootCounts(p.right);
    RootCounts(p.left);
    RootCounts(g.left);
    forall i: StreamId ensures Count(p, i) + Count(g.left, i) <= 1 && Count(p.right, i) + Count(p.left, i) <= 1 {
      assert Count(g, i) + CountAround(pl, i) <= 1;
    }
    hide Count;
    hide Distinct;
    hide LinkedAround;
  }

  method TurnRightOutwards(p: StreamId, root: StreamId, entries: array<Entry>, parents: array<StreamId>,
                          ghost pl: Place, ghost g: Tree) returns (newRoot: StreamId)
    requires g.Node? && g.right.Node? && g.right.left.Node? && g.right.id == p
    requires Held(entries[..], parents[..], pl, g, root)
    modifies entries, parents
    ensures Held(entries[..], parents[..], pl, OuterRight(g, true), newRoot)
    ensures Rearranged(old(entries[..]), old(parents[..]), pl, g, entries[..], parents[..], pl, OuterRight(g, true))
  {
    ghost var e, par, inside, g1 := entries[..], parents[..], RightOf(pl, g.left, g.id, g.color), OuterRight(g, true);
    RightChildIsHeld(e, par, pl, g, root);
    RightChildIsSameWhole(pl, g);
    RightChildIsSameWhole(pl, g1);
    hide Held;
    hide Rearranged;
    hide SameWhole;
    hide TurnRight;
    newRoot := RotateRight(p, root, entries, parents, inside, g.right);
    RightChildIsHeld(entries[..], parents[..], pl, g1, newRoot);
    SeenElsewhere(e, par, inside, g.right, entries[..], parents[..], inside, g1.right, pl, g1);
    SeenFromElsewhere(e, par, inside, g.right, pl, g, entries[..], parents[..], pl, g1);
  }

  method RiseRight(p: StreamId, gp: StreamId, root: StreamId, entries: array<Entry>, parents: array<StreamId>,
                  ghost pl: Place, ghost g: Tree) returns (newRoot: StreamId)
    requires g.Node? && g.right.Node? && g.right.id == p && g.id == gp
    requires Held(entries[..], parents[..], pl, g, root)
    modifies entries, parents
    ensures Held(entries[..], parents[..], pl, RisenRight(g, false), newRoot)
    ensures Rearranged(old(entries[..]), old(parents[..]), pl, g, entries[..], parents[..], pl, RisenRight(g, false))
  {
    hide Held;
    hide Rearranged;
    hide TurnLeft;
    ghost var e, par := entries[..], parents[..];
    ghost var g2 := g.(right := g.right.(color := Black));
    ghost var g3 := g2.(color := Red);
    SetRightBlack(p, entries, par, pl, g, root);
    ghost var e2 := entries[..];
    SetColor(gp, Red, entries, par, pl, g2, root);
    ghost var e3 := entries[..];
    RearrangedTwice(e, par, pl, g, e2, par, pl, g2, e3, par, pl, g3);
    newRoot := RotateLeft(gp, root, entries, parents, pl, g3);
    RearrangedTwice(e, par, pl, g, e3, par, pl, g3, entries[..], parents[..], pl, TurnLeft(g3));
  }

  // ----- The repair -----

  function BelowLeft(place: Place, t: Tree): Place
    requires t.Node?
  {
    LeftOf(place, t.id, t.color, t.right)
  }

  function BelowRight(place: Place, t: Tree): Place
    requires t.Node?
  {
    RightOf(place, t.left, t.id, t.color)
  }

  lemma SameTree(e: seq<Entry>, par: seq<StreamId>, place: Place, t: Tree)
    requires |e| == |par|
    ensures Rearranged(e, par, place, t, e, par, place, t)
  {
  }

  /** With a red uncle, where the parent is the left child: three colours change. */
  method RaiseLeft(p: StreamId, uncle: StreamId, gp: StreamId, entries: array<Entry>, ghost par: seq<StreamId>,
                   ghost pl: Place, ghost g: Tree, ghost root: StreamId)
    requires g.Node? && g.left.Node? && g.right.Node? && g.id == gp && g.left.id == p && g.right.id == uncle
    requires Held(entries[..], par, pl, g, root)
    modifies entries
    ensures Held(entries[..], par, pl, Raised(g), root)
    ensures Rearranged(old(entries[..]), par, pl, g, entries[..], par, pl, Raised(g))
  {
    hide Held;
    hide Rearranged;
    ghost var e := entries[..];
    ghost var g1 := g.(left := g.left.(color := Black));
    ghost var g2 := g1.(right := g1.right.(color := Black));
    SetLeftBlack(p, entries, par, pl, g, root);
    ghost var e1 := entries[..];
    SetRightBlack(uncle, entries, par, pl, g1, root);
    ghost var e2 := entries[..];
    RearrangedTwice(e, par, pl, g, e1, par, pl, g1, e2, par, pl, g2);
    SetColor(gp, Red, entries, par, pl, g2, root);
    RearrangedTwice(e, par, pl, g, e2, par, pl, g2, entries[..], par, pl, Raised(g));
  }

  /** With a black uncle: an inner entry is turned outwards, then the parent rises. */
  method TurnOutLeft(n: StreamId, p: StreamId, root: StreamId, entries: array<Entry>, parents: array<StreamId>,
                     ghost pl: Place, ghost g: Tree, ghost inner: bool)
    returns (node: StreamId, newRoot: StreamId)
    requires g.Node? && g.left.Node? && g.left.id == p && Held(entries[..], parents[..], pl, g, root)
    requires var red := if inner then g.left.right else g.left.left; red.Node? && red.id == n
    modifies entries, parents
    ensures RisenLeft(g, inner).left.Node? && node == RisenLeft(g, inner).left.id
    ensures Held(entries[..], parents[..], pl, RisenLeft(g, inner), newRoot)
    ensures Rearranged(old(entries[..]), old(parents[..]), pl, g, entries[..], parents[..], pl, RisenLeft(g, inner))
  {
    ghost var e, par := entries[..], parents[..];
    LeftChildLinks(e, par, pl, g, root);
    hide Held;
    hide Linked;
    node, newRoot := n, root;
    ghost var g1 := OuterLeft(g, inner);
    SameTree(e, par, pl, g);
    hide Rearranged;
    if node == entries[p].right {
      node := p;
      newRoot := TurnLeftOutwards(node, newRoot, entries, parents, pl, g);
    }
    ghost var e1, par1 := entries[..], parents[..];
    assert Rearranged(e, par, pl, g, e1, par1, pl, g1);
    LeftChildLinks(e1, par1, pl, g1, newRoot);
    var p2 := parents[node];
    var gp2 := parents[p2];
    newRoot := RiseLeft(p2, gp2, newRoot, entries, parents, pl, g1);
    RearrangedTwice(e, par, pl, g, e1, par1, pl, g1, entries[..], parents[..], pl, RisenLeft(g1, false));
  }

  /** One round of the repair where the parent is the left child. */
  method RepairLeft(n: StreamId, p: StreamId, gp: StreamId, root: StreamId,
                    entries: array<Entry>, parents: array<StreamId>, ghost pl: Place, ghost g: Tree, ghost inner: bool)
    returns (node: StreamId, newRoot: StreamId, ghost place: Place, ghost t: Tree)
    requires g.Node? && g.left.Node? && g.id == gp && g.left.id == p
    requires Held(entries[..], parents[..], pl, g, root)
    requires var red := if inner then g.left.right else g.left.left; red.Node? && red.id == n
    modifies entries, parents
    ensures IsRed(g.right) ==> place == pl && t == Raised(g)
    ensures !IsRed(g.right) ==> RisenLeft(g, inner).left.Node?
    ensures !IsRed(g.right) ==> place == BelowLeft(pl, RisenLeft(g, inner)) && t == RisenLeft(g, inner).left
    ensures t.Node? && node == t.id
    ensures Held(entries[..], parents[..], place, t, newRoot)
    ensures Rearranged(old(entries[..]), old(parents[..]), pl, g, entries[..], parents[..], place, t)
  {
    ghost var e, par := entries[..], parents[..];
    LeftChildLinks(e, par, pl, g, root);
    hide Held;
    hide Rearranged;
    hide Linked;
    var uncle := entries[gp].right;
    if IsValid(uncle) && entries[uncle].color == Red {
      RaiseLeft(p, uncle, gp, entries, par, pl, g, root);
      node, newRoot, place, t := gp, root, pl, Raised(g);
    } else {
      assert !IsRed(g.right);
      node, newRoot := TurnOutLeft(n, p, root, entries, parents, pl, g, inner);
      ghost var top := RisenLeft(g, inner);
      hide RisenLeft;
      place, t := BelowLeft(pl, top), top.left;
      LeftChildIsHeld(entries[..], parents[..], pl, top, newRoot);
      LeftChildIsSameWhole(pl, top);
      hide SameWhole;
      SeenElsewhere(e, par, pl, g, entries[..], parents[..], pl, top, place, t);
    }
  }

  /** With a red uncle, where the parent is the right child: three colours change. */
  method RaiseRight(p: StreamId, uncle: StreamId, gp: StreamId, entries: array<Entry>, ghost par: seq<StreamId>,
                   ghost pl: Place, ghost g: Tree, ghost root: StreamId)
    requires g.Node? && g.right.Node? && g.left.Node? && g.id == gp && g.right.id == p && g.left.id == uncle
    requires Held(entries[..], par, pl, g, root)
    modifies entries
    ensures Held(entries[..], par, pl, Raised(g), root)
    ensures Rearranged(old(entries[..]), par, pl, g, entries[..], par, pl, Raised(g))
  {
    hide Held;
    hide Rearranged;
    ghost var e := entries[..];
    ghost var g1 := g.(right := g.right.(color := Black));
    ghost var g2 := g1.(left := g1.left.(color := Black));
    SetRightBlack(p, entries, par, pl, g, root);
    ghost var e1 := entries[..];
    SetLeftBlack(uncle, entries, par, pl, g1, root);
    ghost var e2 := entries[..];
    RearrangedTwice(e, par, pl, g, e1, par, pl, g1, e2, par, pl, g2);
    SetColor(gp, Red, entries, par, pl, g2, root);
    RearrangedTwice(e, par, pl, g, e2, par, pl, g2, entries[..], par, pl, Raised(g));
  }

  /** With a black uncle: an inner entry is turned outwards, then the parent rises. */
  method TurnOutRight(n: StreamId, p: StreamId, root: StreamId, entries: array<Entry>, parents: array<StreamId>,
                     ghost pl: Place, ghost g: Tree, ghost inner: bool)
    returns (node: StreamId, newRoot: StreamId)
    requires g.Node? && g.right.Node? && g.right.id == p && Held(entries[..], parents[..], pl, g, root)
    requires var red := if inner then g.right.left else g.right.right; red.Node? && red.id == n
    modifies entries, parents
    ensures RisenRight(g, inner).right.Node? && node == RisenRight(g, inner).right.id
    ensures Held(entries[..], parents[..], pl, RisenRight(g, inner), newRoot)
    ensures Rearranged(old(entries[..]), old(parents[..]), pl, g, entries[..], parents[..], pl, RisenRight(g, inner))
  {
    ghost var e, par := entries[..], parents[..];
    RightChildLinks(e, par, pl, g, root);
    hide Held;
    hide Linked;
    node, newRoot := n, root;
    ghost var g1 := OuterRight(g, inner);
    SameTree(e, par, pl, g);
    hide Rearranged;
    if node == entries[p].left {
      node := p;
      newRoot := TurnRightOutwards(node, newRoot, entries, parents, pl, g);
    }
    ghost var e1, par1 := entries[..], parents[..];
    assert Rearranged(e, par, pl, g, e1, par1, pl, g1);
    RightChildLinks(e1, par1, pl, g1, newRoot);
    var p2 := parents[node];
    var gp2 := parents[p2];
    newRoot := RiseRight(p2, gp2, newRoot, entries, parents, pl, g1);
    RearrangedTwice(e, par, pl, g, e1, par1, pl, g1, entries[..], parents[..], pl, RisenRight(g1, false));
  }

  /** One round of the repair where the parent is the right child. */
  method RepairRight(n: StreamId, p: StreamId, gp: StreamId, root: StreamId,
                    entries: array<Entry>, parents: array<StreamId>, ghost pl: Place, ghost g: Tree, ghost inner: bool)
    returns (node: StreamId, newRoot: StreamId, ghost place: Place, ghost t: Tree)
    requires g.Node? && g.right.Node? && g.id == gp && g.right.id == p
    requires Held(entries[..], parents[..], pl, g, root)
    requires var red := if inner then g.right.left else g.right.right; red.Node? && red.id == n
    modifies entries, parents
    ensures IsRed(g.left) ==> place == pl && t == Raised(g)
    ensures !IsRed(g.left) ==> RisenRight(g, inner).right.Node?
    ensures !IsRed(g.left) ==> place == BelowRight(pl, RisenRight(g, inner)) && t == RisenRight(g, inner).right
    ensures t.Node? && node == t.id
    ensures Held(entries[..], parents[..], place, t, newRoot)
    ensures Rearranged(old(entries[..]), old(parents[..]), pl, g, entries[..], parents[..], place, t)
  {
    ghost var e, par := entries[..], parents[..];
    RightChildLinks(e, par, pl, g, root);
    hide Held;
    hide Rearranged;
    hide Linked;
    var uncle := entries[gp].left;
    if IsValid(uncle) && entries[uncle].color == Red {
      RaiseRight(p, uncle, gp, entries, par, pl, g, root);
      node, newRoot, place, t := gp, root, pl, Raised(g);
    } else {
      assert !IsRed(g.left);
      node, newRoot := TurnOutRight(n, p, root, entries, parents, pl, g, inner);
      ghost var top := RisenRight(g, inner);
      hide RisenRight;
      place, t := BelowRight(pl, top), top.right;
      RightChildIsHeld(entries[..], parents[..], pl, top, newRoot);
      RightChildIsSameWhole(pl, top);
      hide SameWhole;
      SeenElsewhere(e, par, pl, g, entries[..], parents[..], pl, top, place, t);
    }
  }

  function Over(place: Place, t: Tree): Tree
    requires !place.Root?
  {
    if place.LeftOf? then Node(t, place.id, place.color, place.right) else Node(place.left, place.id, place.color, t)
  }

  lemma OverIsHeld(e: seq<Entry>, par: seq<StreamId>, place: Place, t: Tree, root: StreamId)
    requires !place.Root?
    ensures Held(e, par, place, t, root) <==> Held(e, par, place.up, Over(place, t), root)
    ensures SameWhole(place, t, place.up, Over(place, t))
  {
    var g := Over(place, t);
    if place.LeftOf? {
      LeftChildIsHeld(e, par, place.up, g, root);
      LeftChildIsSameWhole(place.up, g);
    } else {
      RightChildIsHeld(e, par, place.up, g, root);
      RightChildIsSameWhole(place.up, g);
    }
    hide Held;
    hide SameWhole;
  }

  /** The subtree of the grandparent of a place. */
  function Grand(place: Place, t: Tree): Tree
    requires !place.Root? && !place.up.Root?
  {
    Over(place.up, Over(place, t))
  }

  lemma GrandIsHeld(e: seq<Entry>, par: seq<StreamId>, place: Place, t: Tree, root: StreamId)
    requires !place.Root? && !place.up.Root? && Held(e, par, place, t, root)
    ensures Held(e, par, place.up.up, Grand(place, t), root)
    ensures SameWhole(place, t, place.up.up, Grand(place, t))
  {
    OverIsHeld(e, par, place, t, root);
    OverIsHeld(e, par, place.up, Over(place, t), root);
    hide Held;
  }

  /** Whether the entry and its parent are children on different sides. */
  predicate IsInner(place: Place)
    requires !place.Root? && !place.up.Root?
  {
    place.LeftOf? != place.up.LeftOf?
  }

  function Sibling(place: Place): Tree
    requires !place.Root?
  {
    if place.LeftOf? then place.right else place.left
  }

  lemma UnderRedTakenApart(place: Place, t: Tree, h: nat)
    requires AllButHere(place, t, h) && UnderRed(place)
    ensures !place.up.Root? && place.up.color == Black
    ensures PartsFit(place.up.up, t, Sibling(place), Sibling(place.up), h)
  {
    var up := place.up;
    TakeApart(up.up, t, place.id, Sibling(place), up.id, Sibling(up), h);
    assert RedOkAround(up);
    hide RedOk;
    hide HasHeight;
    hide PartsFit;
    hide IsRed;
  }

  lemma RaisedIsFine(place: Place, t: Tree, h: nat)
    requires AllButHere(place, t, h) && UnderRed(place) && IsRed(t)
    requires !place.up.Root? && IsRed(Sibling(place.up))
    ensures AllButHere(place.up.up, Raised(Grand(place, t)), h + 1) && IsRed(Raised(Grand(place, t)))
    ensures Depth(place.up.up) < Depth(place)
  {
    UnderRedTakenApart(place, t, h);
    RecolorMovesUp(place.up.up, t, place.id, Sibling(place), place.up.id, Sibling(place.up), h);
    hide AllButHere;
    hide PartsFit;
  }

  /** Where the repair goes on after a rotation, and with what. */
  function RisenPlace(place: Place, t: Tree): Place
    requires !place.Root? && !place.up.Root? && IsRed(t)
  {
    var g := Grand(place, t);
    if place.up.LeftOf? then BelowLeft(place.up.up, RisenLeft(g, IsInner(place)))
    else BelowRight(place.up.up, RisenRight(g, IsInner(place)))
  }

  function RisenTree(place: Place, t: Tree): Tree
    requires !place.Root? && !place.up.Root? && IsRed(t)
  {
    var g := Grand(place, t);
    if place.up.LeftOf? then RisenLeft(g, IsInner(place)).left else RisenRight(g, IsInner(place)).right
  }

  lemma RisenIsFine(place: Place, t: Tree, h: nat)
    requires AllButHere(place, t, h) && UnderRed(place) && IsRed(t)
    requires !place.up.Root? && !IsRed(Sibling(place.up))
    ensures AllButHere(RisenPlace(place, t), RisenTree(place, t), h)
    ensures IsRed(RisenTree(place, t)) && !UnderRed(RisenPlace(place, t))
    ensures Depth(RisenPlace(place, t)) < Depth(place)
  {
    UnderRedTakenApart(place, t, h);
    if IsInner(place) {
      InnerRotates(place.up.up, t.left, t.id, t.right, place.id, Sibling(place), place.up.id, Sibling(place.up), h);
    } else {
      OuterRotates(place.up.up, t, place.id, Sibling(place), place.up.id, Sibling(place.up), h);
    }
    hide AllButHere;
    hide PartsFit;
  }

  lemma {:induction false} TopCounts(place: Place, id: StreamId)
    requires !place.Root?
    ensures CountAround(place, TopId(place, id)) > 0
    decreases place
  {
    if !place.up.Root? {
      TopCounts(place.up, place.id);
    }
  }

  lemma NodeLinks(e: seq<Entry>, par: seq<StreamId>, place: Place, t: Tree, root: StreamId)
    requires t.Node? && Held(e, par, place, t, root)
    ensures t.id < |e| == |par| && par[t.id] == ParentId(place)
    ensures t.id == root <==> place.Root?
    ensures !place.Root? ==> place.id < |e| && e[place.id].color == place.color && par[place.id] == ParentId(place.up)
    ensures !place.Root? && !place.up.Root? ==>
              place.up.id < |e| && e[place.up.id].color == place.up.color
              && (place.id == e[place.up.id].left <==> place.up.LeftOf?)
  {
    RootCounts(t);
    assert Count(t, t.id) + CountAround(place, t.id) <= 1;
    if !place.Root? {
      TopCounts(place, t.id);
      OverIsHeld(e, par, place, t, root);
      var g := Over(place, t);
      RootCounts(g);
      assert Count(g, g.id) + CountAround(place.up, g.id) <= 1;
      assert LinkedAround(e, par, place.up, g.id);
      SiblingIsOther(e, par, place.up, g.id);
    }
    hide Count;
    hide CountAround;
    hide SameWhole;
  }

  lemma {:induction false} PlugIsHeld(e: seq<Entry>, par: seq<StreamId>, place: Place, t: Tree, root: StreamId)
    requires Held(e, par, place, t, root)
    ensures Held(e, par, Place.Root, Plug(place, t), root)
    ensures SameWhole(place, t, Place.Root, Plug(place, t))
    decreases place
  {
    if !place.Root? {
      OverIsHeld(e, par, place, t, root);
      hide Held;
      PlugIsHeld(e, par, place.up, Over(place, t), root);
      assert Plug(place, t) == Plug(place.up, Over(place, t));
    }
  }

  lemma {:induction false} PlugHasRoot(place: Place, t: Tree)
    requires t.Node?
    ensures Plug(place, t).Node?
    decreases place
  {
    if !place.Root? {
      PlugHasRoot(place.up, Over(place, t));
    }
  }

  lemma BlackenedIsRedBlack(place: Place, t: Tree, h: nat)
    requires t.Node? && AllButHere(place, t, h) && !UnderRed(place)
    ensures Plug(place, t).Node? && IsRedBlack(Plug(place, t).(color := Black))
  {
    PlugHasRoot(place, t);
    var whole := Plug(place, t);
    if place.Root? {
      assert HasHeight(t.(color := Black), h + 1 - Weight(t.color));
    } else {
      PlugIsRedBlack(place, t, h);
      assert whole.(color := Black) == whole;
    }
  }

  /** One round of the repair: red under red goes, or moves towards the root. */
  method RepairOnce(n: StreamId, root: StreamId, entries: array<Entry>, parents: array<StreamId>,
                    ghost place: Place, ghost t: Tree, ghost h: nat)
    returns (node: StreamId, newRoot: StreamId, ghost place': Place, ghost t': Tree, ghost h': nat)
    requires t.Node? && t.id == n && IsRed(t) && UnderRed(place)
    requires Held(entries[..], parents[..], place, t, root) && AllButHere(place, t, h)
    modifies entries, parents
    ensures t'.Node? && t'.id == node && IsRed(t') && Depth(place') < Depth(place)
    ensures Held(entries[..], parents[..], place', t', newRoot) && AllButHere(place', t', h')
    ensures Rearranged(old(entries[..]), old(parents[..]), place, t, entries[..], parents[..], place', t')
  {
    ghost var e, par := entries[..], parents[..];
    NodeLinks(e, par, place, t, root);
    UnderRedTakenApart(place, t, h);
    GrandIsHeld(e, par, place, t, root);
    ghost var pl, g, inner := place.up.up, Grand(place, t), IsInner(place);
    if IsRed(Sibling(place.up)) {
      RaisedIsFine(place, t, h);
      h' := h + 1;
    } else {
      RisenIsFine(place, t, h);
      h' := h;
    }
    hide Held;
    hide Rearranged;
    hide SameWhole;
    hide AllButHere;
    hide RisenLeft;
    hide RisenRight;
    hide Depth;
    var p := parents[n];
    var gp := parents[p];
    if p == entries[gp].left {
      node, newRoot, place', t' := RepairLeft(n, p, gp, root, entries, parents, pl, g, inner);
    } else {
      node, newRoot, place', t' := RepairRight(n, p, gp, root, entries, parents, pl, g, inner);
    }
    SeenFromElsewhere(e, par, pl, g, place, t, entries[..], parents[..], place', t');
  }

  method BlackenRoot(root: StreamId, entries: array<Entry>, ghost par: seq<StreamId>,
                     ghost place: Place, ghost t: Tree, ghost h: nat) returns (ghost whole: Tree)
    requires t.Node? && Held(entries[..], par, place, t, root) && AllButHere(place, t, h) && !UnderRed(place)
    modifies entries
    ensures Held(entries[..], par, Place.Root, whole, root) && IsRedBlack(whole)
    ensures Rearranged(old(entries[..]), par, place, t, entries[..], par, Place.Root, whole)
  {
    ghost var e := entries[..];
    PlugIsHeld(e, par, place, t, root);
    BlackenedIsRedBlack(place, t, h);
    ghost var whole0 := Plug(place, t);
    whole := whole0.(color := Black);
    hide Rearranged;
    hide SameWhole;
    hide AllButHere;
    hide IsRedBlack;
    hide Plug;
    assert whole0.id == root;
    hide Held;
    SetColor(root, Black, entries, par, Place.Root, whole0, root);
    SeenFromElsewhere(e, par, Place.Root, whole0, place, t, entries[..], par, Place.Root, whole);
  }

  /** The loop of the repair: it ends with red under no red. */
  method RepairAll(newId: StreamId, root: StreamId, entries: array<Entry>, parents: array<StreamId>,
                   ghost place0: Place, ghost t0: Tree, ghost h0: nat)
    returns (currentRoot: StreamId, ghost place: Place, ghost t: Tree, ghost h: nat)
    requires t0.Node? && t0.id == newId && IsRed(t0)
    requires Held(entries[..], parents[..], place0, t0, root) && AllButHere(place0, t0, h0)
    modifies entries, parents
    ensures t.Node? && !UnderRed(place)
    ensures Held(entries[..], parents[..], place, t, currentRoot) && AllButHere(place, t, h)
    ensures Rearranged(old(entries[..]), old(parents[..]), place0, t0, entries[..], parents[..], place, t)
  {
    ghost var e0, par0 := entries[..], parents[..];
    var node := newId;
    currentRoot := root;
    place, t, h := place0, t0, h0;
    NodeLinks(e0, par0, place, t, root);
    SameTree(e0, par0, place, t);
    hide Held;
    hide Rearranged;
    hide AllButHere;
    hide Depth;
    while node != currentRoot && entries[parents[node]].color == Red
      invariant t.Node? && t.id == node < entries.Length == parents.Length && IsRed(t)
      invariant Held(entries[..], parents[..], place, t, currentRoot) && AllButHere(place, t, h)
      invariant Rearranged(e0, par0, place0, t0, entries[..], parents[..], place, t)
      invariant node == currentRoot <==> place.Root?
      invariant !place.Root? ==> parents[node] < entries.Length && entries[parents[node]].color == place.color
      decreases Depth(place)
    {
      ghost var e, par, place1, t1 := entries[..], parents[..], place, t;
      node, currentRoot, place, t, h := RepairOnce(node, currentRoot, entries, parents, place, t, h);
      RearrangedTwice(e0, par0, place0, t0, e, par, place1, t1, entries[..], parents[..], place, t);
      NodeLinks(entries[..], parents[..], place, t, currentRoot);
    }
  }

  /** The repair after a red entry has been put under whatever was there. */
  method FixUp(newId: StreamId, root: StreamId, entries: array<Entry>, parents: array<StreamId>,
               ghost place0: Place, ghost t0: Tree, ghost h0: nat) returns (currentRoot: StreamId, ghost whole: Tree)
    requires t0.Node? && t0.id == newId && IsRed(t0)
    requires Held(entries[..], parents[..], place0, t0, root) && AllButHere(place0, t0, h0)
    modifies entries, parents
    ensures Held(entries[..], parents[..], Place.Root, whole, currentRoot) && IsRedBlack(whole)
    ensures Rearranged(old(entries[..]), old(parents[..]), place0, t0, entries[..], parents[..], Place.Root, whole)
  {
    hide *;
    ghost var e0, par0 := entries[..], parents[..];
    ghost var place, t, h;
    currentRoot, place, t, h := RepairAll(newId, root, entries, parents, place0, t0, h0);
    ghost var e, par := entries[..], parents[..];
    whole := BlackenRoot(currentRoot, entries, par, place, t, h);
    RearrangedTwice(e0, par0, place0, t0, e, par, place, t, entries[..], par, Place.Root, whole);
  }

  // ----- Insertion -----

  /** Entry `a` may stand before entry `b`. */
  predicate NotAfter(up: Upcase, e: seq<Entry>, a: StreamId, b: StreamId) {
    a < |e| && b < |e| && CompareNames(up, e[a].name, e[b].name) != Greater
  }

  ghost predicate Sorted(up: Upcase, e: seq<Entry>, ids: seq<StreamId>) {
    forall i, j | 0 <= i < j < |ids| :: NotAfter(up, e, ids[i], ids[j])
  }

  lemma SortedBySameNames(up: Upcase, e: seq<Entry>, e': seq<Entry>, ids: seq<StreamId>)
    requires Sorted(up, e, ids) && SameNames(e, e')
    ensures Sorted(up, e', ids)
  {
    forall i, j | 0 <= i < j < |ids| ensures NotAfter(up, e', ids[i], ids[j]) {
      assert NotAfter(up, e, ids[i], ids[j]);
    }
  }

  /** A new entry belongs between those in front of a place and those behind it. */
  ghost predicate Belongs(up: Upcase, e: seq<Entry>, before: seq<StreamId>, id: StreamId, after: seq<StreamId>) {
    && id < |e|
    && (forall k | 0 <= k < |before| :: NotAfter(up, e, before[k], id))
    && (forall k | 0 <= k < |after| :: after[k] < |e| && CompareNames(up, e[id].name, e[after[k]].name) == Less)
  }

  lemma LessThenNotAfter(up: Upcase, e: seq<Entry>, id: StreamId, a: StreamId, b: StreamId)
    requires id < |e| && NotAfter(up, e, a, b) && CompareNames(up, e[id].name, e[a].name) == Less
    ensures CompareNames(up, e[id].name, e[b].name) == Less
  {
    NamesChain(up, e[id].name, e[a].name, e[b].name);
  }

  lemma NotAfterTwice(up: Upcase, e: seq<Entry>, a: StreamId, b: StreamId, c: StreamId)
    requires NotAfter(up, e, a, b) && NotAfter(up, e, b, c)
    ensures NotAfter(up, e, a, c)
  {
    NamesChain(up, e[a].name, e[b].name, e[c].name);
  }

  /** Going left of `curr`, everything from `curr` on is behind the new entry. */
  lemma BelongsLeft(up: Upcase, e: seq<Entry>, b: seq<StreamId>, l: seq<StreamId>, curr: StreamId, r: seq<StreamId>,
                    a: seq<StreamId>, id: StreamId)
    requires Sorted(up, e, b + (l + [curr] + r) + a) && Belongs(up, e, b, id, a)
    requires curr < |e| && CompareNames(up, e[id].name, e[curr].name) == Less
    ensures Belongs(up, e, b, id, [curr] + r + a)
  {
    var all := b + (l + [curr] + r) + a;
    var after := [curr] + r + a;
    var n := |b| + |l|;
    assert all[n] == curr;
    forall k | 0 <= k < |after| ensures after[k] < |e| && CompareNames(up, e[id].name, e[after[k]].name) == Less {
      assert after[k] == all[n + k];
      if k > 0 {
        assert NotAfter(up, e, all[n], all[n + k]);
        LessThenNotAfter(up, e, id, curr, after[k]);
      }
    }
  }

  /** Going right of `curr`, everything up to `curr` is in front of the new entry. */
  lemma BelongsRight(up: Upcase, e: seq<Entry>, b: seq<StreamId>, l: seq<StreamId>, curr: StreamId, r: seq<StreamId>,
                     a: seq<StreamId>, id: StreamId)
    requires Sorted(up, e, b + (l + [curr] + r) + a) && Belongs(up, e, b, id, a)
    requires curr < |e| && CompareNames(up, e[id].name, e[curr].name) != Less
    ensures Belongs(up, e, b + l + [curr], id, a)
  {
    var all := b + (l + [curr] + r) + a;
    var before := b + l + [curr];
    var n := |b| + |l|;
    assert all[n] == curr;
    NamesReverse(up, e[id].name, e[curr].name);
    forall k | 0 <= k < |before| ensures NotAfter(up, e, before[k], id) {
      assert before[k] == all[k];
      if k < n {
        assert NotAfter(up, e, all[k], all[n]);
        NotAfterTwice(up, e, before[k], curr, id);
      }
    }
  }

  lemma BelongsIsSorted(up: Upcase, e: seq<Entry>, before: seq<StreamId>, id: StreamId, after: seq<StreamId>)
    requires Sorted(up, e, before + after) && Belongs(up, e, before, id, after)
    ensures Sorted(up, e, before + [id] + after)
  {
    var ids, n := before + [id] + after, |before|;
    forall i, j | 0 <= i < j < |ids| ensures NotAfter(up, e, ids[i], ids[j]) {
      var i', j' := if i < n then i else i - 1, if j < n then j else j - 1;
      if i != n && j != n {
        assert (before + after)[i'] == ids[i] && (before + after)[j'] == ids[j];
        assert NotAfter(up, e, (before + after)[i'], (before + after)[j']);
      } else if i == n {
        assert ids[j] == after[j - n - 1];
      } else {
        assert ids[i] == before[i];
      }
    }
  }

  /** An entry that is not in the tree yet, as it is created. */
  predicate Fresh(e: seq<Entry>, par: seq<StreamId>, id: StreamId) {
    && IsValid(id) && id < |e| == |par|
    && IsNone(e[id].left) && IsNone(e[id].right) && IsNone(par[id])
  }

  /** A fresh entry linked under the place it belongs to. */
  lemma AttachHolds(e: seq<Entry>, par: seq<StreamId>, e': seq<Entry>, par': seq<StreamId>, place: Place, id: StreamId,
                    root: StreamId)
    requires Held(e, par, place, Leaf, root) && Fresh(e, par, id) && CountAround(place, id) == 0 && !place.Root?
    requires place.id < |e|
    requires e' == if place.LeftOf? then e[place.id := e[place.id].(left := id)]
                   else e[place.id := e[place.id].(right := id)]
    requires par' == par[id := place.id]
    ensures Held(e', par', place, Node(Leaf, id, e[id].color, Leaf), root)
    ensures e'[id] == e[id] && SameNames(e, e')
    ensures forall i | 0 <= i < |e| && i != id && i != place.id :: e'[i] == e[i] && par'[i] == par[i]
  {
    var t := Node(Leaf, id, e[id].color, Leaf);
    PlaceIsLinked(e, par, place, NO_STREAM);
    forall i: StreamId ensures Count(t, i) + CountAround(place, i) <= 1 {
      assert Count(Leaf, i) + CountAround(place, i) <= 1;
    }
    assert forall i: StreamId :: CountAround(place, i) <= 1;
    hide CountAround;
    hide LinkedAround;
    AroundMoved(e, par, e', par', place, NO_STREAM, id);
    assert Linked(e', par', t, place.id);
    assert TopId(place, id) == TopId(place, NO_STREAM);
    assert Distinct(place, t);
  }

  /** The search for the place of a new entry has come to `place`. */
  ghost predicate Searching(up: Upcase, e: seq<Entry>, par: seq<StreamId>, place: Place, t: Tree, h: nat,
                            root: StreamId, whole: Tree, newId: StreamId) {
    && Held(e, par, place, t, root) && AllButHere(place, t, h) && FineHere(place, t)
    && SameWhole(Place.Root, whole, place, t)
    && Sorted(up, e, Inorder(whole)) && Belongs(up, e, Before(place), newId, After(place))
  }

  lemma SearchBegins(up: Upcase, e: seq<Entry>, par: seq<StreamId>, root: StreamId, whole: Tree, newId: StreamId)
    returns (h: nat)
    requires Held(e, par, Place.Root, whole, root) && IsRedBlack(whole) && Sorted(up, e, Inorder(whole)) && newId < |e|
    ensures Searching(up, e, par, Place.Root, whole, h, root, whole, newId)
  {
    h :| HasHeight(whole, h);
    hide Sorted;
    hide Held;
  }

  lemma SearchGoesLeft(up: Upcase, e: seq<Entry>, par: seq<StreamId>, place: Place, t: Tree, h: nat,
                       root: StreamId, whole: Tree, newId: StreamId)
    requires t.Node? && t.id < |e| && newId < |e| && Searching(up, e, par, place, t, h, root, whole, newId)
    requires CompareNames(up, e[newId].name, e[t.id].name) == Less
    ensures h >= Weight(t.color)
    ensures Searching(up, e, par, BelowLeft(place, t), t.left, h - Weight(t.color), root, whole, newId)
  {
    DownIsFine(place, t, h);
    LeftChildIsHeld(e, par, place, t, root);
    LeftChildIsSameWhole(place, t);
    assert Inorder(whole) == Before(place) + (Inorder(t.left) + [t.id] + Inorder(t.right)) + After(place);
    hide AllButHere;
    hide FineHere;
    hide Held;
    hide Sorted;
    hide Belongs;
    hide Count;
    BelongsLeft(up, e, Before(place), Inorder(t.left), t.id, Inorder(t.right), After(place), newId);
  }

  lemma SearchGoesRight(up: Upcase, e: seq<Entry>, par: seq<StreamId>, place: Place, t: Tree, h: nat,
                        root: StreamId, whole: Tree, newId: StreamId)
    requires t.Node? && t.id < |e| && newId < |e| && Searching(up, e, par, place, t, h, root, whole, newId)
    requires CompareNames(up, e[newId].name, e[t.id].name) != Less
    ensures h >= Weight(t.color)
    ensures Searching(up, e, par, BelowRight(place, t), t.right, h - Weight(t.color), root, whole, newId)
  {
    DownIsFine(place, t, h);
    RightChildIsHeld(e, par, place, t, root);
    RightChildIsSameWhole(place, t);
    assert Inorder(whole) == Before(place) + (Inorder(t.left) + [t.id] + Inorder(t.right)) + After(place);
    hide AllButHere;
    hide FineHere;
    hide Held;
    hide Sorted;
    hide Belongs;
    hide Count;
    BelongsRight(up, e, Before(place), Inorder(t.left), t.id, Inorder(t.right), After(place), newId);
  }

  lemma ChildLinks(e: seq<Entry>, par: seq<StreamId>, place: Place, t: Tree, root: StreamId)
    requires t.Node? && Held(e, par, place, t, root)
    ensures t.id < |e| && e[t.id].left == RootId(t.left) && e[t.id].right == RootId(t.right)
    ensures IsNone(e[t.id].left) <==> t.left.Leaf?
    ensures IsNone(e[t.id].right) <==> t.right.Leaf?
    ensures t.left.Node? ==> t.left.id < |e|
    ensures t.right.Node? ==> t.right.id < |e|
  {
    assert Linked(e, par, t.left, t.id) && Linked(e, par, t.right, t.id);
    hide Distinct;
    hide LinkedAround;
  }

  /** What linking the new entry under the place that was found leaves. */
  ghost predicate Attached(up: Upcase, e: seq<Entry>, par: seq<StreamId>, e': seq<Entry>, par': seq<StreamId>,
                           place: Place, root: StreamId, whole: Tree, newId: StreamId) {
    && newId < |e| && |e'| == |par'| == |e| && e'[newId] == e[newId] && SameNames(e, e')
    && Held(e', par', place, Node(Leaf, newId, e[newId].color, Leaf), root)
    && RedOkAround(place) && Fits(place, 0) && !place.Root?
    && Before(place) + After(place) == Inorder(whole)
    && (forall i: StreamId :: CountAround(place, i) == Count(whole, i))
    && Belongs(up, e, Before(place), newId, After(place))
    && (forall i: StreamId | i < |e| && i < |par| && i != newId && Count(whole, i) == 0 :: e'[i] == e[i] && par'[i] == par[i])
  }

  lemma WholeIsAround(whole: Tree, place: Place)
    requires SameWhole(Place.Root, whole, place, Leaf)
    ensures Before(place) + After(place) == Inorder(whole)
    ensures forall i: StreamId :: CountAround(place, i) == Count(whole, i)
  {
    forall i: StreamId ensures CountAround(place, i) == Count(whole, i) {
      assert Count(Leaf, i) + CountAround(place, i) == Count(whole, i) + CountAround(Place.Root, i);
    }
    assert Before(place) + Inorder(Leaf) + After(place) == Before(place) + After(place);
    assert Before(Place.Root) + Inorder(whole) + After(Place.Root) == Inorder(whole);
  }

  lemma AttachEnds(up: Upcase, e: seq<Entry>, par: seq<StreamId>, e': seq<Entry>, par': seq<StreamId>,
                   place: Place, h: nat, root: StreamId, whole: Tree, newId: StreamId)
    requires Searching(up, e, par, place, Leaf, h, root, whole, newId) && !place.Root?
    requires Fresh(e, par, newId) && Count(whole, newId) == 0 && place.id < |e|
    requires e' == if place.LeftOf? then e[place.id := e[place.id].(left := newId)]
                   else e[place.id := e[place.id].(right := newId)]
    requires par' == par[newId := place.id]
    ensures Attached(up, e, par, e', par', place, root, whole, newId)
  {
    assert h == 0;
    WholeIsAround(whole, place);
    PlaceIsLinked(e, par, place, NO_STREAM);
    hide Belongs;
    hide Sorted;
    hide RedOkAround;
    hide Fits;
    hide Count;
    hide CountAround;
    hide Inorder;
    hide Before;
    hide After;
    hide SameWhole;
    hide Linked;
    hide LinkedAround;
    hide Distinct;
    hide SameNames;
    AttachHolds(e, par, e', par', place, newId, root);
    hide Held;
  }

  /** The search for the place of a new entry, and its linking there. */
  method Attach(up: Upcase, newId: StreamId, root: StreamId, entries: array<Entry>, parents: array<StreamId>,
                ghost whole: Tree) returns (ghost place: Place)
    requires whole.Node? && Held(entries[..], parents[..], Place.Root, whole, root) && IsRedBlack(whole)
    requires Fresh(entries[..], parents[..], newId) && Count(whole, newId) == 0
    requires Sorted(up, entries[..], Inorder(whole))
    modifies entries, parents
    ensures Attached(up, old(entries[..]), old(parents[..]), entries[..], parents[..], place, root, whole, newId)
  {
    ghost var e, par := entries[..], parents[..];
    var curr := root;
    var newName := entries[newId].name;
    ghost var t := whole;
    place := Place.Root;
    ghost var h: nat := SearchBegins(up, e, par, root, whole, newId);
    NodeLinks(e, par, place, t, root);
    hide Attached;
    while true
      invariant entries[..] == e && parents[..] == par
      invariant t.Node? && t.id == curr < |e| && Searching(up, e, par, place, t, h, root, whole, newId)
      decreases t
    {
      ChildLinks(e, par, place, t, root);
      hide Searching;
      var order := CompareNames(up, newName, entries[curr].name);
      if order == Less {
        SearchGoesLeft(up, e, par, place, t, h, root, whole, newId);
        place, h := BelowLeft(place, t), h - Weight(t.color);
        var left := entries[curr].left;
        if IsNone(left) {
          entries[curr] := entries[curr].(left := newId);
          parents[newId] := curr;
          AttachEnds(up, e, par, entries[..], parents[..], place, h, root, whole, newId);
          return;
        }
        curr, t := left, t.left;
      } else {
        SearchGoesRight(up, e, par, place, t, h, root, whole, newId);
        place, h := BelowRight(place, t), h - Weight(t.color);
        var right := entries[curr].right;
        if IsNone(right) {
          entries[curr] := entries[curr].(right := newId);
          parents[newId] := curr;
          AttachEnds(up, e, par, entries[..], parents[..], place, h, root, whole, newId);
          return;
        }
        curr, t := right, t.right;
      }
    }
  }

  /** The ids of a tree with one more among them. */
  ghost predicate InsertedInto(ids: seq<StreamId>, id: StreamId, ids': seq<StreamId>) {
    exists k: nat :: k <= |ids| && ids' == ids[..k] + [id] + ids[k..]
  }

  /** All that insertion promises of the arrays but that they hold a red-black tree. */
  ghost predicate Inserted(up: Upcase, e: seq<Entry>, par: seq<StreamId>, t: Tree,
                           e': seq<Entry>, par': seq<StreamId>, t': Tree, newId: StreamId) {
    && InsertedInto(Inorder(t), newId, Inorder(t')) && Sorted(up, e', Inorder(t'))
    && SameNames(e, e') && |par'| == |par| == |e|
    && (forall i: StreamId | i < |e| && i != newId && Count(t, i) == 0 :: e'[i] == e[i] && par'[i] == par[i])
    && (forall i: StreamId :: Count(t', i) == Count(t, i) + if i == newId then 1 else 0)
  }

  lemma FirstEntry(up: Upcase, e: seq<Entry>, par: seq<StreamId>, t: Tree, root: StreamId, newId: StreamId)
    requires Held(e, par, Place.Root, t, root) && IsNone(root) && Fresh(e, par, newId)
    ensures var e' := e[newId := e[newId].(color := Black)]; var t' := Node(Leaf, newId, Black, Leaf);
            && Held(e', par, Place.Root, t', newId) && IsRedBlack(t')
            && Inserted(up, e, par, t, e', par, t', newId)
  {
    assert t == Leaf;
    var t' := Node(Leaf, newId, Black, Leaf);
    assert HasHeight(t', 1);
    var none: seq<StreamId> := [];
    assert Inorder(t) == none && Inorder(t') == [newId];
    assert none[..0] + [newId] + none[0..] == [newId];
    assert InsertedInto(none, newId, [newId]);
    assert forall i: StreamId :: Count(t', i) == if i == newId then 1 else 0;
  }

  lemma RootIsThere(e: seq<Entry>, par: seq<StreamId>, t: Tree, root: StreamId)
    requires Held(e, par, Place.Root, t, root)
    ensures t.Leaf? <==> IsNone(root)
  {
  }

  lemma ReadyToColor(up: Upcase, e: seq<Entry>, par: seq<StreamId>, e': seq<Entry>, par': seq<StreamId>,
                     place: Place, root: StreamId, whole: Tree, newId: StreamId)
    requires newId < |e| && Attached(up, e, par, e', par', place, root, whole, newId)
    ensures Held(e', par', place, Node(Leaf, newId, e[newId].color, Leaf), root)
    ensures AllButHere(place, Node(Leaf, newId, Red, Leaf), 0)
  {
    assert HasHeight(Node(Leaf, newId, Red, Leaf), 0);
    assert RedOk(Node(Leaf, newId, Red, Leaf));
    hide Held;
    hide Belongs;
    hide SameNames;
  }

  lemma InsertedOrder(up: Upcase, e: seq<Entry>, e': seq<Entry>, before: seq<StreamId>, newId: StreamId,
                      after: seq<StreamId>)
    requires Sorted(up, e, before + after) && Belongs(up, e, before, newId, after) && SameNames(e, e')
    ensures Sorted(up, e', before + [newId] + after)
    ensures InsertedInto(before + after, newId, before + [newId] + after)
  {
    BelongsIsSorted(up, e, before, newId, after);
    SortedBySameNames(up, e, e', before + [newId] + after);
    hide Belongs;
    hide Sorted;
    hide SameNames;
    var all := before + after;
    assert all[..|before|] == before && all[|before|..] == after;
  }

  lemma InsertedCounts(place: Place, t: Tree, one: Tree, t': Tree, newId: StreamId)
    requires one.Node? && one.left == Leaf && one.right == Leaf && one.id == newId
    requires forall i: StreamId :: CountAround(place, i) == Count(t, i)
    requires forall i: StreamId :: Count(t', i) + CountAround(Place.Root, i) == Count(one, i) + CountAround(place, i)
    ensures forall i: StreamId :: Count(t', i) == Count(t, i) + if i == newId then 1 else 0
    ensures forall i: StreamId :: Count(one, i) == if i == newId then 1 else 0
  {
    forall i: StreamId ensures Count(one, i) == (if i == newId then 1 else 0) && CountAround(Place.Root, i) == 0 {
      assert Count(Leaf, i) == 0;
    }
  }

  lemma OneEntry(id: StreamId, color: Color)
    ensures Inorder(Node(Leaf, id, color, Leaf)) == [id]
  {
  }

  lemma WholeOrder(t: Tree)
    ensures Before(Place.Root) + Inorder(t) + After(Place.Root) == Inorder(t)
  {
    hide Inorder;
  }

  lemma InsertedIds(up: Upcase, e: seq<Entry>, par: seq<StreamId>, e1: seq<Entry>, par1: seq<StreamId>,
                   e': seq<Entry>, par': seq<StreamId>, place: Place, t: Tree, t': Tree, root: StreamId, newId: StreamId)
    requires |e| == |par| && Attached(up, e, par, e1, par1, place, root, t, newId)
    requires Rearranged(e1, par1, place, Node(Leaf, newId, e[newId].color, Leaf), e', par', Place.Root, t')
    ensures forall i: StreamId :: Count(t', i) == Count(t, i) + if i == newId then 1 else 0
    ensures Inorder(t') == Before(place) + [newId] + After(place) && Inorder(t) == Before(place) + After(place)
  {
    hide Belongs;
    hide Held;
    hide SameNames;
    hide Count;
    hide CountAround;
    hide Inorder;
    hide Before;
    hide After;
    var one := Node(Leaf, newId, e[newId].color, Leaf);
    OneEntry(newId, e[newId].color);
    WholeOrder(t');
    InsertedCounts(place, t, one, t', newId);
  }

  lemma InsertedFrame(up: Upcase, e: seq<Entry>, par: seq<StreamId>, e1: seq<Entry>, par1: seq<StreamId>,
                   e': seq<Entry>, par': seq<StreamId>, place: Place, t: Tree, t': Tree, root: StreamId, newId: StreamId)
    requires |e| == |par| && Attached(up, e, par, e1, par1, place, root, t, newId)
    requires Rearranged(e1, par1, place, Node(Leaf, newId, e[newId].color, Leaf), e', par', Place.Root, t')
    ensures SameNames(e, e') && |par'| == |e|
    ensures forall i: StreamId | i < |e| && i != newId && Count(t, i) == 0 :: e'[i] == e[i] && par'[i] == par[i]
  {
    var one := Node(Leaf, newId, e[newId].color, Leaf);
    hide Belongs;
    hide Held;
    hide Inorder;
    hide Before;
    hide After;
    InsertedCounts(place, t, one, t', newId);
    hide Count;
    hide CountAround;
  }

  lemma InsertEnds(up: Upcase, e: seq<Entry>, par: seq<StreamId>, e1: seq<Entry>, par1: seq<StreamId>,
                   e': seq<Entry>, par': seq<StreamId>, place: Place, t: Tree, t': Tree, root: StreamId, newId: StreamId)
    requires |e| == |par| && Sorted(up, e, Inorder(t)) && Attached(up, e, par, e1, par1, place, root, t, newId)
    requires Rearranged(e1, par1, place, Node(Leaf, newId, e[newId].color, Leaf), e', par', Place.Root, t')
    ensures Inserted(up, e, par, t, e', par', t', newId)
  {
    InsertedIds(up, e, par, e1, par1, e', par', place, t, t', root, newId);
    InsertedFrame(up, e, par, e1, par1, e', par', place, t, t', root, newId);
    assert Belongs(up, e, Before(place), newId, After(place));
    hide Attached;
    hide Rearranged;
    hide Belongs;
    hide Sorted;
    hide SameNames;
    hide Count;
    hide Inorder;
    hide Before;
    hide After;
    hide InsertedInto;
    InsertedOrder(up, e, e', Before(place), newId, After(place));
  }

  /** Insertion into a red-black tree of entries: it stays one, held by the arrays as
      before and still in order, with the new entry and no other, at a place where the
      order of names allows it. No name changes, and no entry outside the tree. */
  method RbInsert(up: Upcase, root: StreamId, newId: StreamId, entries: array<Entry>, parents: array<StreamId>,
                  ghost t: Tree) returns (newRoot: StreamId, ghost t': Tree)
    requires Held(entries[..], parents[..], Place.Root, t, root) && IsRedBlack(t)
    requires Fresh(entries[..], parents[..], newId) && Count(t, newId) == 0
    requires Sorted(up, entries[..], Inorder(t))
    modifies entries, parents
    ensures Held(entries[..], parents[..], Place.Root, t', newRoot) && IsRedBlack(t')
    ensures Inserted(up, old(entries[..]), old(parents[..]), t, entries[..], parents[..], t', newId)
  {
    ghost var e, par := entries[..], parents[..];
    RootIsThere(e, par, t, root);
    hide Held;
    hide IsRedBlack;
    hide Sorted;
    hide Inserted;
    hide Rearranged;
    hide Attached;
    if IsNone(root) {
      entries[newId] := entries[newId].(color := Black);
      t' := Node(Leaf, newId, Black, Leaf);
      newRoot := newId;
      FirstEntry(up, e, par, t, root, newId);
      assert entries[..] == e[newId := e[newId].(color := Black)];
      return;
    }
    ghost var place := Attach(up, newId, root, entries, parents, t);
    ghost var e1, par1 := entries[..], parents[..];
    ghost var t1 := Node(Leaf, newId, e[newId].color, Leaf);
    ghost var t2 := t1.(color := Red);
    ReadyToColor(up, e, par, e1, par1, place, root, t, newId);
    SetColor(newId, Red, entries, par1, place, t1, root);
    ghost var e2 := entries[..];
    newRoot, t' := FixUp(newId, root, entries, parents, place, t2, 0);
    RearrangedTwice(e1, par1, place, t1, e2, par1, place, t2, entries[..], parents[..], Place.Root, t');
    InsertEnds(up, e, par, e1, par1, entries[..], parents[..], place, t, t', root, newId);
  }
}
