/** What the links of a directory say to a reader that follows them down from the root:
    names in order, colours in balance, every stream reached. */
module DirectoryWays {
  import opened CfbNames
  import opened SiblingTrees
  import opened DirectoryLinks
  import opened DirectoryTrees
  import opened DirectorySearch

  datatype Turn = ToLeft | ToRight

  predicate IsEntry(e: seq<Entry>, id: StreamId) {
    id <= 0xFFFF_FFFA && id < |e|
  }

  function Taken(e: seq<Entry>, id: StreamId, turn: Turn): StreamId
    requires IsEntry(e, id)
  {
    if turn == ToLeft then e[id].left else e[id].right
  }

  /** Where a way down from an entry leads; a way that leaves the tree ends there. */
  function Follow(e: seq<Entry>, id: StreamId, way: seq<Turn>): StreamId
    decreases way
  {
    if way == [] || !IsEntry(e, id) then id else Follow(e, Taken(e, id, way[0]), way[1..])
  }

  /** The black entries on a way. */
  function BlacksOn(e: seq<Entry>, id: StreamId, way: seq<Turn>): nat
    decreases way
  {
    if way == [] || !IsEntry(e, id) then 0
    else (if e[id].color == Black then 1 else 0) + BlacksOn(e, Taken(e, id, way[0]), way[1..])
  }

  function Side(t: Tree, turn: Turn): Tree
    requires t.Node?
  {
    if turn == ToLeft then t.left else t.right
  }

  lemma RootIsEntry(e: seq<Entry>, par: seq<StreamId>, t: Tree, parent: StreamId)
    requires Linked(e, par, t, parent)
    ensures IsEntry(e, RootId(t)) <==> t.Node?
    ensures t.Node? ==> e[t.id].color == t.color
    ensures t.Node? ==> forall turn ::
              Taken(e, t.id, turn) == RootId(Side(t, turn)) && Linked(e, par, Side(t, turn), t.id)
  {
  }

  lemma {:induction false} FollowStays(e: seq<Entry>, par: seq<StreamId>, t: Tree, parent: StreamId, way: seq<Turn>)
    requires Linked(e, par, t, parent)
    ensures IsEntry(e, Follow(e, RootId(t), way)) ==> Count(t, Follow(e, RootId(t), way)) > 0
    decreases way
  {
    RootIsEntry(e, par, t, parent);
    if t.Node? && way != [] {
      FollowStays(e, par, Side(t, way[0]), t.id, way[1..]);
    }
    hide Linked;
  }

  /** Below an entry on the left no name comes after its name, on the right none before. */
  lemma {:induction false} WaysInOrder(up: Upcase, e: seq<Entry>, par: seq<StreamId>, t: Tree, parent: StreamId,
                                       way: seq<Turn>, further: seq<Turn>)
    requires Linked(e, par, t, parent) && Sorted(up, e, Inorder(t))
    ensures var x := Follow(e, RootId(t), way);
            IsEntry(e, x) ==>
              var y, z := Follow(e, e[x].left, further), Follow(e, e[x].right, further);
              && (IsEntry(e, y) ==> !NameBefore(up, e[x].name, e[y].name))
              && (IsEntry(e, z) ==> !NameBefore(up, e[z].name, e[x].name))
    decreases way
  {
    RootIsEntry(e, par, t, parent);
    if t.Node? {
      SidesInOrder(up, e, t);
      hide Linked;
      hide Sorted;
      hide Inorder;
      if way == [] {
        var y, z := Follow(e, e[t.id].left, further), Follow(e, e[t.id].right, further);
        FollowStays(e, par, t.left, t.id, further);
        FollowStays(e, par, t.right, t.id, further);
        hide Follow;
        hide CompareNames;
        if IsEntry(e, y) {
          NamesInOrderExactly(up, e[y].name, e[t.id].name);
        }
        if IsEntry(e, z) {
          NamesInOrderExactly(up, e[t.id].name, e[z].name);
        }
      } else {
        WaysInOrder(up, e, par, Side(t, way[0]), t.id, way[1..], further);
      }
    }
  }

  /** No red entry on a way has a red one below it. */
  lemma {:induction false} WaysAlternate(e: seq<Entry>, par: seq<StreamId>, t: Tree, parent: StreamId, way: seq<Turn>,
                                         turn: Turn)
    requires Linked(e, par, t, parent) && RedOk(t)
    ensures var x := Follow(e, RootId(t), way);
            IsEntry(e, x) && e[x].color == Red && IsEntry(e, Taken(e, x, turn)) ==> e[Taken(e, x, turn)].color == Black
    decreases way
  {
    RootIsEntry(e, par, t, parent);
    if t.Node? {
      RootIsEntry(e, par, Side(t, turn), t.id);
      hide Linked;
      if way != [] {
        WaysAlternate(e, par, Side(t, way[0]), t.id, way[1..], turn);
      }
    }
  }

  /** A way out of the tree passes as many black entries as the tree is high in them. */
  lemma {:induction false} WaysBalance(e: seq<Entry>, par: seq<StreamId>, t: Tree, parent: StreamId, h: nat,
                                       way: seq<Turn>)
    requires Linked(e, par, t, parent) && HasHeight(t, h) && !IsEntry(e, Follow(e, RootId(t), way))
    ensures BlacksOn(e, RootId(t), way) == h
    decreases way
  {
    RootIsEntry(e, par, t, parent);
    if t.Node? {
      hide Linked;
      WaysBalance(e, par, Side(t, way[0]), t.id, h - Weight(t.color), way[1..]);
    }
  }

  lemma {:induction false} WayTo(e: seq<Entry>, par: seq<StreamId>, t: Tree, parent: StreamId, id: StreamId)
    returns (way: seq<Turn>)
    requires Linked(e, par, t, parent) && Count(t, id) > 0
    ensures Follow(e, RootId(t), way) == id
  {
    RootIsEntry(e, par, t, parent);
    hide Linked;
    if id == t.id {
      way := [];
    } else {
      var turn := if Count(t.left, id) > 0 then ToLeft else ToRight;
      var rest := WayTo(e, par, Side(t, turn), t.id, id);
      way := [turn] + rest;
      assert way[1..] == rest;
    }
  }

  /** A directory as any reader of the format may rely on it, whatever way it goes down from
      the root: names stand in order, a red entry has no red one below it, all ways out
      pass the same number of black entries, and the way stays among the streams. */
  lemma DirectoryIsInOrder(up: Upcase, streams: seq<Stream>, e: seq<Entry>, par: seq<StreamId>, t: Tree,
                           child: StreamId, way: seq<Turn>, further: seq<Turn>, turn: Turn)
    requires IsDirectory(up, streams, e, par, t, child)
    ensures var x := Follow(e, child, way);
            && (IsEntry(e, x) ==>
                  var y, z := Follow(e, e[x].left, further), Follow(e, e[x].right, further);
                  && 1 <= x <= |streams|
                  && (IsEntry(e, y) ==> !NameBefore(up, e[x].name, e[y].name))
                  && (IsEntry(e, z) ==> !NameBefore(up, e[z].name, e[x].name))
                  && (way == [] ==> e[x].color == Black)
                  && (e[x].color == Red && IsEntry(e, Taken(e, x, turn)) ==> e[Taken(e, x, turn)].color == Black))
            && (!IsEntry(e, x) && !IsEntry(e, Follow(e, child, further)) ==>
                  BlacksOn(e, child, way) == BlacksOn(e, child, further))
  {
    assert Linked(e, par, t, NO_STREAM) && child == RootId(t);
    RootIsEntry(e, par, t, NO_STREAM);
    WaysInOrder(up, e, par, t, NO_STREAM, way, further);
    WaysAlternate(e, par, t, NO_STREAM, way, turn);
    FollowStays(e, par, t, NO_STREAM, way);
    var h: nat :| HasHeight(t, h);
    hide Linked;
    hide Sorted;
    hide Inorder;
    hide Follow;
    hide Taken;
    hide NamedBy;
    hide NameBefore;
    if !IsEntry(e, Follow(e, child, way)) && !IsEntry(e, Follow(e, child, further)) {
      WaysBalance(e, par, t, NO_STREAM, h, way);
      WaysBalance(e, par, t, NO_STREAM, h, further);
    }
  }

  /** Some way down leads to each stream. */
  lemma EveryStreamIsReached(up: Upcase, streams: seq<Stream>, e: seq<Entry>, par: seq<StreamId>, t: Tree,
                             child: StreamId, k: nat) returns (way: seq<Turn>)
    requires IsDirectory(up, streams, e, par, t, child) && k < |streams|
    ensures Follow(e, child, way) == k + 1 && e[k + 1].name == streams[k].name
  {
    var id: StreamId := k + 1;
    way := WayTo(e, par, t, NO_STREAM, id);
    hide Follow;
    hide Sorted;
    hide IsRedBlack;
  }
}
