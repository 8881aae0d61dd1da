/** The reader's search in a directory whose links need not form a tree. */
module DirectoryPaths {
  import opened Options
  import opened Sets
  import opened CfbNames
  import opened SiblingTrees
  import opened DirectoryLinks
  import opened DirectorySearch

  /** The search is over at `id`: there is no such entry, or it has the name. */
  predicate Stops(up: Upcase, e: seq<Entry>, target: Name, id: StreamId) {
    !IsValid(id) || id >= |e| || CompareNames(up, target, e[id].name) == Equal
  }

  function Onward(up: Upcase, e: seq<Entry>, target: Name, id: StreamId): StreamId
    requires !Stops(up, e, target, id)
  {
    if CompareNames(up, target, e[id].name) == Less then e[id].left else e[id].right
  }

  function NextId(up: Upcase, e: seq<Entry>, target: Name, id: StreamId): StreamId {
    if Stops(up, e, target, id) then id else Onward(up, e, target, id)
  }

  /** Where the search is after `n` comparisons; where it stops, it stays. */
  function Visit(up: Upcase, e: seq<Entry>, target: Name, root: StreamId, n: nat): StreamId {
    if n == 0 then root else NextId(up, e, target, Visit(up, e, target, root, n - 1))
  }

  /** What has been found where the search stops. */
  function FoundAt(e: seq<Entry>, id: StreamId): Option<StreamId> {
    if IsValid(id) && id < |e| then Some(id) else None
  }

  ghost predicate Finds(up: Upcase, e: seq<Entry>, root: StreamId, target: Name, found: Option<StreamId>) {
    exists n: nat :: Stops(up, e, target, Visit(up, e, target, root, n))
                     && found == FoundAt(e, Visit(up, e, target, root, n))
  }

  ghost predicate Ends(up: Upcase, e: seq<Entry>, root: StreamId, target: Name) {
    exists n: nat :: Stops(up, e, target, Visit(up, e, target, root, n))
  }

  /** The search comes twice to an entry at which it does not stop. */
  ghost predicate Revisits(up: Upcase, e: seq<Entry>, root: StreamId, target: Name) {
    exists i: nat, j: nat :: i < j && Visit(up, e, target, root, i) == Visit(up, e, target, root, j)
                             && !Stops(up, e, target, Visit(up, e, target, root, j))
  }

  // ----- The search ends if and only if it revisits no entry -----

  lemma {:induction false} StaysStopped(up: Upcase, e: seq<Entry>, target: Name, root: StreamId, n: nat, m: nat)
    requires n <= m && Stops(up, e, target, Visit(up, e, target, root, n))
    ensures Visit(up, e, target, root, m) == Visit(up, e, target, root, n)
  {
    if n < m {
      StaysStopped(up, e, target, root, n, m - 1);
    }
  }

  lemma VisitNext(up: Upcase, e: seq<Entry>, target: Name, root: StreamId, n: nat)
    requires n > 0
    ensures Visit(up, e, target, root, n) == NextId(up, e, target, Visit(up, e, target, root, n - 1))
  {
    hide NextId;
  }

  lemma {:induction false} Repeats(up: Upcase, e: seq<Entry>, target: Name, root: StreamId, i: nat, j: nat, k: nat)
    requires Visit(up, e, target, root, i) == Visit(up, e, target, root, j)
    ensures Visit(up, e, target, root, i + k) == Visit(up, e, target, root, j + k)
  {
    hide NextId;
    if k > 0 {
      Repeats(up, e, target, root, i, j, k - 1);
      VisitNext(up, e, target, root, i + k);
      VisitNext(up, e, target, root, j + k);
      hide Visit;
    }
  }

  lemma {:induction false} RevisitGoesOn(up: Upcase, e: seq<Entry>, target: Name, root: StreamId, i: nat, j: nat, n: nat)
    requires i < j && Visit(up, e, target, root, i) == Visit(up, e, target, root, j)
    requires !Stops(up, e, target, Visit(up, e, target, root, j))
    ensures !Stops(up, e, target, Visit(up, e, target, root, n))
    decreases n
  {
    hide Stops;
    hide Visit;
    if n <= j {
      if Stops(up, e, target, Visit(up, e, target, root, n)) {
        StaysStopped(up, e, target, root, n, j);
      }
    } else {
      Repeats(up, e, target, root, i, j, n - j);
      RevisitGoesOn(up, e, target, root, i, j, n - (j - i));
    }
  }

  ghost function Visited(up: Upcase, e: seq<Entry>, target: Name, root: StreamId, n: nat): set<StreamId> {
    if n == 0 then {} else Visited(up, e, target, root, n - 1) + {Visit(up, e, target, root, n - 1)}
  }

  lemma {:induction false} WasVisited(up: Upcase, e: seq<Entry>, target: Name, root: StreamId, n: nat, id: StreamId)
    returns (k: nat)
    requires id in Visited(up, e, target, root, n)
    ensures k < n && Visit(up, e, target, root, k) == id
  {
    hide Visit;
    if id in Visited(up, e, target, root, n - 1) {
      k := WasVisited(up, e, target, root, n - 1, id);
    } else {
      k := n - 1;
    }
  }

  function Below(n: nat): (ids: set<int>)
    ensures forall i :: i in ids <==> 0 <= i < n
    ensures |ids| == n
  {
    if n == 0 then {} else Below(n - 1) + {n - 1}
  }

  /** As long as the search goes on and comes to no entry twice, it has seen as many
      entries as it has made comparisons. */
  lemma {:induction false} NewEntries(up: Upcase, e: seq<Entry>, target: Name, root: StreamId, n: nat)
    requires !Revisits(up, e, root, target) && !Ends(up, e, root, target)
    ensures |Visited(up, e, target, root, n)| == n
    ensures forall id | id in Visited(up, e, target, root, n) :: id < |e|
  {
    if n > 0 {
      NewEntries(up, e, target, root, n - 1);
      var id := Visit(up, e, target, root, n - 1);
      assert !Stops(up, e, target, id);
      if id in Visited(up, e, target, root, n - 1) {
        var k := WasVisited(up, e, target, root, n - 1, id);
      }
      hide Visit;
    }
  }

  /** The search ends if and only if it comes to no entry twice. */
  lemma EndsExactly(up: Upcase, e: seq<Entry>, root: StreamId, target: Name)
    ensures Ends(up, e, root, target) <==> !Revisits(up, e, root, target)
  {
    if Ends(up, e, root, target) && Revisits(up, e, root, target) {
      var n: nat :| Stops(up, e, target, Visit(up, e, target, root, n));
      var i: nat, j: nat :| i < j && Visit(up, e, target, root, i) == Visit(up, e, target, root, j)
                            && !Stops(up, e, target, Visit(up, e, target, root, j));
      RevisitGoesOn(up, e, target, root, i, j, n);
    }
    if !Ends(up, e, root, target) && !Revisits(up, e, root, target) {
      NewEntries(up, e, target, root, |e| + 1);
      SubsetSize(Visited(up, e, target, root, |e| + 1), Below(|e|));
    }
  }

  /** Links that form a ring of one entry: a search for any other name goes on for ever. */
  lemma RingNeverEnds(up: Upcase, name: Name, target: Name, color: Color)
    requires CompareNames(up, target, name) != Equal
    ensures !Ends(up, [Entry(name, color, 0, 0)], 0, target)
  {
    var e := [Entry(name, color, 0, 0)];
    assert Visit(up, e, target, 0, 0) == 0 && !Stops(up, e, target, 0);
    assert Visit(up, e, target, 0, 1) == 0;
    assert Revisits(up, e, 0, target);
    EndsExactly(up, e, 0, target);
    hide Ends;
  }

  lemma NoStepsYet(up: Upcase, e: seq<Entry>, target: Name, root: StreamId)
    ensures Visit(up, e, target, root, 0) == root
  {
  }

  lemma FoundHere(up: Upcase, e: seq<Entry>, root: StreamId, target: Name, n: nat)
    requires Stops(up, e, target, Visit(up, e, target, root, n))
    ensures Finds(up, e, root, target, FoundAt(e, Visit(up, e, target, root, n)))
  {
    hide Visit;
    hide Stops;
  }

  lemma StopsOrGoesOn(up: Upcase, e: seq<Entry>, target: Name, id: StreamId)
    ensures !IsValid(id) || id >= |e| ==> Stops(up, e, target, id) && FoundAt(e, id) == None
    ensures IsValid(id) && id < |e| ==>
              match CompareNames(up, target, e[id].name)
              case Less => !Stops(up, e, target, id) && NextId(up, e, target, id) == e[id].left
              case Greater => !Stops(up, e, target, id) && NextId(up, e, target, id) == e[id].right
              case Equal => Stops(up, e, target, id) && FoundAt(e, id) == Some(id)
  {
    hide CompareNames;
  }

  /** The search has not stopped before its `n`-th comparison. */
  ghost predicate GoesOn(up: Upcase, e: seq<Entry>, root: StreamId, target: Name, n: nat) {
    forall k: nat | k < n :: !Stops(up, e, target, Visit(up, e, target, root, k))
  }

  lemma GoesOnOnce(up: Upcase, e: seq<Entry>, root: StreamId, target: Name, n: nat, end: nat)
    requires GoesOn(up, e, root, target, n) && !Stops(up, e, target, Visit(up, e, target, root, n))
    requires n <= end && Stops(up, e, target, Visit(up, e, target, root, end))
    ensures GoesOn(up, e, root, target, n + 1) && n < end
    ensures Visit(up, e, target, root, n + 1) == NextId(up, e, target, Visit(up, e, target, root, n))
  {
    VisitNext(up, e, target, root, n + 1);
    hide Visit;
    hide Stops;
  }

  lemma GoesOnAtFirst(up: Upcase, e: seq<Entry>, root: StreamId, target: Name)
    ensures GoesOn(up, e, root, target, 0) && Visit(up, e, target, root, 0) == root
  {
  }

  /** The reader's search, in any links in which it ends. */
  method FindInTree(up: Upcase, entries: seq<Entry>, root: StreamId, target: Name)
    returns (found: Option<StreamId>, ghost comparisons: nat)
    requires Ends(up, entries, root, target)
    ensures Finds(up, entries, root, target, found)
    ensures Stops(up, entries, target, Visit(up, entries, target, root, comparisons))
    ensures GoesOn(up, entries, root, target, comparisons)
  {
    ghost var end: nat :| Stops(up, entries, target, Visit(up, entries, target, root, end));
    GoesOnAtFirst(up, entries, root, target);
    hide GoesOn;
    hide Visit;
    hide CompareNames;
    hide Finds;
    hide Stops;
    hide NextId;
    hide FoundAt;
    hide Ends;
    hide Onward;
    hide WellFormed;
    var currentId := root;
    comparisons := 0;
    while IsValid(currentId)
      invariant currentId == Visit(up, entries, target, root, comparisons)
      invariant GoesOn(up, entries, root, target, comparisons)
      invariant comparisons <= end
      decreases end - comparisons
    {
      StopsOrGoesOn(up, entries, target, currentId);
      if currentId >= |entries| {
        break;
      }
      match CompareNames(up, target, entries[currentId].name) {
        case Less =>
          GoesOnOnce(up, entries, root, target, comparisons, end);
          currentId := entries[currentId].left;
        case Greater =>
          GoesOnOnce(up, entries, root, target, comparisons, end);
          currentId := entries[currentId].right;
        case Equal =>
          FoundHere(up, entries, root, target, comparisons);
          return Some(currentId), comparisons;
      }
      comparisons := comparisons + 1;
    }
    StopsOrGoesOn(up, entries, target, currentId);
    FoundHere(up, entries, root, target, comparisons);
    found := None;
  }

  // ----- In a tree -----

  lemma {:induction false} VisitBehind(up: Upcase, e: seq<Entry>, target: Name, root: StreamId, n: nat)
    requires !Stops(up, e, target, root)
    ensures Visit(up, e, target, root, n + 1) == Visit(up, e, target, Onward(up, e, target, root), n)
  {
    if n > 0 {
      VisitBehind(up, e, target, root, n - 1);
    } else {
      assert Visit(up, e, target, root, 0) == root;
    }
  }

  /** Going down to a child, both searches go the same way. */
  lemma SearchesGoDown(up: Upcase, e: seq<Entry>, par: seq<StreamId>, t: Tree, parent: StreamId, target: Name, side: Tree)
    requires t.Node? && Linked(e, par, t, parent) && CompareNames(up, target, e[t.id].name) != Equal
    requires side == if CompareNames(up, target, e[t.id].name) == Less then t.left else t.right
    ensures Linked(e, par, side, t.id) && Search(up, e, t, target) == Search(up, e, side, target)
    ensures !Stops(up, e, target, t.id) && Onward(up, e, target, t.id) == RootId(side)
  {
    hide CompareNames;
  }

  lemma HeightOver(t: Tree, side: Tree)
    requires t.Node? && (side == t.left || side == t.right)
    ensures Height(side) + 1 <= Height(t)
  {
  }

  lemma SearchesStop(up: Upcase, e: seq<Entry>, par: seq<StreamId>, t: Tree, parent: StreamId, target: Name)
    requires Linked(e, par, t, parent) && (t.Leaf? || CompareNames(up, target, e[t.id].name) == Equal)
    ensures Stops(up, e, target, RootId(t)) && FoundAt(e, RootId(t)) == Search(up, e, t, target)
  {
    hide CompareNames;
  }

  /** In links that form a tree the search ends, after at most as many steps as the tree
      is high, with what comparisons lead to. */
  lemma {:induction false} TreeSearchEnds(up: Upcase, e: seq<Entry>, par: seq<StreamId>, t: Tree, parent: StreamId,
                                          target: Name) returns (n: nat)
    requires Linked(e, par, t, parent)
    ensures n <= Height(t) && Stops(up, e, target, Visit(up, e, target, RootId(t), n))
    ensures FoundAt(e, Visit(up, e, target, RootId(t), n)) == Search(up, e, t, target)
  {
    assert t.Node? ==> t.id < |e|;
    hide Visit;
    hide CompareNames;
    hide Linked;
    hide Search;
    hide Stops;
    hide Onward;
    hide FoundAt;
    hide NextId;
    hide WellFormed;
    n := 0;
    if t.Node? && CompareNames(up, target, e[t.id].name) != Equal {
      var side := if CompareNames(up, target, e[t.id].name) == Less then t.left else t.right;
      SearchesGoDown(up, e, par, t, parent, target, side);
      HeightOver(t, side);
      hide Height;
      n := TreeSearchEnds(up, e, par, side, t.id, target);
      VisitBehind(up, e, target, t.id, n);
      n := n + 1;
    } else {
      SearchesStop(up, e, par, t, parent, target);
      NoStepsYet(up, e, target, RootId(t));
    }
  }
}
