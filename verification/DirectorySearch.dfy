/** A directory as the writer makes it: streams are staged and their entries arranged in
    a tree, in which comparisons lead to each by its name. */
module DirectorySearch {
  import opened Options
  import opened CfbNames
  import opened SiblingTrees
  import opened DirectoryLinks
  import opened DirectoryTrees

  // ----- Staging -----

  datatype Stream = Stream(name: Name, data: seq<bv8>)

  /** No two names compare equal. */
  ghost predicate Unique(up: Upcase, streams: seq<Stream>) {
    forall i, j | 0 <= i < j < |streams| :: CompareNames(up, streams[i].name, streams[j].name) != Equal
  }

  class CfbWriter {
    var streams: seq<Stream>

    constructor ()
      ensures streams == []
    {
      streams := [];
    }

    /** Refuses a name that compares equal to a staged one. */
    method AddStream(up: Upcase, name: Name, data: seq<bv8>) returns (added: bool)
      modifies this
      ensures added <==> forall k | 0 <= k < |old(streams)| :: CompareNames(up, old(streams)[k].name, name) != Equal
      ensures streams == if added then old(streams) + [Stream(name, data)] else old(streams)
      ensures Unique(up, old(streams)) ==> Unique(up, streams)
    {
      for k := 0 to |streams|
        invariant streams == old(streams)
        invariant forall j | 0 <= j < k :: CompareNames(up, streams[j].name, name) != Equal
      {
        if CompareNames(up, streams[k].name, name) == Equal {
          return false;
        }
      }
      streams := streams + [Stream(name, data)];
      added := true;
    }
  }

  // ----- Arranging -----

  /** The first `n` streams, whose entries follow that of the root storage, are in the
      tree, each once, and nothing else is. */
  ghost predicate HoldsFirst(t: Tree, n: nat) {
    |Inorder(t)| == n && forall i: StreamId :: Count(t, i) == if 1 <= i <= n then 1 else 0
  }

  ghost predicate NamedBy(e: seq<Entry>, streams: seq<Stream>) {
    |e| == |streams| + 1 && forall k | 0 <= k < |streams| :: e[k + 1].name == streams[k].name
  }

  /** The entries are those of a directory of the streams, with `child` the root of
      their tree. */
  ghost predicate IsDirectory(up: Upcase, streams: seq<Stream>, e: seq<Entry>, par: seq<StreamId>, t: Tree,
                              child: StreamId) {
    && |streams| <= MAX_VALID && NamedBy(e, streams)
    && Held(e, par, Place.Root, t, child) && IsRedBlack(t) && Sorted(up, e, Inorder(t))
    && HoldsFirst(t, |streams|)
  }

  /** Entries `n + 1` onwards are as they were created. */
  ghost predicate FreshFrom(e: seq<Entry>, par: seq<StreamId>, n: nat) {
    |e| == |par| && forall i: StreamId | n < i < |e| :: Fresh(e, par, i)
  }

  lemma InsertsNext(up: Upcase, e: seq<Entry>, par: seq<StreamId>, t: Tree, e': seq<Entry>, par': seq<StreamId>,
                    t': Tree, n: nat, id: StreamId)
    requires HoldsFirst(t, n) && FreshFrom(e, par, n) && id == n + 1 && Inserted(up, e, par, t, e', par', t', id)
    ensures HoldsFirst(t', n + 1) && FreshFrom(e', par', n + 1)
  {
    hide Count;
    hide Sorted;
    hide Inorder;
    forall i: StreamId | n + 1 < i < |e'| ensures Fresh(e', par', i) {
      assert Fresh(e, par, i) && Count(t, i) == 0;
    }
  }

  lemma NothingIsHeld(up: Upcase, e: seq<Entry>, par: seq<StreamId>)
    requires |e| == |par|
    ensures Held(e, par, Place.Root, Leaf, NO_STREAM) && IsRedBlack(Leaf)
    ensures Sorted(up, e, Inorder(Leaf)) && HoldsFirst(Leaf, 0)
  {
    assert HasHeight(Leaf, 0);
  }

  lemma NotHeldYet(e: seq<Entry>, par: seq<StreamId>, t: Tree, id: StreamId)
    requires 1 <= id < |e| && HoldsFirst(t, id - 1) && FreshFrom(e, par, id - 1)
    ensures Count(t, id) == 0 && Fresh(e, par, id)
  {
  }

  lemma NamesStay(up: Upcase, e: seq<Entry>, par: seq<StreamId>, t: Tree, e': seq<Entry>, par': seq<StreamId>,
                  t': Tree, id: StreamId, streams: seq<Stream>)
    requires Inserted(up, e, par, t, e', par', t', id) && NamedBy(e, streams)
    ensures NamedBy(e', streams) && Sorted(up, e', Inorder(t')) && |par'| == |e'| && e'[0].name == e[0].name
  {
    hide Count;
    hide Sorted;
    hide InsertedInto;
  }

  /** The entries of all streams, inserted one after the other. */
  method BuildDirectory(up: Upcase, rootName: Name, streams: seq<Stream>)
    returns (entries: array<Entry>, child: StreamId, ghost par: seq<StreamId>, ghost t: Tree)
    requires |streams| <= MAX_VALID
    ensures fresh(entries) && IsDirectory(up, streams, entries[..], par, t, child) && entries[0].name == rootName
  {
    var total := |streams| + 1;
    entries := new Entry[total](i => Entry(if 1 <= i <= |streams| then streams[i - 1].name else rootName,
                                           Black, NO_STREAM, NO_STREAM));
    var parents := new StreamId[total](_ => NO_STREAM);
    child := NO_STREAM;
    t := Leaf;
    NothingIsHeld(up, entries[..], parents[..]);
    assert FreshFrom(entries[..], parents[..], 0) && NamedBy(entries[..], streams);
    hide Held;
    hide IsRedBlack;
    hide Inserted;
    hide Sorted;
    hide HoldsFirst;
    hide NamedBy;
    hide FreshFrom;
    for id := 1 to total
      invariant entries.Length == parents.Length == total
      invariant NamedBy(entries[..], streams) && FreshFrom(entries[..], parents[..], id - 1)
      invariant entries[0].name == rootName
      invariant Held(entries[..], parents[..], Place.Root, t, child) && IsRedBlack(t)
      invariant Sorted(up, entries[..], Inorder(t)) && HoldsFirst(t, id - 1)
    {
      ghost var e, par0, t0 := entries[..], parents[..], t;
      NotHeldYet(e, par0, t, id);
      child, t := RbInsert(up, child, id, entries, parents, t);
      NamesStay(up, e, par0, t0, entries[..], parents[..], t, id, streams);
      InsertsNext(up, e, par0, t0, entries[..], parents[..], t, id - 1, id);
    }
    par := parents[..];
  }

  // ----- Searching -----

  /** What is found under a name: comparisons lead down one way. */
  function Search(up: Upcase, e: seq<Entry>, t: Tree, target: Name): Option<StreamId> {
    if t.Leaf? || t.id >= |e| then None
    else
      match CompareNames(up, target, e[t.id].name)
      case Less => Search(up, e, t.left, target)
      case Greater => Search(up, e, t.right, target)
      case Equal => Some(t.id)
  }

  ghost predicate Names(up: Upcase, e: seq<Entry>, id: StreamId, target: Name) {
    id < |e| && CompareNames(up, target, e[id].name) == Equal
  }

  lemma SortedParts(up: Upcase, e: seq<Entry>, l: seq<StreamId>, id: StreamId, r: seq<StreamId>)
    requires Sorted(up, e, l + [id] + r)
    ensures Sorted(up, e, l) && Sorted(up, e, r)
    ensures forall k | 0 <= k < |l| :: NotAfter(up, e, l[k], id)
    ensures forall k | 0 <= k < |r| :: NotAfter(up, e, id, r[k])
  {
    var ids, n := l + [id] + r, |l|;
    assert ids[n] == id;
    forall k | 0 <= k < |l| ensures NotAfter(up, e, l[k], id) {
      assert ids[k] == l[k] && NotAfter(up, e, ids[k], ids[n]);
    }
    forall k | 0 <= k < |r| ensures NotAfter(up, e, id, r[k]) {
      assert ids[n + 1 + k] == r[k] && NotAfter(up, e, ids[n], ids[n + 1 + k]);
    }
    forall i, j | 0 <= i < j < |l| ensures NotAfter(up, e, l[i], l[j]) {
      assert NotAfter(up, e, ids[i], ids[j]);
    }
    forall i, j | 0 <= i < j < |r| ensures NotAfter(up, e, r[i], r[j]) {
      assert NotAfter(up, e, ids[n + 1 + i], ids[n + 1 + j]);
    }
  }

  lemma NotOnTheRight(up: Upcase, e: seq<Entry>, id: StreamId, x: StreamId, target: Name)
    requires NotAfter(up, e, id, x) && CompareNames(up, target, e[id].name) == Less
    ensures !Names(up, e, x, target)
  {
    NamesChain(up, target, e[id].name, e[x].name);
  }

  lemma NotOnTheLeft(up: Upcase, e: seq<Entry>, id: StreamId, x: StreamId, target: Name)
    requires NotAfter(up, e, x, id) && CompareNames(up, target, e[id].name) == Greater
    ensures !Names(up, e, x, target)
  {
    NamesReverse(up, target, e[id].name);
    NamesReverse(up, target, e[x].name);
    NamesChain(up, e[x].name, e[id].name, target);
  }

  lemma SidesInOrder(up: Upcase, e: seq<Entry>, t: Tree)
    requires t.Node? && Sorted(up, e, Inorder(t))
    ensures Sorted(up, e, Inorder(t.left)) && Sorted(up, e, Inorder(t.right))
    ensures forall i: StreamId | Count(t.left, i) > 0 :: NotAfter(up, e, i, t.id)
    ensures forall i: StreamId | Count(t.right, i) > 0 :: NotAfter(up, e, t.id, i)
  {
    SortedParts(up, e, Inorder(t.left), t.id, Inorder(t.right));
    hide Sorted;
    forall i: StreamId | Count(t.left, i) > 0 ensures NotAfter(up, e, i, t.id) {
      CountIsOccurrences(t.left, i);
    }
    forall i: StreamId | Count(t.right, i) > 0 ensures NotAfter(up, e, t.id, i) {
      CountIsOccurrences(t.right, i);
    }
  }

  /** In a tree in order the search finds an entry with the name, and fails exactly
      when there is none. */
  lemma {:induction false} SearchIsRight(up: Upcase, e: seq<Entry>, t: Tree, target: Name)
    requires Sorted(up, e, Inorder(t)) && forall i: StreamId | Count(t, i) > 0 :: i < |e|
    ensures match Search(up, e, t, target)
            case Some(id) => Count(t, id) > 0 && Names(up, e, id, target)
            case None => forall i: StreamId | Count(t, i) > 0 :: !Names(up, e, i, target)
  {
    if t.Node? {
      RootCounts(t);
      assert forall i: StreamId :: Count(t, i) == Count(t.left, i) + (if t.id == i then 1 else 0) + Count(t.right, i);
      SidesInOrder(up, e, t);
      hide Count;
      hide Sorted;
      hide Inorder;
      SearchIsRight(up, e, t.left, target);
      SearchIsRight(up, e, t.right, target);
      if CompareNames(up, target, e[t.id].name) == Less {
        forall i: StreamId | Count(t.right, i) > 0 ensures !Names(up, e, i, target) {
          NotOnTheRight(up, e, t.id, i, target);
        }
      } else if CompareNames(up, target, e[t.id].name) == Greater {
        forall i: StreamId | Count(t.left, i) > 0 ensures !Names(up, e, i, target) {
          NotOnTheLeft(up, e, t.id, i, target);
        }
      }
    }
  }

  lemma {:induction false} LinkedAreEntries(e: seq<Entry>, par: seq<StreamId>, t: Tree, parent: StreamId)
    requires Linked(e, par, t, parent)
    ensures forall i: StreamId | Count(t, i) > 0 :: i < |e|
  {
    if t.Node? {
      LinkedAreEntries(e, par, t.left, t.id);
      LinkedAreEntries(e, par, t.right, t.id);
    }
  }

  lemma OnlyOne(up: Upcase, streams: seq<Stream>, k: nat, found: Option<StreamId>)
    requires Unique(up, streams) && k < |streams|
    requires match found
             case Some(id) => 1 <= id <= |streams| && CompareNames(up, streams[k].name, streams[id - 1].name) == Equal
             case None => CompareNames(up, streams[k].name, streams[k].name) != Equal
    ensures found == Some(k + 1)
  {
    NamesReverse(up, streams[k].name, streams[k].name);
    if found.Some? {
      NamesReverse(up, streams[k].name, streams[found.value - 1].name);
    }
  }

  lemma EntryOfStream(up: Upcase, streams: seq<Stream>, e: seq<Entry>, t: Tree, target: Name, k: nat)
    requires |streams| <= MAX_VALID && k < |streams| && NamedBy(e, streams) && HoldsFirst(t, |streams|)
    ensures var id: StreamId := k + 1;
            Count(t, id) > 0 && (Names(up, e, id, target) <==> CompareNames(up, target, streams[k].name) == Equal)
  {
    hide CompareNames;
  }

  /** In the directory of the streams a name is found exactly when some stream has a name
      that compares equal, and what is found is the entry of such a stream; where staging
      let the names pass, it is the entry of the one stream. The tree is no deeper than
      about twice the logarithm of the number of streams. */
  lemma TreeFindsExactly(up: Upcase, streams: seq<Stream>, e: seq<Entry>, par: seq<StreamId>, t: Tree,
                              child: StreamId, target: Name)
    requires IsDirectory(up, streams, e, par, t, child)
    ensures match Search(up, e, t, target)
            case Some(id) => 1 <= id <= |streams| && CompareNames(up, target, streams[id - 1].name) == Equal
            case None => forall k | 0 <= k < |streams| :: CompareNames(up, target, streams[k].name) != Equal
    ensures forall k | 0 <= k < |streams| && Unique(up, streams) && target == streams[k].name ::
              Search(up, e, t, target) == Some(k + 1)
    ensures Power((Height(t) + 1) / 2) <= |streams| + 1
  {
    LinkedAreEntries(e, par, t, NO_STREAM);
    SearchIsRight(up, e, t, target);
    RedBlackIsShallow(t);
    hide Held;
    hide IsRedBlack;
    hide Sorted;
    hide Power;
    hide Search;
    forall k | 0 <= k < |streams|
      ensures Search(up, e, t, target).None? ==> CompareNames(up, target, streams[k].name) != Equal
    {
      EntryOfStream(up, streams, e, t, target, k);
    }
    hide CompareNames;
    hide Count;
    forall k | 0 <= k < |streams| && Unique(up, streams) && target == streams[k].name
      ensures Search(up, e, t, target) == Some(k + 1)
    {
      OnlyOne(up, streams, k, Search(up, e, t, target));
    }
  }
}
