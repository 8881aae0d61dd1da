/** The handle table: its two maps and its counter, as values and as an object updated in place. */
module HandleTables {
  import opened Options
  import opened HandleIds

  type ThreadId = nat

  /** The objects a handle can stand for; `id` tells objects of one kind apart. */
  datatype MsiObject =
    | Database(id: nat)
    | Transaction(id: nat)
    | Record(id: nat)
    | View(id: nat)
    | UiPreview(id: nat)
    | SummaryInfo(id: nat)

  /** The handles recorded for a thread; a thread without an entry owns nothing. */
  function Owned(owners: map<ThreadId, set<Handle>>, t: ThreadId): set<Handle> {
    if t in owners then owners[t] else {}
  }

  /** The contents of a handle table. Each member is one critical section of the
      operations below: it touches one of the two maps, never both. */
  datatype Tables = Tables(nextId: Handle, objects: map<Handle, MsiObject>, owners: map<ThreadId, set<Handle>>) {

    predicate Full() {
      |objects.Keys| >= ID_SPACE - 1
    }

    /** Number of candidates the search draws from the counter. */
    function Draws(): (n: nat)
      requires !Full()
    {
      FirstFree(objects.Keys, nextId) + 1
    }

    function FreshHandle(): (h: Handle)
      requires !Full()
      ensures !Taken(objects.Keys, h)
    {
      Advance(nextId, FirstFree(objects.Keys, nextId))
    }

    function Insert(obj: MsiObject): Tables
      requires !Full()
    {
      this.(nextId := Advance(nextId, Draws()), objects := objects[FreshHandle() := obj])
    }

    function Enlist(t: ThreadId, h: Handle): Tables {
      this.(owners := owners[t := Owned(owners, t) + {h}])
    }

    function Remove(h: Handle): Tables {
      this.(objects := objects - {h})
    }

    function Delist(t: ThreadId, h: Handle): Tables {
      if t in owners then this.(owners := owners[t := owners[t] - {h}]) else this
    }

    function TakeOwned(t: ThreadId): Tables {
      this.(owners := owners - {t})
    }

    function RemoveAll(hs: set<Handle>): Tables {
      this.(objects := objects - hs)
    }

    function Write(h: Handle, obj: MsiObject): Tables {
      if h in objects then this.(objects := objects[h := obj]) else this
    }

    /** Both handles are live and different: the only case in which the closure runs. */
    predicate PairLive(hm: Handle, hr: Handle) {
      hm != hr && hm in objects && hr in objects
    }

    function WritePair(hm: Handle, hr: Handle, obj: MsiObject): Tables {
      if PairLive(hm, hr) then this.(objects := objects[hm := obj]) else this
    }
  }

  /** The table with its operations as one thread runs them undisturbed. The
      calling thread, which the source reads from its runtime, is a parameter. */
  class HandleTable {
    var nextId: Handle
    var objects: map<Handle, MsiObject>
    var owners: map<ThreadId, set<Handle>>

    function Value(): Tables
      reads this
    {
      Tables(nextId, objects, owners)
    }

    constructor ()
      ensures Value() == Tables(1, map[], map[])
    {
      nextId := 1;
      objects := map[];
      owners := map[];
    }

    /** Hands out the wrapping counter's value and increments it. */
    method FetchAdd() returns (h: Handle)
      modifies this`nextId
      ensures h == old(nextId) && nextId == Advance(h, 1)
    {
      h := nextId;
      nextId := Succ(nextId);
    }

    /** The search loop ends because the table is not full, after at most two
        more draws than there are live handles. */
    method Alloc(t: ThreadId, obj: MsiObject) returns (handle: Handle)
      requires !Value().Full()
      modifies this
      ensures handle != NULL_HANDLE && handle !in old(objects)
      ensures exists skipped: nat ::
                && skipped <= |old(objects)| + 1
                && handle == Advance(old(nextId), skipped)
                && nextId == Advance(old(nextId), skipped + 1)
                && AllTaken(old(objects.Keys), old(nextId), skipped)
      ensures objects == old(objects)[handle := obj]
      ensures owners == old(owners)[t := Owned(old(owners), t) + {handle}]
      ensures handle == old(Value()).FreshHandle()
      ensures Value() == old(Value()).Insert(obj).Enlist(t, handle)
    {
      ghost var skipped := 0;
      handle := FetchAdd();
      while handle == NULL_HANDLE || handle in objects
        invariant objects == old(objects) && owners == old(owners)
        invariant handle == Advance(old(nextId), skipped) && nextId == Advance(old(nextId), skipped + 1)
        invariant AllTaken(objects.Keys, old(nextId), skipped)
        invariant skipped <= |objects| + 1
        decreases |objects| + 1 - skipped
      {
        TakenRunIsShort(objects.Keys, old(nextId), skipped + 1);
        handle := FetchAdd();
        skipped := skipped + 1;
      }
      FirstFreeIsUnique(objects.Keys, old(nextId), skipped);
      objects := objects[handle := obj];
      owners := owners[t := (if t in owners then owners[t] else {}) + {handle}];
    }

    method CloseHandle(t: ThreadId, h: Handle) returns (removed: bool)
      modifies this
      ensures removed <==> h in old(objects)
      ensures nextId == old(nextId) && objects == old(objects) - {h}
      ensures forall u :: Owned(owners, u) == Owned(old(owners), u) - if removed && u == t then {h} else {}
      ensures Value() == if removed then old(Value()).Remove(h).Delist(t, h) else old(Value())
    {
      removed := h in objects;
      objects := objects - {h};
      if removed && t in owners {
        owners := owners[t := owners[t] - {h}];
      }
    }

    method CloseAllHandles(t: ThreadId)
      modifies this
      ensures nextId == old(nextId) && t !in owners
      ensures forall u | u != t :: Owned(owners, u) == Owned(old(owners), u)
      ensures forall h | h in objects :: h in old(objects) && objects[h] == old(objects)[h]
      ensures objects.Keys == old(objects.Keys) - Owned(old(owners), t)
      ensures Value() == old(Value()).TakeOwned(t).RemoveAll(Owned(old(owners), t))
    {
      var owned: set<Handle> := if t in owners then owners[t] else {};
      owners := owners - {t};
      var rest := owned;
      while rest != {}
        invariant rest <= owned
        invariant nextId == old(nextId) && owners == old(owners) - {t}
        invariant objects == old(objects) - (owned - rest)
        decreases |rest|
      {
        var h :| h in rest;
        objects := objects - {h};
        rest := rest - {h};
      }
    }

    method WithHandle<R>(h: Handle, f: MsiObject -> R) returns (r: Option<R>)
      ensures r == if h in objects then Some(f(objects[h])) else None
    {
      if h in objects {
        r := Some(f(objects[h]));
      } else {
        r := None;
      }
    }

    method WithHandleMut<R>(h: Handle, f: MsiObject -> (MsiObject, R)) returns (r: Option<R>)
      modifies this`objects
      ensures r.Some? <==> h in old(objects)
      ensures r.Some? ==> r.value == f(old(objects)[h]).1
                          && Value() == old(Value()).Write(h, f(old(objects)[h]).0)
      ensures r.None? ==> Value() == old(Value())
    {
      if h in objects {
        var (obj, res) := f(objects[h]);
        objects := objects[h := obj];
        r := Some(res);
      } else {
        r := None;
      }
    }

    /** Takes both objects out of the map, runs the closure and puts them back. */
    method WithHandleMutAndRead<R>(hm: Handle, hr: Handle, f: (MsiObject, MsiObject) -> (MsiObject, R))
      returns (r: Option<R>)
      modifies this`objects
      ensures r.Some? <==> old(Value()).PairLive(hm, hr)
      ensures r.Some? ==> r.value == f(old(objects)[hm], old(objects)[hr]).1
                          && Value() == old(Value()).WritePair(hm, hr, f(old(objects)[hm], old(objects)[hr]).0)
      ensures r.None? ==> Value() == old(Value())
      ensures objects.Keys == old(objects.Keys)
      ensures forall h | h in objects && h != hm :: objects[h] == old(objects)[h]
    {
      if hm == hr {
        return None;
      }
      if hm !in objects {
        return None;
      }
      var objMut := objects[hm];
      objects := objects - {hm};
      if hr !in objects {
        objects := objects[hm := objMut];
        return None;
      }
      var objRead := objects[hr];
      objects := objects - {hr};
      var (newMut, res) := f(objMut, objRead);
      objects := objects[hm := newMut];
      objects := objects[hr := objRead];
      r := Some(res);
    }
  }
}
