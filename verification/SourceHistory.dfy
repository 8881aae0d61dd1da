/** The source list cache as a function of the calls made so far. */
module SourceHistory {
  import opened Options
  import opened SourceList

  /** The cache after a run of calls. */
  function After(run: seq<Op>): Cache
    decreases |run|
  {
    if run == [] then map[] else Apply(After(run[..|run| - 1]), run[|run| - 1])
  }

  /** A call on the product that has all the strings it needs. */
  predicate On(op: Op, product: string) {
    && op.product == Some(product)
    && (op.AddSource? ==> op.path.Some?)
    && (op.AddDisk? ==> op.volumeLabel.Some?)
    && (op.SetInfo? ==> op.property.Some? && op.value.Some?)
  }

  /** A call that makes the product known. */
  predicate Registers(op: Op, product: string) {
    On(op, product) && (op.AddSource? || op.AddDisk? || op.SetInfo?)
  }

  predicate Forgets(op: Op, product: string) {
    On(op, product) && op.ClearAll?
  }

  predicate SetsLastUsed(op: Op, product: string) {
    On(op, product) && op.SetInfo? && op.property == Some("LastUsedSource")
  }

  predicate Adds(op: Op, product: string) {
    On(op, product) && (op.AddSource? || op.AddDisk?)
  }

  function Added(op: Op): SourcePath
    requires (op.AddSource? && op.path.Some?) || (op.AddDisk? && op.volumeLabel.Some?)
  {
    match op
    case AddSource(_, path) =>
      var p := path.value;
      if "http://" <= p || "https://" <= p then Url(p)
      else if "\\\\" <= p then Network(p)
      else Media(p, None, None, None)
    case AddDisk(_, diskId, volumeLabel, diskPrompt) => Media("", Some(diskId), volumeLabel, diskPrompt)
  }

  // ----- Known products -----

  /** Some registering call since the last clear-all. */
  ghost predicate KnownBy(run: seq<Op>, product: string) {
    exists k :: 0 <= k < |run| && Registers(run[k], product)
                && forall j | k < j < |run| :: !Forgets(run[j], product)
  }

  lemma KnownByLast(pre: seq<Op>, op: Op, product: string)
    ensures KnownBy(pre + [op], product) <==>
              Registers(op, product) || (KnownBy(pre, product) && !Forgets(op, product))
  {
    var run := pre + [op];
    if Registers(op, product) {
      assert run[|pre|] == op;
    } else if KnownBy(pre, product) && !Forgets(op, product) {
      var k :| 0 <= k < |pre| && Registers(pre[k], product)
               && forall j | k < j < |pre| :: !Forgets(pre[j], product);
      assert run[k] == pre[k];
    }
    if KnownBy(run, product) && !Registers(op, product) {
      var k :| 0 <= k < |run| && Registers(run[k], product)
               && forall j | k < j < |run| :: !Forgets(run[j], product);
      assert k < |pre| && run[|pre|] == op;
      assert Registers(pre[k], product);
      assert forall j | k < j < |pre| :: pre[j] == run[j];
    }
  }

  /** Over any run, a product is known exactly when a registering call was made for
      it since its last clear-all; resolution, queries and disk clears agree on that. */
  lemma {:induction false} KnownExactly(run: seq<Op>, product: string)
    ensures product in After(run) <==> KnownBy(run, product)
    ensures Resolve(After(run), Some(product)) == if KnownBy(run, product) then 0 else 1605
    ensures forall property: string ::
              Info(After(run), Some(product), Some(property)).0 == if KnownBy(run, product) then 0 else 1610
    ensures forall diskId: U32 ::
              Status(After(run), ClearDisk(Some(product), diskId)) == if KnownBy(run, product) then 0 else 1605
    decreases |run|
  {
    if run != [] {
      var pre, op := run[..|run| - 1], run[|run| - 1];
      assert run == pre + [op];
      KnownExactly(pre, product);
      KnownByLast(pre, op, product);
      hide KnownBy;
    }
  }

  // ----- The source used last -----

  lemma {:induction false} LastUsedKept(run: seq<Op>, product: string, k: nat)
    requires k < |run| && SetsLastUsed(run[k], product)
    requires forall j | k < j < |run| :: !SetsLastUsed(run[j], product) && !Forgets(run[j], product)
    ensures product in After(run) && After(run)[product].lastUsed == Some(Classify(run[k].value.value))
    decreases |run|
  {
    var pre := run[..|run| - 1];
    if k < |run| - 1 {
      assert forall j | k <= j < |pre| :: pre[j] == run[j];
      LastUsedKept(pre, product, k);
    }
  }

  /** The last value set since the last clear-all is read back verbatim, with the
      letter of its prefix class, whatever sources and disks came and went. */
  lemma LastUsedIsVerbatim(run: seq<Op>, product: string, k: nat)
    requires k < |run| && SetsLastUsed(run[k], product)
    requires forall j | k < j < |run| :: !SetsLastUsed(run[j], product) && !Forgets(run[j], product)
    ensures var v := run[k].value.value;
            && Info(After(run), Some(product), Some("LastUsedSource")) == (0, v)
            && Info(After(run), Some(product), Some("LastUsedType")) ==
               (0, if "http://" <= v || "https://" <= v then "u" else if "\\\\" <= v then "n" else "m")
  {
    LastUsedKept(run, product, k);
  }

  /** A known product for which no value was set since the last clear-all has none. */
  lemma {:induction false} NeverUsedIsEmpty(run: seq<Op>, product: string)
    requires product in After(run)
    requires forall k | 0 <= k < |run| && SetsLastUsed(run[k], product) ::
               exists j :: k < j < |run| && Forgets(run[j], product)
    ensures Info(After(run), Some(product), Some("LastUsedSource")) == (0, "")
    ensures Info(After(run), Some(product), Some("LastUsedType")) == (0, "")
    decreases |run|
  {
    var pre, op := run[..|run| - 1], run[|run| - 1];
    assert run == pre + [op];
    assert !SetsLastUsed(op, product);
    if product in After(pre) {
      forall k | 0 <= k < |pre| && SetsLastUsed(pre[k], product)
        ensures exists j :: k < j < |pre| && Forgets(pre[j], product)
      {
        assert run[k] == pre[k];
        var j :| k < j < |run| && Forgets(run[j], product);
        assert j < |pre| && pre[j] == run[j];
      }
      NeverUsedIsEmpty(pre, product);
    }
  }

  // ----- The sources that are left -----

  /** A clear-all of the product, or a clear of the entry's disk or of all disks. */
  predicate ClearsEntry(op: Op, product: string, s: SourcePath) {
    On(op, product)
    && (op.ClearAll?
        || (op.ClearDisk? && s.Media? && s.diskId.Some?
            && (s.diskId.value == op.diskId || op.diskId == 0xFFFF_FFFF)))
  }

  /** The entry added by the k-th call has been cleared since. */
  ghost predicate Cleared(run: seq<Op>, product: string, k: nat)
    requires k < |run| && Adds(run[k], product)
  {
    exists j :: k < j < |run| && ClearsEntry(run[j], product, Added(run[k]))
  }

  /** The entries added by the first `n` calls that no later call of the run cleared. */
  ghost function Survivors(run: seq<Op>, product: string, n: nat): seq<SourcePath>
    requires n <= |run|
  {
    if n == 0 then []
    else
      Survivors(run, product, n - 1)
      + (if Adds(run[n - 1], product) && !Cleared(run, product, n - 1) then [Added(run[n - 1])] else [])
  }

  lemma ClearedByLast(pre: seq<Op>, op: Op, product: string, k: nat)
    requires k < |pre| && Adds(pre[k], product)
    ensures Cleared(pre + [op], product, k) <==>
              Cleared(pre, product, k) || ClearsEntry(op, product, Added(pre[k]))
  {
    var run := pre + [op];
    assert run[k] == pre[k] && run[|pre|] == op;
    if Cleared(pre, product, k) {
      var j :| k < j < |pre| && ClearsEntry(pre[j], product, Added(pre[k]));
      assert run[j] == pre[j];
    }
    if Cleared(run, product, k) && !ClearsEntry(op, product, Added(pre[k])) {
      var j :| k < j < |run| && ClearsEntry(run[j], product, Added(run[k]));
      assert run[j] == pre[j];
    }
  }

  /** What one more call does to the survivors so far. */
  function Left(sources: seq<SourcePath>, op: Op, product: string): seq<SourcePath> {
    if !On(op, product) then sources
    else if op.ClearAll? then []
    else if op.ClearDisk? then Retain(sources, op.diskId)
    else sources
  }

  lemma LeftSplits(a: seq<SourcePath>, b: seq<SourcePath>, op: Op, product: string)
    ensures Left(a + b, op, product) == Left(a, op, product) + Left(b, op, product)
  {
    if op.ClearDisk? {
      RetainAppend(a, b, op.diskId);
    }
  }

  lemma {:induction false} SurvivorsAfter(pre: seq<Op>, op: Op, product: string, n: nat)
    requires n <= |pre|
    ensures Survivors(pre + [op], product, n) == Left(Survivors(pre, product, n), op, product)
  {
    if n > 0 {
      var run := pre + [op];
      assert run[n - 1] == pre[n - 1];
      SurvivorsAfter(pre, op, product, n - 1);
      var before := Survivors(pre, product, n - 1);
      var tail := if Adds(pre[n - 1], product) && !Cleared(pre, product, n - 1) then [Added(pre[n - 1])] else [];
      if Adds(pre[n - 1], product) {
        ClearedByLast(pre, op, product, n - 1);
        if op.ClearDisk? {
          RetainOne(Added(pre[n - 1]), op.diskId);
        }
      }
      var tail' := if Adds(run[n - 1], product) && !Cleared(run, product, n - 1) then [Added(run[n - 1])] else [];
      hide Cleared;
      assert tail' == Left(tail, op, product);
      LeftSplits(before, tail, op, product);
      hide Left;
      assert Survivors(run, product, n) == Survivors(run, product, n - 1) + tail';
      assert Survivors(pre, product, n) == before + tail;
    }
  }

  lemma LastIsNotCleared(run: seq<Op>, product: string)
    requires run != []
    ensures Adds(run[|run| - 1], product) ==> !Cleared(run, product, |run| - 1)
  {
  }

  /** The list of a product is what its calls added and none has cleared since, in
      the order it was added. */
  lemma {:induction false} SourcesAreSurvivors(run: seq<Op>, product: string)
    ensures EntryOf(After(run), product).sources == Survivors(run, product, |run|)
    decreases |run|
  {
    if run != [] {
      var pre, op := run[..|run| - 1], run[|run| - 1];
      assert run == pre + [op];
      SourcesAreSurvivors(pre, product);
      SurvivorsAfter(pre, op, product, |pre|);
      LastIsNotCleared(run, product);
      hide Cleared;
    }
  }

  /** The call added a media entry that no later call of the run cleared. */
  ghost predicate Reported(run: seq<Op>, product: string, k: nat)
    requires k < |run|
  {
    Adds(run[k], product) && Added(run[k]).Media? && !Cleared(run, product, k)
  }

  lemma LastMedia(run: seq<Op>, product: string, n: nat)
    requires 0 < n <= |run|
    ensures MediaOf(Survivors(run, product, n)) ==
            MediaOf(Survivors(run, product, n - 1))
            + (if Reported(run, product, n - 1) then [Added(run[n - 1])] else [])
  {
    var before := Survivors(run, product, n - 1);
    var tail := if Adds(run[n - 1], product) && !Cleared(run, product, n - 1) then [Added(run[n - 1])] else [];
    assert Survivors(run, product, n) == before + tail;
    hide Survivors;
    hide Cleared;
    MediaAppend(before, tail);
    assert tail != [] ==> tail[1..] == [];
    assert MediaOf(tail) == if Reported(run, product, n - 1) then [Added(run[n - 1])] else [];
  }

  /** The calls among the first `n` that added what is reported. */
  ghost function ReportedPlaces(run: seq<Op>, product: string, n: nat): seq<nat>
    requires n <= |run|
  {
    if n == 0 then []
    else ReportedPlaces(run, product, n - 1) + (if Reported(run, product, n - 1) then [n - 1] else [])
  }

  lemma {:induction false} PlacesInOrder(run: seq<Op>, product: string, n: nat)
    requires n <= |run|
    ensures var places := ReportedPlaces(run, product, n);
            && (forall k | 0 <= k < |places| :: places[k] < n)
            && (forall j, k | 0 <= j < k < |places| :: places[j] < places[k])
            && (forall i: nat :: i in places <==> i < n && Reported(run, product, i))
  {
    hide Reported;
    if n > 0 {
      PlacesInOrder(run, product, n - 1);
    }
  }

  /** The media entries that survive are those of these calls. */
  lemma {:induction false} MediaAt(run: seq<Op>, product: string, n: nat, k: nat)
    requires n <= |run|
    ensures var places, media := ReportedPlaces(run, product, n), MediaOf(Survivors(run, product, n));
            && |places| == |media|
            && (k < |places| ==>
                  places[k] < n && Reported(run, product, places[k]) && media[k] == Added(run[places[k]]))
  {
    if n > 0 {
      LastMedia(run, product, n);
      MediaAt(run, product, n - 1, k);
      hide MediaOf;
      hide Survivors;
      hide Reported;
    }
  }

  /** What enumeration reports about the entry that a call added. */
  function ReportOf(op: Op): DiskInfo {
    match op
    case AddDisk(_, diskId, Some(volumeLabel), diskPrompt) =>
      DiskInfo(diskId, volumeLabel, if diskPrompt.Some? then diskPrompt.value else "")
    case _ => DiskInfo(0, "", "")
  }

  /** Enumeration agrees with history: index by index it reports the id, label and prompt
      of the calls that added a media entry which no later call cleared, in the order of
      the calls, and then no more items. */
  lemma EnumerationIsHistory(run: seq<Op>, product: string, index: U32)
    ensures var places := ReportedPlaces(run, product, |run|);
            && (forall k | 0 <= k < |places| :: places[k] < |run|)
            && (forall j, k | 0 <= j < k < |places| :: places[j] < places[k])
            && (forall i: nat :: i in places <==> i < |run| && Reported(run, product, i))
            && Enumerate(After(run), Some(product), index) ==
               if index < |places| then (0, Some(ReportOf(run[places[index]]))) else (259, None)
  {
    hide ReportedPlaces;
    hide Survivors;
    hide MediaOf;
    hide After;
    hide Cleared;
    SourcesAreSurvivors(run, product);
    MediaAt(run, product, |run|, index);
    var places := ReportedPlaces(run, product, |run|);
    assert Enumerate(After(run), Some(product), index) ==
           if index < |places| then (0, Some(ReportOf(run[places[index]]))) else (259, None);
    hide *;
    PlacesInOrder(run, product, |run|);
  }

  /** A disk that is reported after it was cleared: a media source without an id counts
      as disk 0, and clearing disk 0 keeps it. */
  lemma ClearedDiskThatIsReported(product: string, path: string)
    requires Classify(path).Media?
    ensures var run := [AddSource(Some(product), Some(path)), ClearDisk(Some(product), 0)];
            Enumerate(After(run), Some(product), 0) == (0, Some(DiskInfo(0, "", "")))
  {
    var add, clear := AddSource(Some(product), Some(path)), ClearDisk(Some(product), 0);
    var none: seq<Op> := [];
    var run := [add, clear];
    assert run[..1] == [add] && [add][..0] == none;
    assert After([add]) == Apply(After(none), add);
    assert After(run) == Apply(After([add]), clear);
    assert [Classify(path)][1..] == [];
    assert Retain([Classify(path)], 0) == [Classify(path)] + Retain([], 0);
  }

  // ----- Products do not interfere -----

  /** The calls made on one product. */
  function CallsOn(run: seq<Op>, product: string): seq<Op>
    decreases |run|
  {
    if run == [] then []
    else CallsOn(run[..|run| - 1], product) + (if On(run[|run| - 1], product) then [run[|run| - 1]] else [])
  }

  lemma ApplySeesOneProduct(a: Cache, b: Cache, op: Op, product: string)
    requires product in a <==> product in b
    requires EntryOf(a, product) == EntryOf(b, product)
    ensures var a' := Apply(a, op); var b' := if On(op, product) then Apply(b, op) else b;
            (product in a' <==> product in b') && EntryOf(a', product) == EntryOf(b', product)
  {
  }

  /** The state of a product depends on the calls made on it alone. */
  lemma {:induction false} ProductsAreIndependent(run: seq<Op>, product: string)
    ensures product in After(run) <==> product in After(CallsOn(run, product))
    ensures EntryOf(After(run), product) == EntryOf(After(CallsOn(run, product)), product)
    decreases |run|
  {
    if run != [] {
      var pre, op := run[..|run| - 1], run[|run| - 1];
      ProductsAreIndependent(pre, product);
      var calls := CallsOn(pre, product);
      ApplySeesOneProduct(After(pre), After(calls), op, product);
      assert (calls + [op])[..|calls + [op]| - 1] == calls;
      assert calls + [] == calls;
      assert CallsOn(run, product) == if On(op, product) then calls + [op] else calls;
      hide Apply;
    }
  }
}
