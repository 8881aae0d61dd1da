/** What accesses through a handle show, over whole runs: the object left under it last. */
module RegistryObjects {
  import opened Options
  import opened HandleIds
  import opened HandleTables
  import opened Registry

  /** The registry after the first `k` steps of a run. */
  ghost function StateAfter(s: State, run: seq<Step>, k: nat): State
    requires ValidRun(s, run) && k <= |run|
    decreases k
  {
    if k == 0 then s else StateAfter(Next(s, run[0]), run[1..], k - 1)
  }

  lemma {:induction false} StepsAreEnabled(s: State, run: seq<Step>, k: nat)
    requires ValidRun(s, run) && k < |run|
    ensures Enabled(StateAfter(s, run, k), run[k])
    decreases k
  {
    if k > 0 {
      StepsAreEnabled(Next(s, run[0]), run[1..], k - 1);
    }
    hide Next;
    hide Enabled;
  }

  /** The step leaves the object under the handle: the handle is issued for it, or a
      closure that is shown the handle's object puts it in its place. */
  predicate Leaves(s: State, step: Step, h: Handle, obj: MsiObject)
    requires Enabled(s, step)
  {
    match step
    case AllocInsert(_, o) => Seen(s, step) == Issued(h) && obj == o
    case Write(_, x, o) => Seen(s, step) != Found(None) && x == h && obj == o
    case WritePair(_, hm, _, o) => Seen(s, step) != FoundPair(None) && hm == h && obj == o
    case _ => false
  }

  /** The step closes the handle, or finishes a sweep that has taken it. */
  predicate Drops(s: State, step: Step, h: Handle) {
    || (step.CloseRemove? && step.h == h)
    || (step.SweepRemove? && PcOf(s.pcs, step.t).SweepMap? && h in PcOf(s.pcs, step.t).taken)
  }

  ghost predicate Touches(s: State, step: Step, h: Handle) {
    Enabled(s, step) && (Drops(s, step, h) || exists obj :: Leaves(s, step, h, obj))
  }

  /** From the `k`-th step on, no step of the run touches the handle. */
  ghost predicate UntouchedFrom(s: State, run: seq<Step>, k: nat, h: Handle)
    requires ValidRun(s, run)
  {
    forall j: nat | k <= j < |run| :: !Touches(StateAfter(s, run, j), run[j], h)
  }

  /** The `k`-th step leaves the object under the handle, and no later one touches it. */
  ghost predicate LeftLastBy(s: State, run: seq<Step>, k: nat, h: Handle, obj: MsiObject)
    requires ValidRun(s, run) && k < |run|
  {
    StepsAreEnabled(s, run, k);
    Leaves(StateAfter(s, run, k), run[k], h, obj) && UntouchedFrom(s, run, k + 1, h)
  }

  predicate Has(s: State, h: Handle, obj: MsiObject) {
    h in s.tables.objects && s.tables.objects[h] == obj
  }

  lemma StepLeavesOrKeeps(s: State, step: Step, h: Handle, obj: MsiObject)
    requires Enabled(s, step)
    ensures Has(Next(s, step), h, obj) <==> Leaves(s, step, h, obj) || (Has(s, h, obj) && !Touches(s, step, h))
  {
    hide FirstFree;
    hide Advance;
    if step.AllocInsert? || step.Write? || step.WritePair? {
      assert Touches(s, step, h) <==> Leaves(s, step, h, step.obj);
    }
  }

  lemma NextUntouched(s: State, run: seq<Step>, h: Handle)
    requires ValidRun(s, run) && run != []
    ensures UntouchedFrom(s, run, 0, h) <==>
              !Touches(s, run[0], h) && UntouchedFrom(Next(s, run[0]), run[1..], 0, h)
    ensures forall k: nat | k <= |run[1..]| ::
              UntouchedFrom(s, run, k + 1, h) <==> UntouchedFrom(Next(s, run[0]), run[1..], k, h)
  {
    hide Next;
    hide Enabled;
    hide Touches;
    var s', rest := Next(s, run[0]), run[1..];
    forall j: nat | j < |rest|
      ensures StateAfter(s', rest, j) == StateAfter(s, run, j + 1) && rest[j] == run[j + 1]
    {
    }
    assert StateAfter(s, run, 0) == s;
    forall k: nat | k <= |rest| ensures UntouchedFrom(s, run, k + 1, h) <==> UntouchedFrom(s', rest, k, h) {
      if UntouchedFrom(s, run, k + 1, h) {
        forall j: nat | k <= j < |rest| ensures !Touches(StateAfter(s', rest, j), rest[j], h) {
          assert !Touches(StateAfter(s, run, j + 1), run[j + 1], h);
        }
      }
      if UntouchedFrom(s', rest, k, h) {
        forall j: nat | k + 1 <= j < |run| ensures !Touches(StateAfter(s, run, j), run[j], h) {
          assert !Touches(StateAfter(s', rest, j - 1), rest[j - 1], h);
        }
      }
    }
  }

  ghost predicate WasLeft(s: State, run: seq<Step>, h: Handle, obj: MsiObject)
    requires ValidRun(s, run)
  {
    exists k: nat :: k < |run| && LeftLastBy(s, run, k, h, obj)
  }

  /** Whether a step was the last to leave the object, seen from one step later. */
  lemma NextLeftLast(s: State, run: seq<Step>, k: nat, h: Handle, obj: MsiObject)
    requires ValidRun(s, run) && k < |run|
    ensures LeftLastBy(s, run, k, h, obj) <==>
              if k == 0 then Leaves(s, run[0], h, obj) && UntouchedFrom(Next(s, run[0]), run[1..], 0, h)
              else LeftLastBy(Next(s, run[0]), run[1..], k - 1, h, obj)
  {
    NextUntouched(s, run, h);
    StepsAreEnabled(s, run, k);
    hide Next;
    hide Enabled;
    hide Leaves;
    hide UntouchedFrom;
    assert StateAfter(s, run, k) == if k == 0 then s else StateAfter(Next(s, run[0]), run[1..], k - 1);
  }

  lemma NextLeft(s: State, run: seq<Step>, h: Handle, obj: MsiObject)
    requires ValidRun(s, run) && run != []
    ensures WasLeft(s, run, h, obj) <==>
              || WasLeft(Next(s, run[0]), run[1..], h, obj)
              || (Leaves(s, run[0], h, obj) && UntouchedFrom(Next(s, run[0]), run[1..], 0, h))
  {
    hide Next;
    hide Enabled;
    hide Leaves;
    hide UntouchedFrom;
    hide LeftLastBy;
    NextLeftLast(s, run, 0, h, obj);
    var s', rest := Next(s, run[0]), run[1..];
    if WasLeft(s', rest, h, obj) {
      var k: nat :| k < |rest| && LeftLastBy(s', rest, k, h, obj);
      NextLeftLast(s, run, k + 1, h, obj);
    }
    if WasLeft(s, run, h, obj) {
      var k: nat :| k < |run| && LeftLastBy(s, run, k, h, obj);
      NextLeftLast(s, run, k, h, obj);
    }
  }

  lemma {:induction false} RunLeavesOrKeeps(s: State, run: seq<Step>, h: Handle, obj: MsiObject)
    requires ValidRun(s, run)
    ensures Has(Exec(s, run), h, obj) <==>
              WasLeft(s, run, h, obj) || (Has(s, h, obj) && UntouchedFrom(s, run, 0, h))
    decreases run
  {
    if run != [] {
      StepLeavesOrKeeps(s, run[0], h, obj);
      NextUntouched(s, run, h);
      NextLeft(s, run, h, obj);
      RunLeavesOrKeeps(Next(s, run[0]), run[1..], h, obj);
    }
    hide Next;
    hide Enabled;
    hide Leaves;
    hide Touches;
    hide UntouchedFrom;
    hide LeftLastBy;
  }

  /** Over any run, in any interleaving: an access through a handle shows exactly the
      object that was left under it last, by issuing it or by a mutable access, and
      nothing if it was never issued, or closed or swept since. A close reports just
      that, and an access to a pair shows both objects if the handles differ and each
      has one. */
  lemma AccessesShowTheLastObject(run: seq<Step>, t: ThreadId, h: Handle, hr: Handle, obj: MsiObject)
    requires ValidRun(INIT, run) && PcOf(Exec(INIT, run).pcs, t) == Idle
    ensures var s := Exec(INIT, run); var shown, shown' := Seen(s, Read(t, h)), Seen(s, Read(t, hr));
            && shown.Found? && shown'.Found?
            && (forall o :: shown == Found(Some(o)) <==> WasLeft(INIT, run, h, o))
            && Seen(s, Write(t, h, obj)) == shown
            && Seen(s, CloseRemove(t, h)) == Closed(shown != Found(None))
            && Seen(s, WritePair(t, h, hr, obj)) ==
               FoundPair(if h != hr && shown.obj.Some? && shown'.obj.Some? then
                           Some((shown.obj.value, shown'.obj.value))
                         else None)
  {
    hide Next;
    hide WasLeft;
    var s := Exec(INIT, run);
    hide Exec;
    forall o ensures Has(s, h, o) <==> WasLeft(INIT, run, h, o) {
      RunLeavesOrKeeps(INIT, run, h, o);
    }
  }
}
