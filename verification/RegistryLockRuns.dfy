/** Whole runs of threads under the registry's two locks: they refine runs of the critical
    sections, never deadlock, and every lock is given up. */
module RegistryLockRuns {
  import opened Options
  import opened HandleIds
  import opened HandleTables
  import opened Registry
  import opened RegistryLocks

  ghost predicate LValidRun(l: LState, run: seq<LStep>)
    decreases run
  {
    run == [] || (LEnabled(l, run[0]) && LValidRun(LNext(l, run[0]), run[1..]))
  }

  ghost function LExec(l: LState, run: seq<LStep>): LState
    requires LValidRun(l, run)
    decreases run
  {
    if run == [] then l else LExec(LNext(l, run[0]), run[1..])
  }

  ghost predicate LReachable(l: LState) {
    exists run :: LValidRun(L_INIT, run) && LExec(L_INIT, run) == l
  }

  lemma SectionReachable(s: State, completes: Option<Step>, s': State)
    requires Reachable(s) && Matches(s, completes, s')
    ensures Reachable(s')
  {
    hide Next;
    hide Enabled;
    hide Reachable;
    if completes.Some? {
      var run := [completes.value];
      assert run[1..] == [];
      assert ValidRun(s', []) && Exec(s', []) == s';
      ReachableExtends(s, run);
    }
  }

  // ----- Sweeps half done -----

  ghost predicate Swept(s: State, t: ThreadId) {
    t !in s.tables.owners && LiveOf(s, t) == {}
  }

  /** A sweeping thread has no record, and all its live handles are still to be removed. */
  ghost predicate SweptInv(l: LState) {
    forall t | At(l, t).Sweeping? :: Swept(Abs(l), t)
  }

  lemma SweepStarts(s: State, t: ThreadId)
    requires Reachable(s) && Enabled(s, SweepRemove(t))
    ensures Swept(Next(s, SweepRemove(t)), t)
  {
    SweepIsComplete(s, t);
    hide Next;
  }

  lemma OthersKeepSwept(s: State, step: Step, t: ThreadId)
    requires Swept(s, t) && Enabled(s, step) && step.t != t
    ensures Swept(Next(s, step), t)
  {
    FrameOfStep(s, step, t);
    hide Tracked;
  }

  lemma SweepGoesOn(l: LState, step: LStep)
    requires LEnabled(l, step) && At(LNext(l, step), step.t).Sweeping?
    ensures if At(l, step.t).Sweeping? then Completes(l, step).None?
            else At(l, step.t).SweepMapWait? && Completes(l, step) == Some(SweepRemove(step.t))
  {
  }

  lemma OthersStayPut(l: LState, step: LStep, t: ThreadId)
    requires LEnabled(l, step) && step.t != t
    ensures At(LNext(l, step), t) == At(l, t)
  {
  }

  lemma SectionOfOwnThread(l: LState, step: LStep)
    ensures Completes(l, step).Some? ==> Completes(l, step).value.t == step.t
  {
  }

  /** A step that completes a section, or none, keeps a sweep's bargain. */
  lemma MatchKeepsSwept(s: State, completes: Option<Step>, s': State, t: ThreadId)
    requires Reachable(s) && Matches(s, completes, s')
    requires completes.Some? ==> completes.value == SweepRemove(t) || completes.value.t != t
    requires completes == Some(SweepRemove(t)) || Swept(s, t)
    ensures Swept(s', t)
  {
    if completes == Some(SweepRemove(t)) {
      SweepStarts(s, t);
    } else if completes.Some? {
      OthersKeepSwept(s, completes.value, t);
    }
    hide Swept;
    hide Reachable;
    hide Next;
    hide Enabled;
  }

  lemma SweeperKept(l: LState, step: LStep, t: ThreadId)
    requires LockInv(l) && WorkInv(l) && SweptInv(l) && Reachable(Abs(l)) && LEnabled(l, step)
    requires At(LNext(l, step), t).Sweeping?
    ensures Swept(Abs(LNext(l, step)), t)
  {
    ReachableInv(Abs(l));
    assert At(l, t).Sweeping? ==> Swept(Abs(l), t);
    hide LockInv;
    hide WorkInv;
    hide SweptInv;
    hide Reachable;
    hide Inv;
    hide Abs;
    hide LNext;
    hide LEnabled;
    hide Completes;
    hide Matches;
    hide Swept;
    StepMatchesSection(l, step);
    if t == step.t {
      SweepGoesOn(l, step);
    } else {
      OthersStayPut(l, step, t);
      SectionOfOwnThread(l, step);
    }
    MatchKeepsSwept(Abs(l), Completes(l, step), Abs(LNext(l, step)), t);
  }

  lemma StepKeepsSwept(l: LState, step: LStep)
    requires LockInv(l) && WorkInv(l) && SweptInv(l) && Reachable(Abs(l)) && LEnabled(l, step)
    ensures SweptInv(LNext(l, step))
  {
    var l' := LNext(l, step);
    forall t | At(l', t).Sweeping? ensures Swept(Abs(l'), t) {
      SweeperKept(l, step, t);
    }
    hide LNext;
    hide LEnabled;
    hide Abs;
    hide LockInv;
    hide WorkInv;
    hide Swept;
  }

  // ----- Refinement -----

  /** What every lock-level run keeps: the lock discipline, the work half done, the
      sweeps half done, and that the settled registry is one the sections reach. */
  ghost predicate LGood(l: LState) {
    LockInv(l) && WorkInv(l) && SweptInv(l) && Reachable(Abs(l))
  }

  lemma StepKeepsGood(l: LState, step: LStep)
    requires LGood(l) && LEnabled(l, step)
    ensures LGood(LNext(l, step)) && Inv(Abs(l))
    ensures Matches(Abs(l), Completes(l, step), Abs(LNext(l, step)))
  {
    hide LNext;
    hide LEnabled;
    hide LockInv;
    hide WorkInv;
    hide SweptInv;
    hide Abs;
    hide Reachable;
    hide Matches;
    ReachableInv(Abs(l));
    StepKeepsLocks(l, step);
    StepKeepsWork(l, step);
    StepKeepsSwept(l, step);
    StepMatchesSection(l, step);
    SectionReachable(Abs(l), Completes(l, step), Abs(LNext(l, step)));
  }

  lemma {:induction false} RunRefines(l: LState, run: seq<LStep>)
    requires LGood(l) && LValidRun(l, run)
    ensures LGood(LExec(l, run))
    decreases run
  {
    hide LNext;
    hide LEnabled;
    hide LGood;
    if run != [] {
      StepKeepsGood(l, run[0]);
      RunRefines(LNext(l, run[0]), run[1..]);
    }
  }

  lemma LInitIsGood()
    ensures LGood(L_INIT)
  {
    assert Abs(L_INIT) == INIT;
    var run: seq<Step> := [];
    assert ValidRun(INIT, run) && Exec(INIT, run) == INIT;
    hide Next;
    hide Enabled;
  }

  /** Refinement: whatever state the threads reach step by step under the locks, it
      settles to a state the critical sections reach. Every property of reachable
      registry states therefore holds of it. */
  lemma LocksRefineSections(l: LState)
    requires LReachable(l)
    ensures LGood(l)
  {
    LInitIsGood();
    hide LNext;
    hide LEnabled;
    hide LockInv;
    hide WorkInv;
    hide Abs;
    hide Reachable;
    var run :| LValidRun(L_INIT, run) && LExec(L_INIT, run) == l;
    RunRefines(L_INIT, run);
  }

  // ----- What holds in every reachable state -----

  /** Whenever no thread is writing the map, every handle in it is recorded for the
      thread that allocated it, or that thread has still to record it, or has taken
      it and waits to remove it. */
  lemma LiveHandlesAreAccountedFor(l: LState, h: Handle)
    requires LReachable(l) && !l.mapLock.MapWriting? && h in l.tables.objects
    ensures h in l.issuer
    ensures var t := l.issuer[h]; var p := At(l, t);
            || h in Owned(l.tables.owners, t)
            || p == EnlistWait(h) || p == Enlisting(h)
            || (p.SweepMapWait? && h in p.taken)
  {
    LocksRefineSections(l);
    var s := Abs(l);
    assert s.tables.objects == l.tables.objects && s.tables.owners == l.tables.owners && s.issuer == l.issuer;
    EveryLiveHandleIsAccountedFor(s, h);
    PcsAfterMove(l.points, l.issuer[h], Resting);
    hide Reachable;
    hide LReachable;
    hide LockInv;
    hide WorkInv;
    hide SectionPcs;
  }

  lemma SettledAtEndOfSweep(l: LState, t: ThreadId)
    requires Writer(l) == Sweeping({})
    ensures var s := Abs(l);
            s.issuer == l.issuer && s.tables.objects == l.tables.objects && s.tables.owners == l.tables.owners
  {
    hide SectionPcs;
    assert l.issuer - {} == l.issuer && l.tables.objects - {} == l.tables.objects;
  }

  /** Closing all handles is complete at lock level: when the sweep has removed its
      last handle and gives up the map, the tables hold no handle its thread allocated
      and no record of the thread, whatever happened since it took its record. */
  lemma SweepLeavesNothing(l: LState, t: ThreadId, next: Handle, obj: MsiObject)
    requires LReachable(l) && At(l, t) == Sweeping({})
    ensures LEnabled(l, Work(t, next, obj))
    ensures var l' := LNext(l, Work(t, next, obj));
            && At(l', t) == Resting && l'.mapLock == MapFree
            && l'.issuer.Keys == l'.tables.objects.Keys
            && (forall h | h in l'.tables.objects :: l'.issuer[h] != t)
            && t !in l'.tables.owners
  {
    LocksRefineSections(l);
    ReachableInv(Abs(l));
    HolderIsWriter(l, t);
    assert Swept(Abs(l), t);
    SettledAtEndOfSweep(l, t);
    hide Abs;
    forall h | h in l.issuer ensures l.issuer[h] != t {
      assert h !in LiveOf(Abs(l), t);
    }
    hide LReachable;
    hide Reachable;
    hide LockInv;
    hide WorkInv;
    hide SectionPcs;
  }

  /** No thread holds one lock while it waits for or acquires the other, and no
      thread holds both. */
  lemma NeverTwoLocks(l: LState, t: ThreadId)
    requires LReachable(l)
    ensures var p := At(l, t);
            var holdsMap := l.mapLock == MapWriting(t) || (l.mapLock.MapReading? && t in l.mapLock.ts);
            var holdsOwners := l.ownersLock == OwnersHeld(t);
            && !(holdsMap && holdsOwners)
            && (p.WaitsForMap() || p.WaitsForOwners() ==> !holdsMap && !holdsOwners)
  {
    LocksRefineSections(l);
    hide LReachable;
  }

  /** A thread that holds a lock can go on: its next access needs no other lock. */
  lemma HolderCanWork(l: LState, t: ThreadId) returns (step: LStep)
    requires At(l, t).HoldsMap() || At(l, t).HoldsOwners() || At(l, t).Reading?
    ensures step.Work? && step.t == t && LEnabled(l, step)
  {
    var next: Handle := 0;
    if At(l, t).Sweeping? && At(l, t).rest != {} {
      next :| next in At(l, t).rest;
    }
    step := Work(t, next, Record(0));
  }

  /** No deadlock: while any operation is unfinished, some unfinished operation has
      an enabled step. */
  lemma NoDeadlock(l: LState, t: ThreadId)
    requires LReachable(l) && At(l, t) != Resting
    ensures exists step: LStep :: LEnabled(l, step) && !step.Begin? && At(l, step.t) != Resting
  {
    LocksRefineSections(l);
    hide LReachable;
    var step: LStep;
    if l.mapLock.MapWriting? {
      step := HolderCanWork(l, l.mapLock.t);
    } else if l.mapLock.MapReading? {
      var u :| u in l.mapLock.ts;
      step := HolderCanWork(l, u);
    } else if l.ownersLock.OwnersHeld? {
      step := HolderCanWork(l, l.ownersLock.t);
    } else if At(l, t).WaitsForMap() {
      step := AcquireMap(t);
    } else {
      step := AcquireOwners(t);
    }
  }

  // ----- Every lock is released -----

  ghost function ProbesLeft(keys: set<Handle>, start: Handle, probes: nat): int {
    if |keys| < ID_SPACE - 1 then FirstFree(keys, start) + 1 - probes else 0
  }

  /** How many accesses a thread is away from releasing the lock it holds. */
  ghost function WorkLeft(l: LState, p: Point): int {
    match p
    case AllocProbing(_, start, probes) => ProbesLeft(l.tables.objects.Keys, start, probes)
    case Sweeping(rest) => |rest| + 1
    case PairStart(_, _) => 5
    case PairHasMut(_, _, _) => 4
    case PairHasBoth(_, _, _, _) => 3
    case PairRan(_, _, _, _) => 2
    case _ => if p.HoldsMap() || p.HoldsOwners() || p.Reading? then 1 else 0
  }

  lemma ProbeGetsCloser(l: LState, t: ThreadId)
    requires WorkInv(l) && At(l, t).AllocProbing?
    requires |l.tables.objects.Keys| < ID_SPACE - 1
    ensures var l' := Probe(l, t);
            0 <= WorkLeft(l', At(l', t)) < WorkLeft(l, At(l, t))
  {
    var p := At(l, t);
    assert PointInv(l, p);
    var k := FirstFree(l.tables.objects.Keys, p.start);
    assert p.probes <= k;
  }

  lemma SweepGetsCloser(l: LState, t: ThreadId, next: Handle)
    requires At(l, t).Sweeping? && (At(l, t).rest != {} ==> next in At(l, t).rest)
    ensures var l' := SweepWork(l, t, next);
            0 <= WorkLeft(l', At(l', t)) < WorkLeft(l, At(l, t))
  {
    hide ProbesLeft;
    var rest := At(l, t).rest;
    if rest == {} {
      assert At(SweepWork(l, t, next), t) == Resting;
    } else {
      assert |rest - {next}| == |rest| - 1;
      assert At(SweepWork(l, t, next), t) == Sweeping(rest - {next});
    }
    hide SweepWork;
  }

  lemma PairGetsCloser(l: LState, t: ThreadId, obj: MsiObject)
    requires InPair(At(l, t))
    ensures var l' := PairWork(l, t, obj);
            0 <= WorkLeft(l', At(l', t)) < WorkLeft(l, At(l, t))
  {
    hide ProbesLeft;
    var p' := At(PairWork(l, t, obj), t);
    assert match At(l, t)
      case PairStart(_, _) => p'.PairHasMut? || p' == Resting
      case PairHasMut(_, _, _) => p'.PairHasBoth? || p' == Resting
      case PairHasBoth(_, _, _, _) => p'.PairRan?
      case PairRan(_, _, _, _) => p'.PairPutBack?
      case _ => p' == Resting;
    hide PairWork;
  }

  /** Under the owners lock, and in a close or a `with_*` on one handle, one access is all. */
  lemma OneAccessReleases(l: LState, step: LStep)
    requires LEnabled(l, step) && step.Work?
    requires var p := At(l, step.t); p.HoldsOwners() || p.Closing? || p.Reading? || p.Writing?
    ensures WorkLeft(l, At(l, step.t)) == 1
    ensures var l' := LNext(l, step); WorkLeft(l', At(l', step.t)) == 0
  {
    hide ProbesLeft;
    var l' := LNext(l, step);
    if At(l, step.t).HoldsOwners() {
      assert l' == OwnersWork(l, step.t);
      hide LNext;
      assert At(l', step.t).Resting? || At(l', step.t).SweepMapWait?;
      hide OwnersWork;
    } else {
      assert At(l', step.t).Resting? || At(l', step.t).DelistWait?;
      hide LNext;
    }
  }

  lemma OwnWorkFinishes(l: LState, step: LStep)
    requires LEnabled(l, step) && step.Work? && !At(l, step.t).AllocProbing?
    ensures var l' := LNext(l, step);
            0 <= WorkLeft(l', At(l', step.t)) < WorkLeft(l, At(l, step.t))
  {
    var p := At(l, step.t);
    if p.HoldsOwners() || p.Closing? || p.Reading? || p.Writing? {
      OneAccessReleases(l, step);
      hide LNext;
    } else if p.Sweeping? {
      assert LNext(l, step) == SweepWork(l, step.t, step.next);
      hide LNext;
      SweepGetsCloser(l, step.t, step.next);
      hide SweepWork;
    } else {
      assert LNext(l, step) == PairWork(l, step.t, step.obj);
      hide LNext;
      PairGetsCloser(l, step.t, step.obj);
      hide PairWork;
    }
    hide WorkLeft;
  }

  lemma OthersLeaveWork(l: LState, step: LStep, t: ThreadId)
    requires LockInv(l) && LEnabled(l, step) && step.t != t
    requires At(l, t).AllocProbing? ==> !(step.Work? && At(l, step.t).HoldsMap())
    ensures At(LNext(l, step), t) == At(l, t)
    ensures At(l, t).AllocProbing? ==> LNext(l, step).tables.objects == l.tables.objects
  {
    hide LockInv;
    if At(l, t).AllocProbing? {
      OnlyWriterTouchesMap(l, step);
    }
  }

  /** Every lock is released: each access of its holder leaves strictly fewer to do,
      and no step of another thread gives the holder more. Only an allocation into a
      full table searches for ever. */
  lemma HoldersFinish(l: LState, step: LStep, t: ThreadId)
    requires LockInv(l) && WorkInv(l) && LEnabled(l, step)
    requires At(l, t).HoldsMap() || At(l, t).HoldsOwners() || At(l, t).Reading?
    requires At(l, t).AllocProbing? ==> |l.tables.objects.Keys| < ID_SPACE - 1
    ensures var l' := LNext(l, step);
            if step.t == t then 0 <= WorkLeft(l', At(l', t)) < WorkLeft(l, At(l, t))
            else At(l', t) == At(l, t) && WorkLeft(l', At(l', t)) == WorkLeft(l, At(l, t))
  {
    assert step.t == t ==> step.Work?;
    if step.t == t && At(l, t).AllocProbing? {
      ProbeGetsCloser(l, t);
      assert LNext(l, step) == Probe(l, t);
      hide WorkLeft;
    } else if step.t == t {
      OwnWorkFinishes(l, step);
      hide WorkLeft;
    } else {
      OthersLeaveWork(l, step, t);
    }
    hide LNext;
    hide LockInv;
    hide WorkInv;
  }
}
