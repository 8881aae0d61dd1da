/** When closing all handles of a thread leaves other threads' handles alone, with threads
    taking step by step under the locks, from any state they can reach. */
module RegistryLockIsolation {
  import opened Options
  import opened HandleIds
  import opened HandleTables
  import opened Registry
  import opened RegistryIsolation
  import opened RegistryLocks
  import opened RegistryLockRuns
  import opened RegistryRealisation

  /** Thread `t` goes on with what it has begun. */
  ghost predicate Finishing(t: ThreadId, own: seq<LStep>) {
    AllBy(t, own) && NoBegin(own)
  }

  /** By its own steps, and beginning nothing new, `t` removes from the table a live
      handle that another thread allocated. */
  ghost predicate RemovesForeign(l: LState, t: ThreadId, own: seq<LStep>, h: Handle) {
    && LValidRun(l, own) && Finishing(t, own)
    && h in l.tables.objects && h in l.issuer && l.issuer[h] != t
    && h !in LExec(l, own).tables.objects
  }

  /** Other threads can bring about a state in which the sweep of `t` does so. */
  ghost predicate LCanHit(l: LState, t: ThreadId) {
    exists others, own, h :: LValidRun(l, others) && LByOthers(t, others) && RemovesForeign(LExec(l, others), t, own, h)
  }

  /** Some thread searches a full table for a free handle, and will for ever. */
  ghost predicate Stuck(l: LState) {
    exists w :: At(l, w).AllocProbing? && |l.tables.objects.Keys| >= ID_SPACE - 1
  }

  // ----- Bringing all work under the locks to an end -----

  function Holders(l: LState): set<ThreadId> {
    set u | u in l.points && Holding(l.points[u])
  }

  lemma HoldersHold(l: LState, u: ThreadId)
    ensures u in Holders(l) <==> Holding(At(l, u))
  {
  }

  lemma NowhereToGo(l: LState)
    ensures LValidRun(l, []) && LExec(l, []) == l
  {
    hide LNext;
    hide LEnabled;
  }

  lemma OneStepOfHolder(l: LState, step: LStep)
    requires LGood(l) && Holding(At(l, step.t)) && SearchEnds(l, step.t) && step.Work? && LEnabled(l, step)
    ensures var l1 := LNext(l, step);
            && LGood(l1) && SearchEnds(l1, step.t) && OthersSame(l, step.t, l1)
            && 0 <= WorkLeft(l1, At(l1, step.t)) < WorkLeft(l, At(l, step.t))
  {
    HoldersFinish(l, step, step.t);
    StepKeepsGood(l, step);
    if At(LNext(l, step), step.t).AllocProbing? {
      ProbingGoesOn(l, step);
    }
    forall u | u != step.t ensures At(LNext(l, step), u) == At(l, u) {
      OthersStayPut(l, step, u);
    }
    hide LNext;
    hide LEnabled;
    hide LGood;
    hide Abs;
    hide Completes;
    hide Matches;
    hide WorkLeft;
  }

  /** A thread that holds a lock gives it up by its own steps, whoever else holds one. */
  lemma {:induction false} Release(l: LState, u: ThreadId) returns (run: seq<LStep>)
    requires LGood(l) && Holding(At(l, u)) && SearchEnds(l, u)
    ensures LValidRun(l, run) && AllBy(u, run)
    ensures var l' := LExec(l, run); LGood(l') && !Holding(At(l', u)) && OthersSame(l, u, l')
    decreases WorkLeft(l, At(l, u))
  {
    hide *;
    var step := SomeWork(l, u, Record(0));
    var l1 := LNext(l, step);
    OneStepOfHolder(l, step);
    var rest: seq<LStep> := [];
    if Holding(At(l1, u)) {
      rest := Release(l1, u);
    } else {
      NoSteps(u);
      NowhereToGo(l1);
      SameAsBefore(l1, u);
    }
    LRunOfOne(l, step, rest);
    OneMoreBy(step, rest);
    SameTwice(l, u, l1, LExec(l1, rest));
    run := [step] + rest;
  }

  /** The writer, if there is one, gives up first; then nobody searches the table. */
  lemma NextToRelease(l: LState) returns (u: ThreadId)
    requires LockInv(l) && !Stuck(l) && Holders(l) != {}
    ensures Holding(At(l, u)) && SearchEnds(l, u)
    ensures forall v | v != u :: !At(l, v).AllocProbing?
  {
    if l.mapLock.MapWriting? {
      u := l.mapLock.t;
    } else {
      u :| u in Holders(l);
      HoldersHold(l, u);
    }
  }

  lemma OneFewerHolder(l: LState, u: ThreadId, l1: LState)
    requires Holding(At(l, u)) && !Holding(At(l1, u)) && OthersSame(l, u, l1)
    requires forall v | v != u :: !At(l, v).AllocProbing?
    ensures Holders(l1) == Holders(l) - {u} && u in Holders(l) && !Stuck(l1)
  {
    forall v ensures v in Holders(l1) <==> v in Holders(l) && v != u {
      HoldersHold(l, v);
      HoldersHold(l1, v);
    }
    forall v ensures !At(l1, v).AllocProbing? {
      if v != u {
        assert At(l1, v) == At(l, v);
      }
    }
  }

  lemma NoHolders(l: LState)
    requires LGood(l) && Holders(l) == {}
    ensures LocksFree(l)
  {
    forall u ensures !Holding(At(l, u)) {
      HoldersHold(l, u);
    }
    hide Abs;
  }

  /** Unless one searches a full table, the threads other than `t` can bring about that
      both locks are free. */
  lemma {:induction false} CalmDown(l: LState, t: ThreadId) returns (run: seq<LStep>)
    requires LGood(l) && !Holding(At(l, t)) && !Stuck(l)
    ensures LValidRun(l, run) && LByOthers(t, run)
    ensures var l' := LExec(l, run); LGood(l') && LocksFree(l') && At(l', t) == At(l, t)
    decreases |Holders(l)|
  {
    run := [];
    if Holders(l) == {} {
      NoHolders(l);
      NowhereToGo(l);
    } else {
      var u := NextToRelease(l);
      hide LGood;
      hide Stuck;
      hide Holders;
      hide LNext;
      hide LEnabled;
      hide Holding;
      var lead := Release(l, u);
      var l1 := LExec(l, lead);
      OneFewerHolder(l, u, l1);
      var tail := CalmDown(l1, t);
      LRunsCompose(l, lead, tail);
      run := lead + tail;
    }
  }

  // ----- A sweep with something to remove can be made to hit -----

  lemma FreshThread(l: LState, t: ThreadId) returns (u: ThreadId)
    ensures u != t && At(l, u) == Resting
  {
    u := t + 1;
    var busy := l.points.Keys;
    while u in l.points
      invariant u > t
      invariant busy <= l.points.Keys && forall v | v in l.points && v >= u :: v in busy
      decreases |busy|
    {
      busy := busy - {u};
      u := u + 1;
    }
  }

  lemma SweeperInAbs(l: LState, t: ThreadId)
    requires LocksFree(l) && At(l, t).SweepMapWait?
    ensures PcOf(Abs(l).pcs, t) == SweepMap(At(l, t).taken)
  {
    PcOfPoint(l, t);
    hide Abs;
  }

  lemma HitHandle(s: State, t: ThreadId) returns (h: Handle)
    requires Hits(s, t)
    ensures PcOf(s.pcs, t).SweepMap? && h in PcOf(s.pcs, t).taken && h in s.issuer && s.issuer[h] != t
    ensures Enabled(s, SweepRemove(t)) && h !in Next(s, SweepRemove(t)).tables.objects
  {
    h :| h in PcOf(s.pcs, t).taken && h in s.issuer && s.issuer[h] != t;
  }

  /** With both locks free and the settled registry about to be hit, the sweep's own steps
      hit the table. */
  lemma HitHappens(l: LState, t: ThreadId) returns (own: seq<LStep>, h: Handle)
    requires LGood(l) && LocksFree(l) && At(l, t).SweepMapWait? && Hits(Abs(l), t)
    ensures RemovesForeign(l, t, own, h)
  {
    h := HitHandle(Abs(l), t);
    ReachableInv(Abs(l));
    FreeIsSettled(l);
    assert l.issuer.Keys == l.tables.objects.Keys;
    hide Abs;
    hide LGood;
    hide Hits;
    hide LNext;
    hide LEnabled;
    own := RealiseSection(l, SweepRemove(t));
    FreeIsSettled(LExec(l, own));
  }

  lemma TakenIsNotNull(l: LState, t: ThreadId)
    requires LGood(l) && LocksFree(l) && At(l, t).SweepMapWait?
    ensures Inv(Abs(l)) && NULL_HANDLE !in At(l, t).taken
  {
    ReachableInv(Abs(l));
    SweeperInAbs(l, t);
    assert NULL_HANDLE !in Tracked(Abs(l), t);
    hide Abs;
    hide LockInv;
    hide WorkInv;
    hide SweptInv;
  }

  lemma BothByOthers(t: ThreadId, a: seq<LStep>, b: seq<LStep>)
    requires LByOthers(t, a) && LByOthers(t, b)
    ensures LByOthers(t, a + b)
  {
  }

  lemma SomethingTakenCanHit(l: LState, t: ThreadId)
    requires LGood(l) && At(l, t).SweepMapWait? && At(l, t).taken != {} && !Stuck(l)
    ensures LCanHit(l, t)
  {
    var h :| h in At(l, t).taken;
    var calm := CalmDown(l, t);
    var l1 := LExec(l, calm);
    TakenIsNotNull(l1, t);
    SweeperInAbs(l1, t);
    var u := FreshThread(l1, t);
    PcOfPoint(l1, u);
    hide Abs;
    hide LGood;
    hide LNext;
    hide LEnabled;
    hide Inv;
    hide Stuck;
    hide Hits;
    var run := TakenHandleCanBeHit(Abs(l1), t, h, u);
    assert Ready(l1, run);
    var lrun := RealiseRun(l1, run);
    var l2 := LExec(l1, lrun);
    var own, g := HitHappens(l2, t);
    LRunsCompose(l, calm, lrun);
    BothByOthers(t, calm, lrun);
    assert LExec(l, calm + lrun) == l2;
    hide RemovesForeign;
  }

  // ----- Otherwise it cannot -----

  lemma {:induction false} PointKept(l: LState, t: ThreadId, run: seq<LStep>)
    requires LValidRun(l, run) && LByOthers(t, run)
    ensures At(LExec(l, run), t) == At(l, t)
    decreases run
  {
    hide LNext;
    hide LEnabled;
    if run != [] {
      OthersStayPut(l, run[0], t);
      assert forall k | 0 <= k < |run[1..]| :: run[1..][k] == run[k + 1];
      PointKept(LNext(l, run[0]), t, run[1..]);
    }
  }

  /** Where a thread with nothing to remove can be until it begins something new. */
  predicate NothingToRemove(p: Point) {
    p == SweepMapWait({}) || p == Sweeping({}) || p == Resting
  }

  lemma EmptySweepStep(l: LState, step: LStep)
    requires LEnabled(l, step) && !step.Begin? && NothingToRemove(At(l, step.t))
    ensures NothingToRemove(At(LNext(l, step), step.t)) && LNext(l, step).tables == l.tables
  {
  }

  lemma {:induction false} EmptySweepRemovesNothing(l: LState, t: ThreadId, own: seq<LStep>)
    requires LValidRun(l, own) && Finishing(t, own) && NothingToRemove(At(l, t))
    ensures LExec(l, own).tables == l.tables
    decreases own
  {
    hide LNext;
    hide LEnabled;
    hide NothingToRemove;
    if own != [] {
      assert own[0].t == t && !own[0].Begin?;
      EmptySweepStep(l, own[0]);
      assert forall k | 0 <= k < |own[1..]| :: own[1..][k] == own[k + 1];
      EmptySweepRemovesNothing(LNext(l, own[0]), t, own[1..]);
    }
  }

  lemma FullIsTaken(live: set<Handle>, h: Handle)
    requires NULL_HANDLE !in live && |live| >= ID_SPACE - 1
    ensures Taken(live, h)
  {
    if !Taken(live, h) {
      RoomForOneMore(live, h);
    }
  }

  /** A thread that searches a full table goes on, and keeps the map's lock. */
  ghost predicate StuckAt(l: LState, w: ThreadId) {
    && At(l, w).AllocProbing? && l.mapLock == MapWriting(w)
    && |l.tables.objects.Keys| >= ID_SPACE - 1 && NULL_HANDLE !in l.tables.objects
  }

  lemma MapLockStays(l: LState, step: LStep, w: ThreadId)
    requires LockInv(l) && LEnabled(l, step) && l.mapLock == MapWriting(w) && step.t != w
    ensures LNext(l, step).mapLock == MapWriting(w)
  {
    assert !At(l, step.t).HoldsMap() && !At(l, step.t).Reading?;
    hide LockInv;
  }

  lemma StuckBeside(l: LState, step: LStep, w: ThreadId)
    requires LockInv(l) && LEnabled(l, step) && StuckAt(l, w) && step.t != w
    ensures StuckAt(LNext(l, step), w)
  {
    assert !At(l, step.t).HoldsMap();
    OnlyWriterTouchesMap(l, step);
    OthersStayPut(l, step, w);
    MapLockStays(l, step, w);
    hide LNext;
    hide LEnabled;
    hide LockInv;
  }

  lemma StuckStep(l: LState, step: LStep, w: ThreadId)
    requires LGood(l) && LEnabled(l, step) && StuckAt(l, w)
    ensures StuckAt(LNext(l, step), w)
  {
    if step.t == w {
      FullIsTaken(l.tables.objects.Keys, l.tables.nextId);
      assert LNext(l, step) == Probe(l, w);
    } else {
      StuckBeside(l, step, w);
    }
    hide LNext;
    hide LEnabled;
    hide Abs;
    hide LockInv;
  }

  lemma {:induction false} StuckRun(l: LState, run: seq<LStep>, w: ThreadId)
    requires LGood(l) && LValidRun(l, run) && StuckAt(l, w)
    ensures StuckAt(LExec(l, run), w)
    decreases run
  {
    hide LNext;
    hide LEnabled;
    hide LGood;
    hide StuckAt;
    if run != [] {
      StuckStep(l, run[0], w);
      StepKeepsGood(l, run[0]);
      StuckRun(LNext(l, run[0]), run[1..], w);
    }
  }

  lemma WhoIsStuck(l: LState) returns (w: ThreadId)
    requires LGood(l) && Stuck(l)
    ensures StuckAt(l, w)
  {
    w :| At(l, w).AllocProbing? && |l.tables.objects.Keys| >= ID_SPACE - 1;
    ReachableInv(Abs(l));
    ProbingSeesNoNull(l, w);
    hide Abs;
    hide Inv;
  }

  lemma WaitsInVain(l: LState, t: ThreadId, w: ThreadId)
    requires StuckAt(l, w) && At(l, t).SweepMapWait?
    ensures forall step: LStep | step.t == t && !step.Begin? :: !LEnabled(l, step)
  {
  }

  /** While the map's lock is never given up, a waiting sweep does nothing. */
  lemma StuckSweepDoesNothing(l: LState, t: ThreadId, own: seq<LStep>, w: ThreadId)
    requires StuckAt(l, w) && At(l, t).SweepMapWait? && LValidRun(l, own) && Finishing(t, own)
    ensures own == []
  {
    WaitsInVain(l, t, w);
    hide LEnabled;
    hide StuckAt;
  }

  lemma NoHitOtherwise(l: LState, t: ThreadId)
    requires LGood(l) && At(l, t).SweepMapWait? && (At(l, t).taken == {} || Stuck(l))
    ensures !LCanHit(l, t)
  {
    hide LNext;
    hide LEnabled;
    hide LGood;
    hide StuckAt;
    hide Stuck;
    forall others, own, h | LValidRun(l, others) && LByOthers(t, others)
      ensures !RemovesForeign(LExec(l, others), t, own, h)
    {
      var l1 := LExec(l, others);
      PointKept(l, t, others);
      if RemovesForeign(l1, t, own, h) {
        if At(l, t).taken == {} {
          EmptySweepRemovesNothing(l1, t, own);
        } else {
          var w := WhoIsStuck(l);
          StuckRun(l, others, w);
          StuckSweepDoesNothing(l1, t, own, w);
        }
      }
    }
  }

  /** Exactly when closing all handles is isolated under the locks whatever the other
      threads do there, from any state that can be reached with the thread waiting to
      sweep: they can make the sweep remove a handle that is not its own if and only if
      it has anything to remove and nobody searches a full table, in which case it never
      gets the map. */
  lemma IsolatedExactlyUnderLocks(l: LState, t: ThreadId)
    requires LReachable(l) && At(l, t).SweepMapWait?
    ensures LCanHit(l, t) <==> At(l, t).taken != {} && !Stuck(l)
  {
    LocksRefineSections(l);
    hide LReachable;
    hide LGood;
    hide Stuck;
    hide LCanHit;
    if At(l, t).taken != {} && !Stuck(l) {
      SomethingTakenCanHit(l, t);
    } else {
      NoHitOtherwise(l, t);
    }
  }

  // ----- The same as section by section -----

  /** Section by section, other threads can bring about a state that the sweep hits. */
  ghost predicate SectionsCanHit(s: State, t: ThreadId) {
    exists run :: ValidRun(s, run) && ByOthers(t, run) && Hits(Exec(s, run), t)
  }

  lemma SectionsHitExactly(s: State, t: ThreadId)
    requires Inv(s) && PcOf(s.pcs, t).SweepMap?
    ensures SectionsCanHit(s, t) <==> PcOf(s.pcs, t).taken != {}
  {
    assert NULL_HANDLE !in Tracked(s, t);
    var taken := PcOf(s.pcs, t).taken;
    if taken != {} {
      var h :| h in taken;
      var u := SomeThreadIsIdle(s, t);
      var run := TakenHandleCanBeHit(s, t, h, u);
    } else if SectionsCanHit(s, t) {
      var run :| ValidRun(s, run) && ByOthers(t, run) && Hits(Exec(s, run), t);
      PositionKept(s, t, run);
    }
    hide Next;
    hide Enabled;
    hide Inv;
  }

  lemma SweeperSettled(l: LState, t: ThreadId)
    requires At(l, t).SweepMapWait?
    ensures PcOf(Abs(l).pcs, t) == SweepMap(At(l, t).taken)
  {
    PcsAfterMove(l.points, t, Resting);
    hide SectionPcs;
    hide SettledObjects;
    hide Writer;
  }

  /** What other threads can do to a sweep under the locks, step by step, is what they
      can do to it section by section, unless one is stuck. */
  lemma HitsAlike(l: LState, t: ThreadId)
    requires LReachable(l) && At(l, t).SweepMapWait?
    ensures LCanHit(l, t) <==> SectionsCanHit(Abs(l), t) && !Stuck(l)
  {
    IsolatedExactlyUnderLocks(l, t);
    LocksRefineSections(l);
    ReachableInv(Abs(l));
    SweeperSettled(l, t);
    SectionsHitExactly(Abs(l), t);
    hide LReachable;
    hide LCanHit;
    hide SectionsCanHit;
    hide Abs;
    hide Inv;
    hide LGood;
    hide Stuck;
  }

  /** Isolation fails under the locks too: some lock-level run leaves both locks free
      and thread `t` about to sweep, and the steps of `t` alone then remove from the
      table a live handle that another thread allocated. */
  lemma SweepCanHitUnderLocks()
    ensures exists l, t, own, h :: LReachable(l) && LocksFree(l) && At(l, t).SweepMapWait? && RemovesForeign(l, t, own, h)
  {
    SweepCanHitAnotherThread();
    var s, t :| Reachable(s) && Hits(s, t);
    var l := Realised(s);
    assert Between(At(l, t));
    PcOfPoint(l, t);
    hide Reachable;
    hide Abs;
    hide LGood;
    hide LReachable;
    var own, h := HitHappens(l, t);
    hide RemovesForeign;
    hide Hits;
  }
}
