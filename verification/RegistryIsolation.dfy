/** When closing all handles of a thread leaves other threads' handles alone. */
module RegistryIsolation {
  import opened Options
  import opened HandleIds
  import opened HandleTables
  import opened Registry

  // ----- Runs in which every handle is closed by the thread that allocated it -----

  predicate OwnClose(s: State, step: Step) {
    step.CloseRemove? && step.h in s.issuer ==> s.issuer[step.h] == step.t
  }

  ghost predicate OwnCloses(s: State, run: seq<Step>)
    requires ValidRun(s, run)
    decreases run
  {
    run == [] || (OwnClose(s, run[0]) && OwnCloses(Next(s, run[0]), run[1..]))
  }

  /** Every thread tracks exactly its live handles. */
  ghost predicate Exact(s: State) {
    forall t, h :: h in Tracked(s, t) <==> h in s.issuer && s.issuer[h] == t
  }

  /** The registry as one map from handles to the allocating thread and the object. */
  type SimpleMap = map<Handle, (ThreadId, MsiObject)>

  function Simple(s: State): SimpleMap
    requires s.issuer.Keys == s.tables.objects.Keys
  {
    map h | h in s.issuer :: (s.issuer[h], s.tables.objects[h])
  }

  /** What each critical section does to the single map and what its caller learns. */
  predicate SimpleStep(m: SimpleMap, step: Step, seen: Outcome, m': SimpleMap) {
    match step
    case AllocInsert(t, obj) =>
      seen.Issued? && seen.h != NULL_HANDLE && seen.h !in m && m' == m[seen.h := (t, obj)]
    case CloseRemove(_, h) => seen == Closed(h in m) && m' == m - {h}
    case SweepRemove(t) => seen == Silent && m' == (map h | h in m && m[h].0 != t :: m[h])
    case Read(_, h) => seen == Found(if h in m then Some(m[h].1) else None) && m' == m
    case Write(_, h, obj) =>
      if h in m then seen == Found(Some(m[h].1)) && m' == m[h := (m[h].0, obj)]
      else seen == Found(None) && m' == m
    case WritePair(_, hm, hr, obj) =>
      if hm != hr && hm in m && hr in m then
        seen == FoundPair(Some((m[hm].1, m[hr].1))) && m' == m[hm := (m[hm].0, obj)]
      else seen == FoundPair(None) && m' == m
    case _ => seen == Silent && m' == m
  }

  lemma ExactAfterSweep(s: State, step: Step, t: ThreadId, h: Handle)
    requires Inv(s) && Exact(s) && Enabled(s, step) && step.SweepRemove?
    ensures h in Tracked(Next(s, step), t) <==> h in Next(s, step).issuer && Next(s, step).issuer[h] == t
  {
    TrackedFollowsOwnSteps(s, step, t);
    assert h in Tracked(s, step.t) <==> h in PcOf(s.pcs, step.t).taken;
    hide Tracked;
  }

  lemma IssuerAfterInsert(s: State, step: Step)
    requires Inv(s) && Enabled(s, step) && step.AllocInsert?
    ensures s.tables.FreshHandle() !in s.issuer
    ensures Next(s, step).issuer == s.issuer[s.tables.FreshHandle() := step.t]
  {
    LiveSetFootprint(s, step);
    hide Tracked;
  }

  lemma TracksItsOwn(s: State, t: ThreadId, h: Handle)
    requires Exact(s)
    ensures h in Tracked(s, t) <==> h in s.issuer && s.issuer[h] == t
  {
    hide Tracked;
  }

  lemma ExactAfterInsert(s: State, step: Step, t: ThreadId, h: Handle)
    requires Inv(s) && Exact(s) && Enabled(s, step) && step.AllocInsert?
    ensures h in Tracked(Next(s, step), t) <==> h in Next(s, step).issuer && Next(s, step).issuer[h] == t
  {
    hide *;
    TrackedFollowsOwnSteps(s, step, t);
    IssuerAfterInsert(s, step);
    TracksItsOwn(s, t, h);
  }

  lemma ExactAfterClose(s: State, step: Step, t: ThreadId, h: Handle)
    requires Inv(s) && Exact(s) && Enabled(s, step) && OwnClose(s, step) && step.CloseRemove?
    ensures h in Tracked(Next(s, step), t) <==> h in Next(s, step).issuer && Next(s, step).issuer[h] == t
  {
    TrackedFollowsOwnSteps(s, step, t);
    assert h in Tracked(s, t) <==> h in s.issuer && s.issuer[h] == t;
    assert s.issuer.Keys == s.tables.objects.Keys;
    hide Tracked;
    hide Exact;
    hide Inv;
    hide Advance;
    hide AllTaken;
  }

  lemma ExactAfterStep(s: State, step: Step, t: ThreadId, h: Handle)
    requires Inv(s) && Exact(s) && Enabled(s, step) && OwnClose(s, step)
    ensures h in Tracked(Next(s, step), t) <==> h in Next(s, step).issuer && Next(s, step).issuer[h] == t
  {
    if step.SweepRemove? {
      ExactAfterSweep(s, step, t, h);
      hide Next;
    } else if step.AllocInsert? {
      ExactAfterInsert(s, step, t, h);
      hide Next;
    } else if step.CloseRemove? {
      ExactAfterClose(s, step, t, h);
      hide Next;
    } else {
      TrackedFollowsOwnSteps(s, step, t);
      assert h in Tracked(s, t) <==> h in s.issuer && s.issuer[h] == t;
      assert Next(s, step).issuer == s.issuer;
      hide Next;
    }
    hide Tracked;
    hide Exact;
    hide Inv;
  }

  lemma StepKeepsExact(s: State, step: Step)
    requires Inv(s) && Exact(s) && Enabled(s, step) && OwnClose(s, step)
    ensures Exact(Next(s, step))
  {
    var s' := Next(s, step);
    forall t, h ensures h in Tracked(s', t) <==> h in s'.issuer && s'.issuer[h] == t {
      ExactAfterStep(s, step, t, h);
    }
    hide Next;
    hide Tracked;
    hide Inv;
  }

  lemma {:induction false} RunKeepsExact(s: State, run: seq<Step>)
    requires Inv(s) && Exact(s) && ValidRun(s, run) && OwnCloses(s, run)
    ensures Exact(Exec(s, run))
    decreases run
  {
    hide Exact;
    if run != [] {
      StepKeepsInv(s, run[0]);
      StepKeepsExact(s, run[0]);
      RunKeepsExact(Next(s, run[0]), run[1..]);
    }
  }

  ghost predicate ReachableByOwnCloses(s: State) {
    exists run :: ValidRun(INIT, run) && OwnCloses(INIT, run) && Exec(INIT, run) == s
  }

  lemma OwnClosesKeepExact(s: State)
    requires ReachableByOwnCloses(s)
    ensures Inv(s) && Exact(s)
  {
    InitIsGood();
    hide Next;
    hide Enabled;
    hide Inv;
    var run :| ValidRun(INIT, run) && OwnCloses(INIT, run) && Exec(INIT, run) == s;
    RunKeepsInv(INIT, run);
    RunKeepsExact(INIT, run);
  }

  lemma ExactWhenIdle(s: State, t: ThreadId)
    requires Exact(s) && PcOf(s.pcs, t) == Idle
    ensures Owned(s.tables.owners, t) == LiveOf(s, t)
  {
    assert forall h :: h in Tracked(s, t) <==> h in LiveOf(s, t);
  }

  /** If handles are closed only by their allocating threads, an idle thread's
      recorded handles are exactly its live handles. */
  lemma OwnedIsLiveWhenIdle(s: State, t: ThreadId)
    requires ReachableByOwnCloses(s) && PcOf(s.pcs, t) == Idle
    ensures Owned(s.tables.owners, t) == LiveOf(s, t)
  {
    OwnClosesKeepExact(s);
    ExactWhenIdle(s, t);
    hide Exact;
    hide Inv;
  }

  lemma SweepDropsExactlyOwnHandles(s: State, t: ThreadId)
    requires Inv(s) && Exact(s) && Enabled(s, SweepRemove(t))
    requires Inv(Next(s, SweepRemove(t)))
    ensures SimpleStep(Simple(s), SweepRemove(t), Seen(s, SweepRemove(t)), Simple(Next(s, SweepRemove(t))))
  {
    var taken := PcOf(s.pcs, t).taken;
    forall h | h in s.issuer ensures h in taken <==> s.issuer[h] == t {
      assert h in Tracked(s, t) <==> h in taken;
    }
  }

  lemma SimpleInsert(s: State, step: Step)
    requires s.issuer.Keys == s.tables.objects.Keys && Enabled(s, step) && step.AllocInsert?
    requires Next(s, step).issuer.Keys == Next(s, step).tables.objects.Keys
    ensures SimpleStep(Simple(s), step, Seen(s, step), Simple(Next(s, step)))
  {
    var h := s.tables.FreshHandle();
    assert h != NULL_HANDLE && h !in Simple(s);
    assert Simple(Next(s, step)) == Simple(s)[h := (step.t, step.obj)];
  }

  lemma SimpleOtherSteps(s: State, step: Step)
    requires s.issuer.Keys == s.tables.objects.Keys && Enabled(s, step) && !step.SweepRemove? && !step.AllocInsert?
    requires Next(s, step).issuer.Keys == Next(s, step).tables.objects.Keys
    ensures SimpleStep(Simple(s), step, Seen(s, step), Simple(Next(s, step)))
  {
  }

  lemma TwoTablesStep(s: State, step: Step)
    requires Inv(s) && Exact(s) && Enabled(s, step)
    ensures Inv(Next(s, step))
    ensures SimpleStep(Simple(s), step, Seen(s, step), Simple(Next(s, step)))
  {
    StepKeepsInv(s, step);
    hide Next;
    hide Enabled;
    hide Seen;
    hide Simple;
    hide SimpleStep;
    if step.SweepRemove? {
      SweepDropsExactlyOwnHandles(s, step.t);
    } else if step.AllocInsert? {
      SimpleInsert(s, step);
    } else {
      SimpleOtherSteps(s, step);
    }
  }

  /** If handles are closed only by their allocating threads, the two tables under
      their two locks refine one map: every critical section is one step on that
      map or none, finishing a sweep drops exactly the sweeper's entries, and what
      the caller learns is what that map holds. */
  lemma TwoTablesRefineOneMap(s: State, step: Step)
    requires ReachableByOwnCloses(s) && Enabled(s, step)
    ensures Inv(s) && Inv(Next(s, step))
    ensures SimpleStep(Simple(s), step, Seen(s, step), Simple(Next(s, step)))
  {
    OwnClosesKeepExact(s);
    TwoTablesStep(s, step);
  }

  ghost function Trace(s: State, run: seq<Step>): seq<Outcome>
    requires ValidRun(s, run)
    decreases run
  {
    if run == [] then [] else [Seen(s, run[0])] + Trace(Next(s, run[0]), run[1..])
  }

  /** The single map can go from `m` to `end` by the steps of the run with these outcomes. */
  ghost predicate SimpleTrace(m: SimpleMap, run: seq<Step>, seen: seq<Outcome>, end: SimpleMap)
    decreases run
  {
    if run == [] then seen == [] && end == m
    else seen != [] && exists m' :: SimpleStep(m, run[0], seen[0], m') && SimpleTrace(m', run[1..], seen[1..], end)
  }

  lemma {:induction false} RunRefinesOneMap(s: State, run: seq<Step>)
    requires Inv(s) && Exact(s) && ValidRun(s, run) && OwnCloses(s, run)
    ensures Inv(Exec(s, run)) && SimpleTrace(Simple(s), run, Trace(s, run), Simple(Exec(s, run)))
    decreases run
  {
    hide Next;
    hide Enabled;
    hide Seen;
    hide Simple;
    hide SimpleStep;
    hide Exact;
    hide Tracked;
    if run != [] {
      TwoTablesStep(s, run[0]);
      StepKeepsExact(s, run[0]);
      RunRefinesOneMap(Next(s, run[0]), run[1..]);
      var m' := Simple(Next(s, run[0]));
      assert Trace(s, run)[1..] == Trace(Next(s, run[0]), run[1..]);
      assert SimpleStep(Simple(s), run[0], Trace(s, run)[0], m');
    }
  }

  /** If handles are closed only by their allocating threads, all that callers learn in
      any run, in any interleaving, they would have learnt from one map. */
  lemma CallersSeeOneMap(run: seq<Step>)
    requires ValidRun(INIT, run) && OwnCloses(INIT, run)
    ensures Inv(Exec(INIT, run)) && SimpleTrace(map[], run, Trace(INIT, run), Simple(Exec(INIT, run)))
  {
    InitIsGood();
    assert Exact(INIT) && Simple(INIT) == map[];
    RunRefinesOneMap(INIT, run);
  }

  /** If handles are closed only by their allocating threads, closing all handles
      is isolated, however often the counter has wrapped. */
  lemma SweepIsIsolatedUnderOwnCloses(s: State, t: ThreadId, h: Handle)
    requires ReachableByOwnCloses(s) && Enabled(s, SweepRemove(t)) && h in s.tables.objects
    ensures h in s.issuer
    ensures h in Next(s, SweepRemove(t)).tables.objects <==> s.issuer[h] != t
  {
    OwnClosesKeepExact(s);
    assert h in Tracked(s, t) <==> h in PcOf(s.pcs, t).taken;
  }

  // ----- Exactly when a sweep can hit another thread's handle -----

  /** The sweep thread `t` is about to finish would remove another thread's handle. */
  ghost predicate Hits(s: State, t: ThreadId) {
    PcOf(s.pcs, t).SweepMap? && exists h :: h in PcOf(s.pcs, t).taken && h in s.issuer && s.issuer[h] != t
  }

  ghost predicate ByOthers(t: ThreadId, run: seq<Step>) {
    forall k | 0 <= k < |run| :: run[k].t != t
  }

  /** No step of the run takes a live handle away from `t`. */
  ghost predicate Spares(s: State, t: ThreadId, run: seq<Step>)
    requires ValidRun(s, run)
    decreases run
  {
    run == [] || (LiveOf(s, t) <= LiveOf(Next(s, run[0]), t) && Spares(Next(s, run[0]), t, run[1..]))
  }

  lemma OthersStepsAllocateElsewhere(s: State, step: Step, t: ThreadId)
    requires Enabled(s, step) && step.t != t
    ensures LiveOf(Next(s, step), t) <= LiveOf(s, t)
    ensures PcOf(Next(s, step).pcs, t) == PcOf(s.pcs, t)
  {
    FrameOfStep(s, step, t);
  }

  lemma {:induction false} SparedHandlesStayLive(s: State, t: ThreadId, run: seq<Step>)
    requires ValidRun(s, run) && ByOthers(t, run) && Spares(s, t, run)
    ensures LiveOf(Exec(s, run), t) == LiveOf(s, t)
    ensures PcOf(Exec(s, run).pcs, t) == PcOf(s.pcs, t)
    decreases run
  {
    hide Enabled;
    hide LiveOf;
    if run != [] {
      OthersStepsAllocateElsewhere(s, run[0], t);
      assert forall k | 0 <= k < |run[1..]| :: run[1..][k] == run[k + 1];
      SparedHandlesStayLive(Next(s, run[0]), t, run[1..]);
      hide Next;
    }
  }

  lemma {:induction false} PositionKept(s: State, t: ThreadId, run: seq<Step>)
    requires ValidRun(s, run) && ByOthers(t, run)
    ensures PcOf(Exec(s, run).pcs, t) == PcOf(s.pcs, t)
    decreases run
  {
    hide Enabled;
    if run != [] {
      OthersStepsAllocateElsewhere(s, run[0], t);
      assert forall k | 0 <= k < |run[1..]| :: run[1..][k] == run[k + 1];
      PositionKept(Next(s, run[0]), t, run[1..]);
      hide Next;
    }
  }

  // ----- Driving the counter round to a chosen free id -----

  /** Thread `u` acts alone and takes nothing from anyone else. */
  ghost predicate Solo(s: State, u: ThreadId, run: seq<Step>)
    requires ValidRun(s, run)
    decreases run
  {
    run == [] || (run[0].t == u && OwnClose(s, run[0]) && !run[0].SweepRemove? && Solo(Next(s, run[0]), u, run[1..]))
  }

  lemma SoloStepSpares(s: State, step: Step, u: ThreadId, t: ThreadId)
    requires Enabled(s, step) && step.t == u != t && OwnClose(s, step) && !step.SweepRemove?
    requires s.issuer.Keys == s.tables.objects.Keys
    ensures LiveOf(s, t) <= LiveOf(Next(s, step), t)
  {
  }

  lemma {:induction false} SoloSpares(s: State, u: ThreadId, t: ThreadId, run: seq<Step>)
    requires Inv(s) && ValidRun(s, run) && Solo(s, u, run) && u != t
    ensures Spares(s, t, run) && ByOthers(t, run)
    decreases run
  {
    if run != [] {
      StepKeepsInv(s, run[0]);
      SoloStepSpares(s, run[0], u, t);
      SoloSpares(Next(s, run[0]), u, t, run[1..]);
      assert forall k | 1 <= k < |run| :: run[k] == run[1..][k - 1];
    }
    hide Next;
    hide Enabled;
    hide LiveOf;
  }

  /** One allocation by an idle thread. */
  function AfterAlloc(s: State, u: ThreadId, obj: MsiObject): State
    requires PcOf(s.pcs, u) == Idle && !s.tables.Full()
  {
    Next(Next(s, AllocInsert(u, obj)), AllocEnlist(u))
  }

  /** One close of its own handle by an idle thread. */
  function AfterClose(s: State, u: ThreadId, h: Handle): State
    requires PcOf(s.pcs, u) == Idle && h in s.tables.objects
  {
    Next(Next(s, CloseRemove(u, h)), CloseDelist(u))
  }

  lemma AllocFrame(s: State, u: ThreadId, obj: MsiObject)
    requires PcOf(s.pcs, u) == Idle && !s.tables.Full()
    ensures var s' := AfterAlloc(s, u, obj); var h := s.tables.FreshHandle();
            && PcOf(s'.pcs, u) == Idle
            && s'.tables.objects.Keys == s.tables.objects.Keys + {h}
            && s'.issuer == s.issuer[h := u]
            && s'.tables.nextId == Advance(s.tables.nextId, s.tables.Draws())
  {
    hide Advance;
    hide AllTaken;
  }

  lemma AllocFacts(s: State, u: ThreadId, obj: MsiObject)
    requires Inv(s) && PcOf(s.pcs, u) == Idle && !s.tables.Full()
    ensures Enabled(s, AllocInsert(u, obj)) && Enabled(Next(s, AllocInsert(u, obj)), AllocEnlist(u))
    ensures var s' := AfterAlloc(s, u, obj); var h := s.tables.FreshHandle();
            && Inv(s') && PcOf(s'.pcs, u) == Idle
            && s'.tables.objects.Keys == s.tables.objects.Keys + {h}
            && s'.issuer == s.issuer[h := u]
            && s'.tables.nextId == Advance(s.tables.nextId, s.tables.Draws())
  {
    hide Inv;
    AllocFrame(s, u, obj);
    StepKeepsInv(s, AllocInsert(u, obj));
    StepKeepsInv(Next(s, AllocInsert(u, obj)), AllocEnlist(u));
    hide Next;
  }

  lemma CloseFacts(s: State, u: ThreadId, h: Handle)
    requires Inv(s) && PcOf(s.pcs, u) == Idle && h in s.tables.objects
    ensures Enabled(s, CloseRemove(u, h)) && Enabled(Next(s, CloseRemove(u, h)), CloseDelist(u))
    ensures var s' := AfterClose(s, u, h);
            && Inv(s') && PcOf(s'.pcs, u) == Idle
            && s'.tables.objects.Keys == s.tables.objects.Keys - {h}
            && s'.issuer == s.issuer - {h}
            && s'.tables.nextId == s.tables.nextId
  {
    StepKeepsInv(s, CloseRemove(u, h));
    StepKeepsInv(Next(s, CloseRemove(u, h)), CloseDelist(u));
  }

  lemma RunOfOne(s: State, a: Step, rest: seq<Step>)
    requires Enabled(s, a) && ValidRun(Next(s, a), rest)
    ensures ValidRun(s, [a] + rest) && Exec(s, [a] + rest) == Exec(Next(s, a), rest)
    ensures forall u :: Solo(s, u, [a] + rest) <==>
              a.t == u && OwnClose(s, a) && !a.SweepRemove? && Solo(Next(s, a), u, rest)
  {
    hide Next;
    hide Enabled;
    var run := [a] + rest;
    assert run[0] == a && run[1..] == rest;
  }

  lemma AllocThen(s: State, u: ThreadId, obj: MsiObject, rest: seq<Step>)
    requires Inv(s) && PcOf(s.pcs, u) == Idle && !s.tables.Full()
    requires ValidRun(AfterAlloc(s, u, obj), rest) && Solo(AfterAlloc(s, u, obj), u, rest)
    ensures var run := [AllocInsert(u, obj)] + ([AllocEnlist(u)] + rest);
            ValidRun(s, run) && Solo(s, u, run) && Exec(s, run) == Exec(AfterAlloc(s, u, obj), rest)
  {
    AllocFacts(s, u, obj);
    hide Next;
    hide Enabled;
    RunOfOne(Next(s, AllocInsert(u, obj)), AllocEnlist(u), rest);
    RunOfOne(s, AllocInsert(u, obj), [AllocEnlist(u)] + rest);
  }

  lemma CloseThen(s: State, u: ThreadId, h: Handle, rest: seq<Step>)
    requires Inv(s) && PcOf(s.pcs, u) == Idle && h in s.issuer && s.issuer[h] == u
    requires ValidRun(AfterClose(s, u, h), rest) && Solo(AfterClose(s, u, h), u, rest)
    ensures var run := [CloseRemove(u, h)] + ([CloseDelist(u)] + rest);
            ValidRun(s, run) && Solo(s, u, run) && Exec(s, run) == Exec(AfterClose(s, u, h), rest)
  {
    CloseFacts(s, u, h);
    hide Next;
    hide Enabled;
    RunOfOne(Next(s, CloseRemove(u, h)), CloseDelist(u), rest);
    RunOfOne(s, CloseRemove(u, h), [CloseDelist(u)] + rest);
  }

  /** An allocation by an idle thread, undone by closing the handle again. */
  lemma RoundFacts(s: State, u: ThreadId, obj: MsiObject)
    requires Inv(s) && PcOf(s.pcs, u) == Idle && !s.tables.Full()
    ensures var s1 := AfterAlloc(s, u, obj); var got := s.tables.FreshHandle();
            && Inv(s1) && PcOf(s1.pcs, u) == Idle && got in s1.issuer && s1.issuer[got] == u
            && got in s1.tables.objects
            && var s2 := AfterClose(s1, u, got);
            && Inv(s2) && PcOf(s2.pcs, u) == Idle
            && s2.tables.objects.Keys == s.tables.objects.Keys
            && s2.tables.nextId == Advance(s.tables.nextId, s.tables.Draws())
  {
    AllocFacts(s, u, obj);
    hide AfterAlloc;
    hide AfterClose;
    hide Inv;
    hide Advance;
    hide AllTaken;
    var got := s.tables.FreshHandle();
    assert got !in s.tables.objects;
    var s1 := AfterAlloc(s, u, obj);
    CloseFacts(s1, u, got);
    assert (s.tables.objects.Keys + {got}) - {got} == s.tables.objects.Keys;
  }

  /** After a round that was not issued `h`, the counter is closer to `h`, still free. */
  lemma RoundGetsCloser(s: State, u: ThreadId, obj: MsiObject, h: Handle)
    requires Inv(s) && PcOf(s.pcs, u) == Idle && !s.tables.Full() && !Taken(s.tables.objects.Keys, h)
    requires s.tables.FreshHandle() != h
    ensures var s1 := AfterAlloc(s, u, obj); var got := s.tables.FreshHandle();
            && Inv(s1) && PcOf(s1.pcs, u) == Idle && got in s1.issuer && s1.issuer[got] == u
            && got in s1.tables.objects
            && var s2 := AfterClose(s1, u, got);
            && Inv(s2) && PcOf(s2.pcs, u) == Idle && !Taken(s2.tables.objects.Keys, h)
            && Distance(s2.tables.nextId, h) < Distance(s.tables.nextId, h)
  {
    RoundFacts(s, u, obj);
    SearchStopsAtOrBefore(s.tables.objects.Keys, s.tables.nextId, h);
    hide AfterAlloc;
    hide AfterClose;
    hide Inv;
    hide Distance;
    hide Advance;
    hide AllTaken;
  }

  /** From any state an idle thread can, alone and touching only its own handles,
      make the registry issue it any nonnull id that is free: it allocates and
      closes until the counter has come round to that id. */
  lemma {:induction false} DriveTo(s: State, u: ThreadId, h: Handle) returns (run: seq<Step>)
    requires Inv(s) && PcOf(s.pcs, u) == Idle && !Taken(s.tables.objects.Keys, h)
    ensures ValidRun(s, run) && Solo(s, u, run)
    ensures h in Exec(s, run).issuer && Exec(s, run).issuer[h] == u
    decreases Distance(s.tables.nextId, h)
  {
    var obj := Record(0);
    assert NULL_HANDLE !in s.tables.objects.Keys;
    RoomForOneMore(s.tables.objects.Keys, h);
    hide AfterAlloc;
    hide AfterClose;
    hide Next;
    hide Enabled;
    hide Distance;
    hide Advance;
    hide AllTaken;
    hide Inv;
    hide Taken;
    hide LiveOf;
    var s1 := AfterAlloc(s, u, obj);
    var got := s.tables.FreshHandle();
    var rest: seq<Step> := [];
    if got == h {
      AllocFacts(s, u, obj);
    } else {
      RoundGetsCloser(s, u, obj, h);
      var tail := DriveTo(AfterClose(s1, u, got), u, h);
      CloseThen(s1, u, got, tail);
      rest := [CloseRemove(u, got)] + ([CloseDelist(u)] + tail);
    }
    AllocThen(s, u, obj, rest);
    run := [AllocInsert(u, obj)] + ([AllocEnlist(u)] + rest);
  }

  lemma SomeThreadIsIdle(s: State, t: ThreadId) returns (u: ThreadId)
    ensures u != t && PcOf(s.pcs, u) == Idle
  {
    u := t + 1;
    var busy := s.pcs.Keys;
    while u in s.pcs
      invariant u > t
      invariant busy <= s.pcs.Keys && forall v | v in s.pcs && v >= u :: v in busy
      decreases |busy|
    {
      busy := busy - {u};
      u := u + 1;
    }
  }

  /** Taking the recorded handles leaves the thread's accounts as they were. */
  lemma TakeFacts(s: State, t: ThreadId)
    requires Inv(s) && PcOf(s.pcs, t) == Idle
    ensures Enabled(s, SweepTake(t))
    ensures var s' := Next(s, SweepTake(t));
            && Inv(s') && PcOf(s'.pcs, t) == SweepMap(Owned(s.tables.owners, t))
            && s'.issuer == s.issuer && s'.tables.objects == s.tables.objects
            && NULL_HANDLE !in s'.tables.objects
  {
    StepKeepsInv(s, SweepTake(t));
  }

  ghost predicate AllByThread(u: ThreadId, run: seq<Step>) {
    forall k | 0 <= k < |run| :: run[k].t == u
  }

  lemma {:induction false} SoloIsBy(s: State, u: ThreadId, run: seq<Step>)
    requires ValidRun(s, run) && Solo(s, u, run)
    ensures AllByThread(u, run)
    decreases run
  {
    hide Next;
    hide Enabled;
    if run != [] {
      SoloIsBy(Next(s, run[0]), u, run[1..]);
      assert forall k | 1 <= k < |run| :: run[k] == run[1..][k - 1];
    }
  }

  /** A recorded nonnull handle that is not the sweeper's can be made live for another
      thread, any that is idle, before the sweep finishes. */
  lemma StaleEntryCanHit(s: State, t: ThreadId, h: Handle, u: ThreadId) returns (run: seq<Step>)
    requires Inv(s) && PcOf(s.pcs, t).SweepMap? && h in PcOf(s.pcs, t).taken
    requires h != NULL_HANDLE && !(h in s.issuer && s.issuer[h] == t)
    requires u != t && PcOf(s.pcs, u) == Idle
    ensures ValidRun(s, run) && ByOthers(t, run) && AllByThread(u, run) && Spares(s, t, run) && Hits(Exec(s, run), t)
  {
    if h in s.issuer {
      run := [];
    } else {
      run := DriveTo(s, u, h);
      SoloSpares(s, u, t, run);
      SoloIsBy(s, u, run);
      PositionKept(s, t, run);
    }
    hide Next;
    hide Enabled;
  }

  /** While `t` sits between the halves of closing all handles, other threads can
      bring about a state in which finishing it hits a handle that is not `t`'s. */
  ghost predicate CanHit(s: State, t: ThreadId)
    requires PcOf(s.pcs, t) == Idle
  {
    var taken := Next(s, SweepTake(t));
    exists run :: ValidRun(taken, run) && ByOthers(t, run) && Hits(Exec(taken, run), t)
  }

  /** The same, by steps that take no live handle away from `t`. */
  ghost predicate CanHitSparing(s: State, t: ThreadId)
    requires PcOf(s.pcs, t) == Idle
  {
    var taken := Next(s, SweepTake(t));
    exists run :: ValidRun(taken, run) && ByOthers(t, run) && Spares(taken, t, run) && Hits(Exec(taken, run), t)
  }

  lemma SparedSweepDoesNotHit(s: State, t: ThreadId, run: seq<Step>)
    requires Inv(s) && PcOf(s.pcs, t).SweepMap? && PcOf(s.pcs, t).taken == LiveOf(s, t)
    requires ValidRun(s, run) && ByOthers(t, run) && Spares(s, t, run)
    ensures !Hits(Exec(s, run), t)
  {
    SparedHandlesStayLive(s, t, run);
    var end := Exec(s, run);
    assert forall h :: h in LiveOf(end, t) <==> h in LiveOf(s, t);
    hide Next;
    hide Enabled;
    hide Inv;
  }

  lemma LiveIsOwnedWhenIdle(s: State, t: ThreadId)
    requires Inv(s) && PcOf(s.pcs, t) == Idle
    ensures LiveOf(s, t) <= Owned(s.tables.owners, t)
    ensures NULL_HANDLE !in Owned(s.tables.owners, t)
  {
    assert Tracked(s, t) == Owned(s.tables.owners, t);
  }

  /** Exactly when closing all handles is isolated, provided nobody takes a handle
      away from the closing thread meanwhile: if and only if, at the call, the
      handles recorded for the thread are exactly its live handles. A single stale
      entry lets another thread lose a handle. */
  lemma IsolatedExactlyWithoutStaleEntries(s: State, t: ThreadId)
    requires Reachable(s) && PcOf(s.pcs, t) == Idle
    ensures !CanHitSparing(s, t) <==> Owned(s.tables.owners, t) == LiveOf(s, t)
  {
    ReachableInv(s);
    TakeFacts(s, t);
    var s1 := Next(s, SweepTake(t));
    hide Enabled;
    hide Reachable;
    var owned := Owned(s.tables.owners, t);
    assert LiveOf(s1, t) == LiveOf(s, t);
    LiveIsOwnedWhenIdle(s, t);
    hide Next;
    hide Inv;
    if owned == LiveOf(s, t) {
      forall run | ValidRun(s1, run) && ByOthers(t, run) && Spares(s1, t, run) ensures !Hits(Exec(s1, run), t) {
        SparedSweepDoesNotHit(s1, t, run);
      }
    } else {
      var h :| h in owned && h !in LiveOf(s, t);
      var u := SomeThreadIsIdle(s1, t);
      var run := StaleEntryCanHit(s1, t, h, u);
    }
  }

  lemma OthersCloseKeepsPosition(s: State, u: ThreadId, t: ThreadId, h: Handle)
    requires PcOf(s.pcs, u) == Idle && h in s.tables.objects && u != t
    ensures PcOf(AfterClose(s, u, h).pcs, t) == PcOf(s.pcs, t)
  {
  }

  /** Another thread, any that is idle, can close a taken handle and have it issued again
      for itself. */
  lemma TakenHandleCanBeHit(s: State, t: ThreadId, h: Handle, u: ThreadId) returns (run: seq<Step>)
    requires Inv(s) && PcOf(s.pcs, t).SweepMap? && h in PcOf(s.pcs, t).taken && h != NULL_HANDLE
    requires u != t && PcOf(s.pcs, u) == Idle
    ensures ValidRun(s, run) && ByOthers(t, run) && AllByThread(u, run) && Hits(Exec(s, run), t)
  {
    hide Next;
    hide Enabled;
    hide Tracked;
    hide Hits;
    if h in s.issuer && s.issuer[h] == t {
      CloseFacts(s, u, h);
      OthersCloseKeepsPosition(s, u, t, h);
      var s' := AfterClose(s, u, h);
      var rest := StaleEntryCanHit(s', t, h, u);
      RunOfOne(Next(s, CloseRemove(u, h)), CloseDelist(u), rest);
      RunOfOne(s, CloseRemove(u, h), [CloseDelist(u)] + rest);
      run := [CloseRemove(u, h)] + ([CloseDelist(u)] + rest);
    } else {
      run := StaleEntryCanHit(s, t, h, u);
    }
  }

  /** Exactly when closing all handles is isolated whatever the other threads do:
      if and only if no handle is recorded for the calling thread at the call. */
  lemma IsolatedExactlyWhenNothingOwned(s: State, t: ThreadId)
    requires Reachable(s) && PcOf(s.pcs, t) == Idle
    ensures !CanHit(s, t) <==> Owned(s.tables.owners, t) == {}
  {
    ReachableInv(s);
    TakeFacts(s, t);
    var s1 := Next(s, SweepTake(t));
    LiveIsOwnedWhenIdle(s, t);
    hide Next;
    hide Enabled;
    hide Inv;
    hide Reachable;
    if Owned(s.tables.owners, t) == {} {
      forall run | ValidRun(s1, run) && ByOthers(t, run) ensures !Hits(Exec(s1, run), t) {
        PositionKept(s1, t, run);
      }
    } else {
      var h :| h in Owned(s.tables.owners, t);
      var u := SomeThreadIsIdle(s1, t);
      var run := TakenHandleCanBeHit(s1, t, h, u);
    }
  }

  lemma ReachAfterAlloc(t: ThreadId, obj: MsiObject)
    requires PcOf(INIT.pcs, t) == Idle && !INIT.tables.Full()
    ensures Reachable(AfterAlloc(INIT, t, obj))
  {
    InitIsGood();
    AllocFacts(INIT, t, obj);
    hide Next;
    hide Enabled;
    RunOfOne(Next(INIT, AllocInsert(t, obj)), AllocEnlist(t), []);
    RunOfOne(INIT, AllocInsert(t, obj), [AllocEnlist(t)] + []);
  }

  /** Isolation is not unconditional: some interleaving from the empty registry
      reaches a state in which closing all handles of one thread removes a live
      handle of another. */
  lemma SweepCanHitAnotherThread()
    ensures exists s, t :: Reachable(s) && Hits(s, t)
  {
    InitIsGood();
    var t: ThreadId := 0;
    var run: seq<Step> := [];
    assert ValidRun(INIT, run) && Exec(INIT, run) == INIT;
    AllocFacts(INIT, t, Record(0));
    var h := INIT.tables.FreshHandle();
    var s := AfterAlloc(INIT, t, Record(0));
    TakeFacts(s, t);
    LiveIsOwnedWhenIdle(s, t);
    hide Next;
    hide Enabled;
    hide Inv;
    hide AfterAlloc;
    assert h in LiveOf(s, t);
    var s1 := Next(s, SweepTake(t));
    var u := SomeThreadIsIdle(s1, t);
    var hit := TakenHandleCanBeHit(s1, t, h, u);
    RunOfOne(s, SweepTake(t), hit);
    ReachAfterAlloc(t, Record(0));
    ReachableExtends(s, [SweepTake(t)] + hit);
    assert Reachable(Exec(s1, hit)) && Hits(Exec(s1, hit), t);
  }
}
