/** The registry as threads share it: every operation is one or two critical
    sections, and the sections of different threads interleave freely. */
module Registry {
  import opened Options
  import opened HandleIds
  import opened HandleTables

  /** Where a thread stands between the two halves of an operation. */
  datatype Pc =
    | Idle
    | AllocOwner(h: Handle)          // object inserted, handle not yet recorded for the thread
    | CloseOwner(h: Handle)          // object removed, handle still recorded for the thread
    | SweepMap(taken: set<Handle>)   // recorded handles taken, objects not yet removed

  datatype Issue = Issue(handle: Handle, thread: ThreadId, tick: nat)

  /** The shared tables, the threads' positions (absent means idle), and history:
      `ticks` counts increments of the id counter, `issuer` names the thread that
      allocated each live handle, `log` lists all allocations in order. */
  datatype State = State(
    tables: Tables,
    pcs: map<ThreadId, Pc>,
    ticks: nat,
    issuer: map<Handle, ThreadId>,
    log: seq<Issue>)

  const INIT := State(Tables(1, map[], map[]), map[], 0, map[], [])

  datatype Step =
    | AllocInsert(t: ThreadId, obj: MsiObject)
    | AllocEnlist(t: ThreadId)
    | CloseRemove(t: ThreadId, h: Handle)
    | CloseDelist(t: ThreadId)
    | SweepTake(t: ThreadId)
    | SweepRemove(t: ThreadId)
    | Read(t: ThreadId, h: Handle)
    | Write(t: ThreadId, h: Handle, obj: MsiObject)
    | WritePair(t: ThreadId, hm: Handle, hr: Handle, obj: MsiObject)

  function PcOf(pcs: map<ThreadId, Pc>, t: ThreadId): Pc {
    if t in pcs then pcs[t] else Idle
  }

  function Goto(pcs: map<ThreadId, Pc>, t: ThreadId, pc: Pc): map<ThreadId, Pc> {
    if pc == Idle then pcs - {t} else pcs[t := pc]
  }

  predicate Enabled(s: State, step: Step) {
    var pc := PcOf(s.pcs, step.t);
    match step
    case AllocInsert(_, _) => pc == Idle && !s.tables.Full()
    case AllocEnlist(_) => pc.AllocOwner?
    case CloseRemove(_, _) => pc == Idle
    case CloseDelist(_) => pc.CloseOwner?
    case SweepTake(_) => pc == Idle
    case SweepRemove(_) => pc.SweepMap?
    case Read(_, _) => pc == Idle
    case Write(_, _, _) => pc == Idle
    case WritePair(_, _, _, _) => pc == Idle
  }

  function Next(s: State, step: Step): State
    requires Enabled(s, step)
  {
    var pc := PcOf(s.pcs, step.t);
    match step
    case AllocInsert(t, obj) =>
      var h := s.tables.FreshHandle();
      State(s.tables.Insert(obj), Goto(s.pcs, t, AllocOwner(h)), s.ticks + s.tables.Draws(),
            s.issuer[h := t], s.log + [Issue(h, t, s.ticks + s.tables.Draws() - 1)])
    case AllocEnlist(t) =>
      s.(tables := s.tables.Enlist(t, pc.h), pcs := Goto(s.pcs, t, Idle))
    case CloseRemove(t, h) =>
      if h in s.tables.objects then
        s.(tables := s.tables.Remove(h), pcs := Goto(s.pcs, t, CloseOwner(h)), issuer := s.issuer - {h})
      else s
    case CloseDelist(t) =>
      s.(tables := s.tables.Delist(t, pc.h), pcs := Goto(s.pcs, t, Idle))
    case SweepTake(t) =>
      s.(tables := s.tables.TakeOwned(t), pcs := Goto(s.pcs, t, SweepMap(Owned(s.tables.owners, t))))
    case SweepRemove(t) =>
      s.(tables := s.tables.RemoveAll(pc.taken), pcs := Goto(s.pcs, t, Idle), issuer := s.issuer - pc.taken)
    case Read(_, _) => s
    case Write(_, h, obj) => s.(tables := s.tables.Write(h, obj))
    case WritePair(_, hm, hr, obj) => s.(tables := s.tables.WritePair(hm, hr, obj))
  }

  /** What the calling thread learns: the handle it was issued, whether the handle it
      closed was live, or the objects its closure was run on, if it was run. */
  datatype Outcome =
    | Silent
    | Issued(h: Handle)
    | Closed(was: bool)
    | Found(obj: Option<MsiObject>)
    | FoundPair(objs: Option<(MsiObject, MsiObject)>)

  function Seen(s: State, step: Step): Outcome
    requires Enabled(s, step)
  {
    match step
    case AllocInsert(_, _) => Issued(s.tables.FreshHandle())
    case CloseRemove(_, h) => Closed(h in s.tables.objects)
    case Read(_, h) => Found(if h in s.tables.objects then Some(s.tables.objects[h]) else None)
    case Write(_, h, _) => Found(if h in s.tables.objects then Some(s.tables.objects[h]) else None)
    case WritePair(_, hm, hr, _) =>
      FoundPair(if s.tables.PairLive(hm, hr) then Some((s.tables.objects[hm], s.tables.objects[hr])) else None)
    case _ => Silent
  }

  ghost predicate ValidRun(s: State, run: seq<Step>)
    decreases run
  {
    run == [] || (Enabled(s, run[0]) && ValidRun(Next(s, run[0]), run[1..]))
  }

  ghost function Exec(s: State, run: seq<Step>): State
    requires ValidRun(s, run)
    decreases run
  {
    if run == [] then s else Exec(Next(s, run[0]), run[1..])
  }

  ghost predicate Reachable(s: State) {
    exists run :: ValidRun(INIT, run) && Exec(INIT, run) == s
  }

  lemma {:induction false} RunsCompose(s: State, a: seq<Step>, b: seq<Step>)
    requires ValidRun(s, a) && ValidRun(Exec(s, a), b)
    ensures ValidRun(s, a + b) && Exec(s, a + b) == Exec(Exec(s, a), b)
    decreases a
  {
    hide Next;
    hide Enabled;
    if a == [] {
      assert a + b == b;
    } else {
      RunsCompose(Next(s, a[0]), a[1..], b);
      assert (a + b)[0] == a[0] && (a + b)[1..] == a[1..] + b;
    }
  }

  lemma ReachableExtends(s: State, run: seq<Step>)
    requires Reachable(s) && ValidRun(s, run)
    ensures Reachable(Exec(s, run))
  {
    var before :| ValidRun(INIT, before) && Exec(INIT, before) == s;
    RunsCompose(INIT, before, run);
  }

  /** Run undisturbed, the two halves of an operation are the operation of the
      handle table: allocation, a successful close, closing all handles. */
  lemma HalvesMakeOperations(s: State, t: ThreadId, obj: MsiObject, h: Handle)
    requires PcOf(s.pcs, t) == Idle
    ensures !s.tables.Full() ==>
              Next(Next(s, AllocInsert(t, obj)), AllocEnlist(t)).tables
              == s.tables.Insert(obj).Enlist(t, s.tables.FreshHandle())
    ensures h in s.tables.objects ==>
              Next(Next(s, CloseRemove(t, h)), CloseDelist(t)).tables == s.tables.Remove(h).Delist(t, h)
    ensures Next(Next(s, SweepTake(t)), SweepRemove(t)).tables
            == s.tables.TakeOwned(t).RemoveAll(Owned(s.tables.owners, t))
  {
  }

  // ----- Ownership: what a thread tracks, and which live handles it must track -----

  /** The handles thread `t` still answers for: those recorded for it, adjusted
      for the operation it is in the middle of. */
  function Tracked(s: State, t: ThreadId): set<Handle> {
    var owned := Owned(s.tables.owners, t);
    match PcOf(s.pcs, t)
    case Idle => owned
    case AllocOwner(h) => owned + {h}
    case CloseOwner(h) => owned - {h}
    case SweepMap(taken) => owned + taken
  }

  function LiveOf(s: State, t: ThreadId): set<Handle> {
    set h | h in s.issuer && s.issuer[h] == t
  }

  /** A live handle of `t` is recorded for `t`, or `t` is about to record it, or
      `t` has taken it to remove it. */
  ghost predicate AccountedFor(s: State, h: Handle, t: ThreadId) {
    || h in Owned(s.tables.owners, t)
    || PcOf(s.pcs, t) == AllocOwner(h)
    || (PcOf(s.pcs, t).SweepMap? && h in PcOf(s.pcs, t).taken)
  }

  ghost predicate Inv(s: State) {
    && s.issuer.Keys == s.tables.objects.Keys
    && NULL_HANDLE !in s.issuer
    && (forall h | h in s.issuer :: h in Tracked(s, s.issuer[h]))
    && (forall t :: NULL_HANDLE !in Tracked(s, t))
    && (forall t | t in s.pcs :: s.pcs[t] != Idle)
    && (forall t | PcOf(s.pcs, t).SweepMap? :: t !in s.tables.owners)
  }

  lemma FrameOfStep(s: State, step: Step, t: ThreadId)
    requires Enabled(s, step) && t != step.t
    ensures var s' := Next(s, step);
            && PcOf(s'.pcs, t) == PcOf(s.pcs, t)
            && Owned(s'.tables.owners, t) == Owned(s.tables.owners, t)
            && (t in s'.tables.owners <==> t in s.tables.owners)
            && Tracked(s', t) == Tracked(s, t)
  {
  }

  lemma TrackedAfterOwnChange(s: State, step: Step)
    requires Inv(s) && Enabled(s, step)
    ensures step.AllocInsert? ==> Tracked(Next(s, step), step.t) == Tracked(s, step.t) + {s.tables.FreshHandle()}
    ensures step.CloseRemove? && step.h in s.tables.objects ==>
              Tracked(Next(s, step), step.t) == Tracked(s, step.t) - {step.h}
    ensures step.SweepRemove? ==> Tracked(Next(s, step), step.t) == {}
  {
  }

  lemma TrackedAfterSecondHalf(s: State, step: Step)
    requires Inv(s) && Enabled(s, step) && (step.AllocEnlist? || step.CloseDelist? || step.SweepTake?)
    ensures Tracked(Next(s, step), step.t) == Tracked(s, step.t)
  {
  }

  lemma TrackedAfterAccess(s: State, step: Step)
    requires Inv(s) && Enabled(s, step)
    requires step.Read? || step.Write? || step.WritePair? || (step.CloseRemove? && step.h !in s.tables.objects)
    ensures Tracked(Next(s, step), step.t) == Tracked(s, step.t)
  {
  }

  /** What a thread tracks changes only by its own steps: allocating adds the new
      handle, successfully closing removes the closed one, and a finished sweep
      leaves nothing. No other thread's step, and no second half, changes it. */
  lemma TrackedFollowsOwnSteps(s: State, step: Step, t: ThreadId)
    requires Inv(s) && Enabled(s, step)
    ensures var tracked := Tracked(s, t); var tracked' := Tracked(Next(s, step), t);
            if step.t != t then tracked' == tracked
            else match step
                 case AllocInsert(_, _) => tracked' == tracked + {s.tables.FreshHandle()}
                 case CloseRemove(_, h) => tracked' == if h in s.tables.objects then tracked - {h} else tracked
                 case SweepRemove(_) => tracked' == {}
                 case _ => tracked' == tracked
  {
    if step.t != t {
      FrameOfStep(s, step, t);
    } else if step.AllocInsert? || step.SweepRemove? || (step.CloseRemove? && step.h in s.tables.objects) {
      TrackedAfterOwnChange(s, step);
    } else if step.AllocEnlist? || step.CloseDelist? || step.SweepTake? {
      TrackedAfterSecondHalf(s, step);
    } else {
      TrackedAfterAccess(s, step);
    }
    hide Tracked;
    hide Next;
  }

  lemma StepKeepsAccounts(s: State, step: Step, h: Handle)
    requires Inv(s) && Enabled(s, step) && h in Next(s, step).issuer
    ensures h in Tracked(Next(s, step), Next(s, step).issuer[h])
  {
    TrackedFollowsOwnSteps(s, step, Next(s, step).issuer[h]);
    hide Tracked;
  }

  lemma StepKeepsSweepers(s: State, step: Step, t: ThreadId)
    requires Inv(s) && Enabled(s, step) && PcOf(Next(s, step).pcs, t).SweepMap?
    ensures t !in Next(s, step).tables.owners
  {
    if t != step.t {
      FrameOfStep(s, step, t);
    }
    hide Tracked;
  }

  lemma StepKeepsKeys(s: State, step: Step)
    requires s.issuer.Keys == s.tables.objects.Keys && NULL_HANDLE !in s.issuer && Enabled(s, step)
    ensures var s' := Next(s, step);
            s'.issuer.Keys == s'.tables.objects.Keys && NULL_HANDLE !in s'.issuer
  {
  }

  lemma StepKeepsPositions(s: State, step: Step)
    requires (forall t | t in s.pcs :: s.pcs[t] != Idle) && Enabled(s, step)
    ensures forall t | t in Next(s, step).pcs :: Next(s, step).pcs[t] != Idle
  {
  }

  lemma StepKeepsInv(s: State, step: Step)
    requires Inv(s) && Enabled(s, step)
    ensures Inv(Next(s, step))
  {
    var s' := Next(s, step);
    StepKeepsKeys(s, step);
    StepKeepsPositions(s, step);
    forall h | h in s'.issuer ensures h in Tracked(s', s'.issuer[h]) {
      StepKeepsAccounts(s, step, h);
    }
    forall t ensures NULL_HANDLE !in Tracked(s', t) {
      TrackedFollowsOwnSteps(s, step, t);
    }
    forall t | PcOf(s'.pcs, t).SweepMap? ensures t !in s'.tables.owners {
      StepKeepsSweepers(s, step, t);
    }
    hide Tracked;
    hide Next;
    hide Enabled;
  }

  lemma {:induction false} RunKeepsInv(s: State, run: seq<Step>)
    requires Inv(s) && ValidRun(s, run)
    ensures Inv(Exec(s, run))
    decreases run
  {
    if run != [] {
      StepKeepsInv(s, run[0]);
      RunKeepsInv(Next(s, run[0]), run[1..]);
    }
  }

  /** Each id was issued when the counter showed it, and later issues are dated later. */
  ghost predicate Dated(log: seq<Issue>, ticks: nat) {
    && (forall k | 0 <= k < |log| :: log[k].tick < ticks && log[k].handle == Advance(1, log[k].tick))
    && (forall j, k | 0 <= j < k < |log| :: log[j].tick < log[k].tick)
  }

  ghost predicate ClockInv(s: State) {
    && s.tables.nextId == Advance(1, s.ticks)
    && Dated(s.log, s.ticks)
  }

  ghost predicate CountsUp(log: seq<Issue>) {
    forall k | 0 <= k < |log| :: log[k].handle == k + 1 && log[k].tick == k
  }

  predicate IssuedTo(log: seq<Issue>, h: Handle, t: ThreadId) {
    1 <= h <= |log| && log[h - 1].thread == t
  }

  ghost predicate FirstTurnLog(s: State) {
    && |s.log| == s.ticks
    && s.tables.nextId == (1 + s.ticks) % ID_SPACE
    && CountsUp(s.log)
    && (forall h | h in s.issuer :: IssuedTo(s.log, h, s.issuer[h]))
  }

  ghost predicate FirstTurnTracked(s: State) {
    forall t, h | h in Tracked(s, t) :: IssuedTo(s.log, h, t)
  }

  /** State before the counter wraps: handles are issued as 1, 2, 3, ..., each
      once, so whoever tracks or holds a handle is the thread that was issued it. */
  ghost predicate FirstTurnInv(s: State) {
    FirstTurnLog(s) && FirstTurnTracked(s)
  }

  lemma InitIsGood()
    ensures Inv(INIT) && ClockInv(INIT) && FirstTurnInv(INIT)
  {
  }

  lemma ReachableInv(s: State)
    requires Reachable(s)
    ensures Inv(s)
  {
    InitIsGood();
    hide Next;
    hide Enabled;
    hide Inv;
    var run :| ValidRun(INIT, run) && Exec(INIT, run) == s;
    RunKeepsInv(INIT, run);
  }

  /** In every reachable state of every interleaving, each live handle is
      accounted for by the thread that allocated it, and a thread paused inside
      closing a handle is not the allocator of that handle, re-issued. */
  lemma EveryLiveHandleIsAccountedFor(s: State, h: Handle)
    requires Reachable(s) && h in s.tables.objects
    ensures h in s.issuer && AccountedFor(s, h, s.issuer[h])
    ensures PcOf(s.pcs, s.issuer[h]) != CloseOwner(h)
  {
    ReachableInv(s);
    assert h in Tracked(s, s.issuer[h]);
  }

  /** Closing all handles is complete under any interleaving, foreign closes and
      counter wrap included: once it finishes, its thread has no live handle,
      tracks none and has no entry left. */
  lemma SweepIsComplete(s: State, t: ThreadId)
    requires Reachable(s) && Enabled(s, SweepRemove(t))
    ensures var s' := Next(s, SweepRemove(t));
            LiveOf(s', t) == {} && Tracked(s', t) == {} && t !in s'.tables.owners
  {
    ReachableInv(s);
    var s' := Next(s, SweepRemove(t));
    forall h | h in s'.issuer ensures s'.issuer[h] != t {
      assert h in Tracked(s, s.issuer[h]);
    }
  }

  /** Only closing and sweeping shrink the live set, and only by the handle or
      the handles they were given; only an allocation extends it, by one handle. */
  lemma LiveSetFootprint(s: State, step: Step)
    requires Enabled(s, step)
    ensures var keys := s.tables.objects.Keys; var keys' := Next(s, step).tables.objects.Keys;
            match step
            case AllocInsert(_, _) => keys' == keys + {s.tables.FreshHandle()} && s.tables.FreshHandle() !in keys
            case CloseRemove(_, h) => keys' == keys - {h}
            case SweepRemove(t) => keys' == keys - PcOf(s.pcs, t).taken
            case _ => keys' == keys
    ensures forall h | h in s.tables.objects && h in Next(s, step).tables.objects ::
              Next(s, step).tables.objects[h] == s.tables.objects[h]
              || (step.Write? && step.h == h) || (step.WritePair? && step.hm == h)
  {
  }

  // ----- Identifiers: when an id is issued, and when it can be issued again -----

  lemma OtherStepsIssueNothing(s: State, step: Step)
    requires Enabled(s, step) && !step.AllocInsert?
    ensures var s' := Next(s, step);
            && s'.log == s.log && s'.ticks == s.ticks && s'.tables.nextId == s.tables.nextId
            && forall h | h in s'.issuer :: h in s.issuer && s'.issuer[h] == s.issuer[h]
  {
  }

  /** An allocation adds one entry to the log, dated by its last draw. */
  lemma ClockAfterInsert(s: State, step: Step)
    requires s.tables.nextId == Advance(1, s.ticks) && Enabled(s, step) && step.AllocInsert?
    ensures var s' := Next(s, step);
            && s.ticks < s'.ticks && s'.tables.nextId == Advance(1, s'.ticks)
            && s'.log == s.log + [Issue(Advance(1, s'.ticks - 1), step.t, s'.ticks - 1)]
  {
    var draws := s.tables.Draws();
    AdvanceComposes(1, s.ticks, draws);
    AdvanceComposes(1, s.ticks, draws - 1);
    hide Advance;
    hide AllTaken;
  }

  lemma LogStaysDated(log: seq<Issue>, ticks: nat, issue: Issue)
    requires Dated(log, ticks) && ticks <= issue.tick && issue.handle == Advance(1, issue.tick)
    ensures Dated(log + [issue], issue.tick + 1)
  {
    hide Advance;
  }

  lemma StepKeepsClock(s: State, step: Step)
    requires ClockInv(s) && Enabled(s, step)
    ensures ClockInv(Next(s, step))
  {
    if step.AllocInsert? {
      ClockAfterInsert(s, step);
    } else {
      OtherStepsIssueNothing(s, step);
    }
    hide Next;
    hide Enabled;
    hide Dated;
    if step.AllocInsert? {
      var s' := Next(s, step);
      LogStaysDated(s.log, s.ticks, Issue(Advance(1, s'.ticks - 1), step.t, s'.ticks - 1));
    }
  }

  lemma {:induction false} RunKeepsClock(s: State, run: seq<Step>)
    requires ClockInv(s) && ValidRun(s, run)
    ensures ClockInv(Exec(s, run))
    decreases run
  {
    if run != [] {
      StepKeepsClock(s, run[0]);
      RunKeepsClock(Next(s, run[0]), run[1..]);
    }
  }

  lemma ReachableClock(s: State)
    requires Reachable(s)
    ensures ClockInv(s)
  {
    InitIsGood();
    hide Next;
    hide Enabled;
    var run :| ValidRun(INIT, run) && Exec(INIT, run) == s;
    RunKeepsClock(INIT, run);
  }

  lemma SameValueWholeTurns(c: Handle, i: nat, j: nat)
    requires i < j && Advance(c, i) == Advance(c, j)
    ensures exists turns: nat :: turns > 0 && j == i + turns * ID_SPACE
  {
    AdvanceIsModular(c, i);
    AdvanceIsModular(c, j);
    var turns := (j - i) / ID_SPACE;
    assert j == i + turns * ID_SPACE;
  }

  /** Two issues of one id are a positive multiple of 2^32 counter increments apart. */
  lemma ReissueIsAWholeTurnLater(s: State, j: nat, k: nat)
    requires Reachable(s) && j < k < |s.log| && s.log[j].handle == s.log[k].handle
    ensures exists turns: nat :: turns > 0 && s.log[k].tick == s.log[j].tick + turns * ID_SPACE
  {
    ReachableClock(s);
    SameValueWholeTurns(1, s.log[j].tick, s.log[k].tick);
  }

  lemma FirstTurnDrawsOnce(s: State)
    requires s.issuer.Keys == s.tables.objects.Keys && FirstTurnLog(s) && s.ticks < ID_SPACE - 1 && !s.tables.Full()
    ensures s.tables.Draws() == 1 && s.tables.FreshHandle() == s.ticks + 1
  {
    var h := s.tables.nextId;
    assert h == s.ticks + 1 && h !in s.issuer;
    assert !Taken(s.tables.objects.Keys, h) && Advance(h, 0) == h;
    FirstFreeIsUnique(s.tables.objects.Keys, h, 0);
  }

  lemma FirstTurnCounter(s: State)
    requires FirstTurnLog(s)
    ensures s.tables.nextId == (1 + s.ticks) % ID_SPACE
  {
  }

  lemma FirstTurnInsert(s: State, step: Step)
    requires Inv(s) && FirstTurnLog(s) && Enabled(s, step) && step.AllocInsert? && Next(s, step).ticks < ID_SPACE
    ensures var s' := Next(s, step);
            && s'.ticks == s.ticks + 1 && s'.tables.nextId == (1 + s'.ticks) % ID_SPACE
            && s'.log == s.log + [Issue(s'.ticks, step.t, s.ticks)]
            && s'.issuer == s.issuer[s'.ticks := step.t]
            && s.tables.FreshHandle() == s'.ticks
  {
    hide Tracked;
    assert s.ticks < ID_SPACE - 1;
    FirstTurnDrawsOnce(s);
    hide FirstFree;
    hide FirstTurnLog;
    assert Advance(s.tables.nextId, 1) == Succ(Advance(s.tables.nextId, 0));
    FirstTurnCounter(s);
  }

  lemma StillIssued(log: seq<Issue>, log': seq<Issue>, h: Handle, t: ThreadId)
    requires IssuedTo(log, h, t) && log <= log'
    ensures IssuedTo(log', h, t)
  {
  }

  lemma IssuerGrows(log: seq<Issue>, issuer: map<Handle, ThreadId>, t: ThreadId)
    requires CountsUp(log) && |log| + 1 < ID_SPACE
    requires forall h | h in issuer :: IssuedTo(log, h, issuer[h])
    ensures var log' := log + [Issue(|log| + 1, t, |log|)]; var issuer' := issuer[|log| + 1 := t];
            CountsUp(log') && forall h | h in issuer' :: IssuedTo(log', h, issuer'[h])
  {
    var log' := log + [Issue(|log| + 1, t, |log|)];
    assert IssuedTo(log', |log| + 1, t);
    forall h | h in issuer ensures IssuedTo(log', h, issuer[h]) {
      StillIssued(log, log', h, issuer[h]);
    }
    hide IssuedTo;
  }

  lemma FirstTurnLogStep(s: State, step: Step)
    requires Inv(s) && FirstTurnLog(s) && Enabled(s, step) && Next(s, step).ticks < ID_SPACE
    ensures FirstTurnLog(Next(s, step))
  {
    if step.AllocInsert? {
      FirstTurnInsert(s, step);
    } else {
      OtherStepsIssueNothing(s, step);
    }
    hide Next;
    hide Enabled;
    hide Inv;
    hide IssuedTo;
    hide CountsUp;
    if step.AllocInsert? {
      IssuerGrows(s.log, s.issuer, step.t);
    }
  }

  /** The log only grows. */
  lemma LogExtends(s: State, step: Step)
    requires Enabled(s, step)
    ensures s.log <= Next(s, step).log
  {
  }

  lemma TrackedWereIssued(s: State, t: ThreadId, h: Handle)
    requires FirstTurnInv(s)
    ensures FirstTurnLog(s)
    ensures h in Tracked(s, t) ==> IssuedTo(s.log, h, t)
  {
  }

  lemma FreshIsIssued(s: State, step: Step)
    requires Inv(s) && FirstTurnLog(s) && Enabled(s, step) && step.AllocInsert? && Next(s, step).ticks < ID_SPACE
    ensures IssuedTo(Next(s, step).log, s.tables.FreshHandle(), step.t)
  {
    FirstTurnInsert(s, step);
    FirstTurnLogStep(s, step);
    hide Next;
    hide Enabled;
    hide Inv;
  }

  lemma FirstTurnTrackedStep(s: State, step: Step, t: ThreadId, h: Handle)
    requires Inv(s) && FirstTurnInv(s) && Enabled(s, step) && Next(s, step).ticks < ID_SPACE
    requires h in Tracked(Next(s, step), t)
    ensures IssuedTo(Next(s, step).log, h, t)
  {
    hide Next;
    hide Tracked;
    hide FirstTurnInv;
    hide FirstTurnLog;
    hide IssuedTo;
    TrackedFollowsOwnSteps(s, step, t);
    TrackedWereIssued(s, t, h);
    LogExtends(s, step);
    if step.AllocInsert? && step.t == t && h == s.tables.FreshHandle() {
      FreshIsIssued(s, step);
    } else {
      StillIssued(s.log, Next(s, step).log, h, t);
    }
  }

  lemma StepKeepsFirstTurn(s: State, step: Step)
    requires Inv(s) && FirstTurnInv(s) && Enabled(s, step) && Next(s, step).ticks < ID_SPACE
    ensures FirstTurnInv(Next(s, step))
  {
    var s' := Next(s, step);
    FirstTurnLogStep(s, step);
    hide FirstTurnLog;
    hide IssuedTo;
    hide Tracked;
    hide Next;
    hide Enabled;
    hide Inv;
    forall t, h | h in Tracked(s', t) ensures IssuedTo(s'.log, h, t) {
      FirstTurnTrackedStep(s, step, t, h);
    }
  }

  lemma {:induction false} TicksNeverDecrease(s: State, run: seq<Step>)
    requires ValidRun(s, run)
    ensures s.ticks <= Exec(s, run).ticks
    decreases run
  {
    if run != [] {
      TicksNeverDecrease(Next(s, run[0]), run[1..]);
    }
  }

  lemma {:induction false} RunKeepsFirstTurn(s: State, run: seq<Step>)
    requires Inv(s) && FirstTurnInv(s) && ValidRun(s, run) && Exec(s, run).ticks < ID_SPACE
    ensures FirstTurnInv(Exec(s, run))
    decreases run
  {
    if run != [] {
      StepKeepsInv(s, run[0]);
      TicksNeverDecrease(Next(s, run[0]), run[1..]);
      StepKeepsFirstTurn(s, run[0]);
      RunKeepsFirstTurn(Next(s, run[0]), run[1..]);
    }
  }

  lemma ReachableFirstTurn(s: State)
    requires Reachable(s) && s.ticks < ID_SPACE
    ensures FirstTurnInv(s)
  {
    InitIsGood();
    hide Next;
    hide Enabled;
    hide FirstTurnInv;
    hide Inv;
    var run :| ValidRun(INIT, run) && Exec(INIT, run) == s;
    RunKeepsFirstTurn(INIT, run);
  }

  /** Before the counter wraps the k-th allocation returns k, having drawn once
      from the counter: `ticks` equals the number of allocations. */
  lemma HandlesCountUpBeforeWrap(s: State, k: nat)
    requires Reachable(s) && s.ticks < ID_SPACE && k < |s.log|
    ensures s.log[k].handle == k + 1 && s.log[k].tick == k
    ensures |s.log| == s.ticks
  {
    ReachableFirstTurn(s);
  }

  /** Before the counter wraps, closing all handles is isolated: it removes no
      live handle that another thread allocated. */
  lemma SweepIsIsolatedBeforeWrap(s: State, t: ThreadId, h: Handle)
    requires Reachable(s) && s.ticks < ID_SPACE && Enabled(s, SweepRemove(t))
    requires h in s.tables.objects && h !in Next(s, SweepRemove(t)).tables.objects
    ensures h in s.issuer && s.issuer[h] == t
  {
    ReachableFirstTurn(s);
    ReachableInv(s);
    assert h in Tracked(s, t);
  }
}
