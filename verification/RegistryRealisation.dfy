/** The other half of the refinement: whatever the critical sections can do, threads can
    do step by step under the locks. What sections can do wrong, threads can do wrong. */
module RegistryRealisation {
  import opened Options
  import opened HandleIds
  import opened HandleTables
  import opened Registry
  import opened RegistryIsolation
  import opened RegistryLocks
  import opened RegistryLockRuns

  // ----- Runs -----

  lemma {:induction false} LRunsCompose(l: LState, a: seq<LStep>, b: seq<LStep>)
    requires LValidRun(l, a) && LValidRun(LExec(l, a), b)
    ensures LValidRun(l, a + b) && LExec(l, a + b) == LExec(LExec(l, a), b)
    decreases a
  {
    hide LNext;
    hide LEnabled;
    if a == [] {
      assert a + b == b;
    } else {
      LRunsCompose(LNext(l, a[0]), a[1..], b);
      assert (a + b)[0] == a[0] && (a + b)[1..] == a[1..] + b;
    }
  }

  lemma LRunOfOne(l: LState, a: LStep, rest: seq<LStep>)
    requires LEnabled(l, a) && LValidRun(LNext(l, a), rest)
    ensures LValidRun(l, [a] + rest) && LExec(l, [a] + rest) == LExec(LNext(l, a), rest)
  {
    hide LNext;
    hide LEnabled;
    var run := [a] + rest;
    assert run[0] == a && run[1..] == rest;
  }

  ghost predicate AllBy(t: ThreadId, run: seq<LStep>) {
    forall k | 0 <= k < |run| :: run[k].t == t
  }

  // ----- Where threads stand -----

  predicate Holding(p: Point) {
    p.HoldsMap() || p.HoldsOwners() || p.Reading?
  }

  /** Where a thread stands that neither works under a lock nor has just begun. */
  predicate Between(p: Point) {
    p.Resting? || p.EnlistWait? || p.DelistWait? || p.SweepMapWait?
  }

  ghost predicate LocksFree(l: LState) {
    l.mapLock == MapFree && l.ownersLock == OwnersFree
  }

  ghost predicate Quiet(l: LState) {
    LocksFree(l) && forall t :: Between(At(l, t))
  }

  ghost predicate OthersWait(l: LState, t: ThreadId) {
    forall u | u != t :: !Holding(At(l, u))
  }

  ghost predicate OthersSame(l: LState, t: ThreadId, l': LState) {
    forall u | u != t :: At(l', u) == At(l, u)
  }

  lemma NobodyHolds(l: LState, t: ThreadId)
    requires LockInv(l) && OthersWait(l, t) && !Holding(At(l, t))
    ensures LocksFree(l)
  {
    assert forall u :: !Holding(At(l, u));
  }

  lemma FreeMeansWaiting(l: LState, t: ThreadId)
    requires LockInv(l) && LocksFree(l)
    ensures OthersWait(l, t) && !Holding(At(l, t))
  {
  }

  lemma FreeIsSettled(l: LState)
    requires LocksFree(l)
    ensures Abs(l) == State(l.tables, SectionPcs(l.points), l.ticks, l.issuer, l.log)
  {
  }

  lemma PcOfPoint(l: LState, t: ThreadId)
    requires LocksFree(l)
    ensures PcOf(Abs(l).pcs, t) == SectionPc(At(l, t))
  {
    FreeIsSettled(l);
    PcsAfterMove(l.points, t, Resting);
    hide Abs;
    hide SectionPcs;
  }

  lemma OthersGoOnWaiting(l: LState, step: LStep)
    requires OthersWait(l, step.t) && LEnabled(l, step)
    ensures OthersWait(LNext(l, step), step.t) && OthersSame(l, step.t, LNext(l, step))
  {
    forall u | u != step.t ensures At(LNext(l, step), u) == At(l, u) {
      OthersStayPut(l, step, u);
    }
    hide LNext;
    hide LEnabled;
  }

  // ----- Finishing the work under a lock -----

  /** The section a thread completes if it goes on until it releases the lock it holds. */
  function Pending(p: Point, t: ThreadId, obj: MsiObject): Option<Step> {
    match p
    case AllocProbing(o, _, _) => Some(AllocInsert(t, o))
    case Enlisting(_) => Some(AllocEnlist(t))
    case Closing(h) => Some(CloseRemove(t, h))
    case Delisting(_) => Some(CloseDelist(t))
    case SweepTaking => Some(SweepTake(t))
    case Reading(h) => Some(Read(t, h))
    case Writing(h) => Some(Write(t, h, obj))
    case PairStart(hm, hr) => Some(WritePair(t, hm, hr, obj))
    case PairHasMut(hm, hr, _) => Some(WritePair(t, hm, hr, obj))
    case PairHasBoth(hm, hr, _, _) => Some(WritePair(t, hm, hr, obj))
    case _ => None
  }

  ghost predicate Advances(l: LState, step: LStep, l': LState)
    requires step.Work?
  {
    var p, p' := At(l, step.t), At(l', step.t);
    && (Holding(p') || Between(p'))
    && (|| (Completes(l, step).None? && Pending(p', step.t, step.obj) == Pending(p, step.t, step.obj))
        || (Completes(l, step) == Pending(p, step.t, step.obj) && Pending(p', step.t, step.obj).None?))
  }

  lemma PairLooksUpMut(l: LState, step: LStep)
    requires step.Work? && At(l, step.t).PairStart?
    ensures Advances(l, step, PairWork(l, step.t, step.obj))
  {
  }

  lemma PairLooksUpRead(l: LState, step: LStep)
    requires step.Work? && At(l, step.t).PairHasMut?
    ensures Advances(l, step, PairWork(l, step.t, step.obj))
  {
  }

  lemma PairGoesOn(l: LState, step: LStep)
    requires LEnabled(l, step) && step.Work?
    requires At(l, step.t).PairHasBoth? || At(l, step.t).PairRan? || At(l, step.t).PairPutBack?
    ensures Advances(l, step, PairWork(l, step.t, step.obj))
  {
  }

  lemma OwnersWorkAdvances(l: LState, step: LStep)
    requires step.Work? && At(l, step.t).HoldsOwners()
    ensures Advances(l, step, OwnersWork(l, step.t))
  {
  }

  lemma WorkAdvances(l: LState, step: LStep)
    requires LEnabled(l, step) && step.Work?
    ensures Advances(l, step, LNext(l, step))
  {
    if InPair(At(l, step.t)) {
      if At(l, step.t).PairStart? {
        PairLooksUpMut(l, step);
      } else if At(l, step.t).PairHasMut? {
        PairLooksUpRead(l, step);
      } else {
        PairGoesOn(l, step);
      }
      hide Advances;
    } else if At(l, step.t).HoldsOwners() {
      OwnersWorkAdvances(l, step);
      hide Advances;
    }
    hide PairWork;
    hide OwnersWork;
  }

  lemma ProbingGoesOn(l: LState, step: LStep)
    requires LEnabled(l, step) && step.Work? && At(LNext(l, step), step.t).AllocProbing?
    ensures At(l, step.t).AllocProbing? && LNext(l, step).tables.objects == l.tables.objects
  {
  }

  lemma SomeWork(l: LState, t: ThreadId, obj: MsiObject) returns (step: LStep)
    requires Holding(At(l, t))
    ensures step.Work? && step.t == t && step.obj == obj && LEnabled(l, step)
  {
    var next: Handle := 0;
    if At(l, t).Sweeping? && At(l, t).rest != {} {
      next :| next in At(l, t).rest;
    }
    step := Work(t, next, obj);
  }

  lemma MatchesFollows(s: State, c: Option<Step>, s1: State, pending: Option<Step>, pending': Option<Step>, s2: State)
    requires Matches(s, c, s1) && Matches(s1, pending', s2)
    requires (c.None? && pending' == pending) || (c == pending && pending'.None?)
    ensures Matches(s, pending, s2)
  {
    hide Enabled;
    hide Next;
  }

  /** Room for the search: the table is not full. */
  predicate SearchEnds(l: LState, t: ThreadId) {
    At(l, t).AllocProbing? ==> |l.tables.objects.Keys| < ID_SPACE - 1
  }

  /** One more step in front of a run that finishes the work. */
  lemma FinishOnwards(l: LState, step: LStep, l1: LState, end: State)
    requires step.Work? && Advances(l, step, l1)
    requires Matches(Abs(l), Completes(l, step), Abs(l1))
    requires Matches(Abs(l1), Pending(At(l1, step.t), step.t, step.obj), end)
    ensures Matches(Abs(l), Pending(At(l, step.t), step.t, step.obj), end)
  {
    hide Abs;
    hide Completes;
    hide Matches;
    hide Pending;
    MatchesFollows(Abs(l), Completes(l, step), Abs(l1),
                   Pending(At(l, step.t), step.t, step.obj),
                   Pending(At(l1, step.t), step.t, step.obj), end);
  }

  lemma OneMoreBy(step: LStep, rest: seq<LStep>)
    requires AllBy(step.t, rest)
    ensures AllBy(step.t, [step] + rest)
  {
  }

  lemma ReleasedIsFree(l: LState, t: ThreadId, obj: MsiObject)
    requires LGood(l) && OthersWait(l, t) && Between(At(l, t))
    ensures LocksFree(l) && LValidRun(l, []) && LExec(l, []) == l
    ensures Matches(Abs(l), Pending(At(l, t), t, obj), Abs(l))
  {
    NobodyHolds(l, t);
    hide Abs;
    hide LockInv;
    hide LNext;
    hide LEnabled;
  }

  /** A step of a thread at work, with all that is kept by it. */
  lemma WorkOnce(l: LState, step: LStep)
    requires LGood(l) && OthersWait(l, step.t) && Holding(At(l, step.t)) && SearchEnds(l, step.t)
    requires LEnabled(l, step) && step.Work?
    ensures var l1 := LNext(l, step);
            && LGood(l1) && OthersWait(l1, step.t) && OthersSame(l, step.t, l1) && SearchEnds(l1, step.t)
            && Matches(Abs(l), Completes(l, step), Abs(l1)) && Advances(l, step, l1)
            && (Holding(At(l1, step.t)) || Between(At(l1, step.t)))
            && 0 <= WorkLeft(l1, At(l1, step.t)) < WorkLeft(l, At(l, step.t))
  {
    HoldersFinish(l, step, step.t);
    StepKeepsGood(l, step);
    WorkAdvances(l, step);
    OthersGoOnWaiting(l, step);
    if At(LNext(l, step), step.t).AllocProbing? {
      ProbingGoesOn(l, step);
    }
    hide LNext;
    hide LEnabled;
    hide LGood;
    hide Abs;
    hide Completes;
    hide Matches;
    hide Pending;
    hide WorkLeft;
    hide OthersWait;
    hide OthersSame;
  }

  ghost predicate NoBegin(run: seq<LStep>) {
    forall k | 0 <= k < |run| :: !run[k].Begin?
  }

  lemma NoSteps(t: ThreadId)
    ensures AllBy(t, []) && NoBegin([])
  {
  }

  lemma SameTwice(l: LState, t: ThreadId, l1: LState, l2: LState)
    requires OthersSame(l, t, l1) && OthersSame(l1, t, l2)
    ensures OthersSame(l, t, l2)
  {
  }

  lemma SameAsBefore(l: LState, t: ThreadId)
    ensures OthersSame(l, t, l)
  {
  }

  lemma OneMoreNotBegin(step: LStep, rest: seq<LStep>)
    requires NoBegin(rest) && !step.Begin?
    ensures NoBegin([step] + rest)
  {
  }

  /** A thread that holds a lock, while no other holds one, completes its pending section
      and leaves both locks free. */
  lemma {:induction false} FinishWork(l: LState, t: ThreadId, obj: MsiObject) returns (run: seq<LStep>)
    requires LGood(l) && OthersWait(l, t) && Holding(At(l, t)) && SearchEnds(l, t)
    ensures LValidRun(l, run) && AllBy(t, run) && NoBegin(run)
    ensures var l' := LExec(l, run);
            && LGood(l') && LocksFree(l') && Between(At(l', t)) && OthersSame(l, t, l')
            && Matches(Abs(l), Pending(At(l, t), t, obj), Abs(l'))
    decreases WorkLeft(l, At(l, t))
  {
    hide *;
    var step := SomeWork(l, t, obj);
    WorkOnce(l, step);
    var l1 := LNext(l, step);
    var rest: seq<LStep> := [];
    if Holding(At(l1, t)) {
      rest := FinishWork(l1, t, obj);
    } else {
      ReleasedIsFree(l1, t, obj);
      NoSteps(t);
      SameAsBefore(l1, t);
    }
    FinishOnwards(l, step, l1, Abs(LExec(l1, rest)));
    LRunOfOne(l, step, rest);
    OneMoreBy(step, rest);
    OneMoreNotBegin(step, rest);
    SameTwice(l, t, l1, LExec(l1, rest));
    run := [step] + rest;
  }

  // ----- Carrying out one section -----

  /** Where an operation begins; the second halves have begun already. */
  function StartOf(sec: Step): Option<Point> {
    match sec
    case AllocInsert(_, obj) => Some(AllocWait(obj))
    case CloseRemove(_, h) => Some(CloseWait(h))
    case SweepTake(_) => Some(SweepOwnersWait)
    case Read(_, h) => Some(ReadWait(h))
    case Write(_, h, _) => Some(WriteWait(h))
    case WritePair(_, hm, hr, _) => Some(PairWait(hm, hr))
    case _ => None
  }

  function ObjectOf(sec: Step): MsiObject {
    if sec.Write? || sec.WritePair? then sec.obj else Record(0)
  }

  /** A thread waits for the lock of the section it is to carry out next. */
  predicate WaitsFor(p: Point, sec: Step) {
    match sec
    case AllocInsert(_, obj) => p == AllocWait(obj)
    case AllocEnlist(_) => p.EnlistWait?
    case CloseRemove(_, h) => p == CloseWait(h)
    case CloseDelist(_) => p.DelistWait?
    case SweepTake(_) => p == SweepOwnersWait
    case SweepRemove(_) => p.SweepMapWait?
    case Read(_, h) => p == ReadWait(h)
    case Write(_, h, _) => p == WriteWait(h)
    case WritePair(_, hm, hr, _) => p == PairWait(hm, hr)
  }

  /** One thread waits for the lock of its section and everything else is at rest. */
  ghost predicate Poised(l: LState, sec: Step) {
    LocksFree(l) && OthersWait(l, sec.t) && WaitsFor(At(l, sec.t), sec)
  }

  lemma BeginPoises(l: LState, sec: Step)
    requires LockInv(l) && LocksFree(l) && At(l, sec.t) == Resting
    requires StartOf(sec).Some? && (sec.WritePair? ==> sec.hm != sec.hr)
    ensures var step := Begin(sec.t, StartOf(sec).value);
            && LEnabled(l, step) && Completes(l, step).None?
            && Poised(LNext(l, step), sec) && OthersSame(l, sec.t, LNext(l, step))
  {
    FreeMeansWaiting(l, sec.t);
    hide LockInv;
    OthersGoOnWaiting(l, Begin(sec.t, StartOf(sec).value));
    hide OthersWait;
    hide OthersSame;
  }

  lemma SecondHalfIsPoised(l: LState, sec: Step)
    requires LockInv(l) && LocksFree(l) && Between(At(l, sec.t)) && Enabled(Abs(l), sec) && StartOf(sec).None?
    ensures Poised(l, sec)
  {
    FreeMeansWaiting(l, sec.t);
    PcOfPoint(l, sec.t);
    hide Abs;
    hide LockInv;
    hide OthersWait;
  }

  lemma FirstHalfIsResting(l: LState, sec: Step)
    requires LocksFree(l) && Between(At(l, sec.t)) && Enabled(Abs(l), sec) && StartOf(sec).Some?
    ensures At(l, sec.t) == Resting
  {
    PcOfPoint(l, sec.t);
    hide Abs;
  }

  lemma BeginSection(l: LState, sec: Step) returns (run: seq<LStep>)
    requires LGood(l) && LocksFree(l) && Between(At(l, sec.t)) && Enabled(Abs(l), sec)
    requires sec.WritePair? ==> sec.hm != sec.hr
    ensures LValidRun(l, run) && AllBy(sec.t, run) && (StartOf(sec).None? ==> run == [])
    ensures var l1 := LExec(l, run);
            LGood(l1) && Poised(l1, sec) && Abs(l1) == Abs(l) && OthersSame(l, sec.t, l1)
  {
    run := [];
    if StartOf(sec).Some? {
      var step := Begin(sec.t, StartOf(sec).value);
      FirstHalfIsResting(l, sec);
      BeginPoises(l, sec);
      StepKeepsGood(l, step);
      assert LValidRun(LNext(l, step), []) && LExec(LNext(l, step), []) == LNext(l, step);
      LRunOfOne(l, step, []);
      run := [step] + [];
    } else {
      SecondHalfIsPoised(l, sec);
    }
    hide LNext;
    hide LEnabled;
    hide LGood;
    hide Abs;
    hide Poised;
    hide Completes;
    hide Enabled;
  }

  function Acquire(sec: Step): LStep {
    if sec.AllocEnlist? || sec.CloseDelist? || sec.SweepTake? then AcquireOwners(sec.t) else AcquireMap(sec.t)
  }

  ghost predicate GoesToWork(l: LState, sec: Step, l': LState) {
    var p := At(l', sec.t);
    && Holding(p) && (p.AllocProbing? ==> sec.AllocInsert?) && l'.tables == l.tables
    && Completes(l, Acquire(sec)) == (if sec.SweepRemove? then Some(sec) else None)
    && Pending(p, sec.t, ObjectOf(sec)) == if sec.SweepRemove? then None else Some(sec)
  }

  lemma AcquiresOwners(l: LState, sec: Step)
    requires Poised(l, sec) && Acquire(sec).AcquireOwners?
    ensures LEnabled(l, Acquire(sec)) && GoesToWork(l, sec, LNext(l, Acquire(sec)))
  {
    hide OthersWait;
  }

  lemma AcquiresMap(l: LState, sec: Step)
    requires Poised(l, sec) && Acquire(sec).AcquireMap?
    ensures LEnabled(l, Acquire(sec)) && GoesToWork(l, sec, LNext(l, Acquire(sec)))
  {
    hide OthersWait;
  }

  lemma PoisedAcquires(l: LState, sec: Step)
    requires Poised(l, sec)
    ensures LEnabled(l, Acquire(sec))
    ensures OthersWait(LNext(l, Acquire(sec)), sec.t) && OthersSame(l, sec.t, LNext(l, Acquire(sec)))
    ensures GoesToWork(l, sec, LNext(l, Acquire(sec)))
  {
    if Acquire(sec).AcquireOwners? {
      AcquiresOwners(l, sec);
    } else {
      AcquiresMap(l, sec);
    }
    hide LNext;
    hide LEnabled;
    hide GoesToWork;
    OthersGoOnWaiting(l, Acquire(sec));
    hide OthersWait;
  }

  lemma RoomToSearch(l: LState, sec: Step)
    requires Poised(l, sec) && Enabled(Abs(l), sec) && sec.AllocInsert?
    ensures |l.tables.objects.Keys| < ID_SPACE - 1
  {
    assert Abs(l).tables.objects == l.tables.objects;
    hide SectionPcs;
    hide OthersWait;
  }

  lemma BothBy(t: ThreadId, a: seq<LStep>, b: seq<LStep>)
    requires AllBy(t, a) && AllBy(t, b)
    ensures AllBy(t, a + b)
  {
  }

  lemma BothNotBegin(a: seq<LStep>, b: seq<LStep>)
    requires NoBegin(a) && NoBegin(b)
    ensures NoBegin(a + b)
  {
  }

  lemma SamePair(l: LState, sec: Step)
    requires Enabled(Abs(l), sec) && sec.WritePair? && sec.hm == sec.hr
    ensures Next(Abs(l), sec) == Abs(l) && LValidRun(l, []) && LExec(l, []) == l && OthersSame(l, sec.t, l)
  {
    hide Abs;
    hide LNext;
    hide LEnabled;
  }

  /** A section that is enabled in the settled registry, with both locks free and its
      thread between sections, is carried out by that thread alone, and the locks are
      free again. The second half of an operation takes no new beginning. */
  lemma RealiseSection(l: LState, sec: Step) returns (run: seq<LStep>)
    requires LGood(l) && LocksFree(l) && Between(At(l, sec.t)) && Enabled(Abs(l), sec)
    ensures LValidRun(l, run) && AllBy(sec.t, run) && (StartOf(sec).None? ==> NoBegin(run))
    ensures var l' := LExec(l, run);
            && LGood(l') && LocksFree(l') && Between(At(l', sec.t)) && OthersSame(l, sec.t, l')
            && Abs(l') == Next(Abs(l), sec)
  {
    hide LGood;
    hide Abs;
    hide LNext;
    hide LEnabled;
    hide LValidRun;
    hide LExec;
    hide AllBy;
    hide OthersSame;
    if sec.WritePair? && sec.hm == sec.hr {
      SamePair(l, sec);
      NoSteps(sec.t);
      run := [];
    } else {
      hide Next;
      hide Enabled;
      hide Poised;
      hide OthersWait;
      hide Completes;
      hide Pending;
      hide NoBegin;
      var lead := BeginSection(l, sec);
      var l1 := LExec(l, lead);
      var step := Acquire(sec);
      PoisedAcquires(l1, sec);
      StepKeepsGood(l1, step);
      if sec.AllocInsert? {
        RoomToSearch(l1, sec);
      }
      var l2 := LNext(l1, step);
      var tail := FinishWork(l2, sec.t, ObjectOf(sec));
      LRunOfOne(l1, step, tail);
      LRunsCompose(l, lead, [step] + tail);
      OneMoreBy(step, tail);
      BothBy(sec.t, lead, [step] + tail);
      OneMoreNotBegin(step, tail);
      if StartOf(sec).None? {
        NoSteps(sec.t);
        BothNotBegin(lead, [step] + tail);
      }
      SameTwice(l, sec.t, l1, l2);
      SameTwice(l, sec.t, l2, LExec(l2, tail));
      run := lead + ([step] + tail);
    }
  }

  // ----- Carrying out whole runs -----

  ghost predicate LByOthers(t: ThreadId, run: seq<LStep>) {
    forall k | 0 <= k < |run| :: run[k].t != t
  }

  lemma OthersFirst(t: ThreadId, run: seq<Step>)
    requires run != [] && ByOthers(t, run)
    ensures run[0].t != t && ByOthers(t, run[1..])
  {
    assert forall k | 0 <= k < |run[1..]| :: run[1..][k] == run[k + 1];
  }

  /** The threads of the run are between sections. */
  ghost predicate Ready(l: LState, run: seq<Step>) {
    forall k | 0 <= k < |run| :: Between(At(l, run[k].t))
  }

  lemma StillReady(l: LState, run: seq<Step>, l1: LState)
    requires run != [] && Ready(l, run) && OthersSame(l, run[0].t, l1) && Between(At(l1, run[0].t))
    ensures Ready(l1, run[1..])
    ensures forall t | Between(At(l, t)) :: Between(At(l1, t))
  {
    assert forall k | 0 <= k < |run[1..]| :: run[1..][k] == run[k + 1];
  }

  /** Every run of sections is carried out under the locks, by the same threads, from any
      state in which both locks are free and these threads are between sections. */
  lemma {:induction false} RealiseRun(l: LState, run: seq<Step>) returns (lrun: seq<LStep>)
    requires LGood(l) && LocksFree(l) && Ready(l, run) && ValidRun(Abs(l), run)
    ensures LValidRun(l, lrun)
    ensures var l' := LExec(l, lrun);
            && LGood(l') && LocksFree(l') && Abs(l') == Exec(Abs(l), run)
            && (forall t | Between(At(l, t)) :: Between(At(l', t)))
    ensures forall t | ByOthers(t, run) :: LByOthers(t, lrun) && At(LExec(l, lrun), t) == At(l, t)
    decreases run
  {
    hide Next;
    hide Enabled;
    hide Abs;
    hide LGood;
    hide LNext;
    hide LEnabled;
    hide Between;
    lrun := [];
    if run != [] {
      assert Between(At(l, run[0].t));
      var lead := RealiseSection(l, run[0]);
      var l1 := LExec(l, lead);
      StillReady(l, run, l1);
      hide Ready;
      var tail := RealiseRun(l1, run[1..]);
      LRunsCompose(l, lead, tail);
      lrun := lead + tail;
      forall t | ByOthers(t, run) ensures LByOthers(t, lrun) && At(LExec(l, lrun), t) == At(l, t) {
        OthersFirst(t, run);
        assert LByOthers(t, tail);
      }
    }
  }

  /** Every lock-level run settles to a run of sections by the same threads. */
  lemma {:induction false} SettleRun(l: LState, lrun: seq<LStep>) returns (run: seq<Step>)
    requires LGood(l) && LValidRun(l, lrun)
    ensures LGood(LExec(l, lrun)) && ValidRun(Abs(l), run) && Exec(Abs(l), run) == Abs(LExec(l, lrun))
    ensures forall t | LByOthers(t, lrun) :: ByOthers(t, run)
    decreases lrun
  {
    hide Next;
    hide Enabled;
    hide Abs;
    hide LGood;
    hide LNext;
    hide LEnabled;
    hide Completes;
    run := [];
    if lrun != [] {
      var step := lrun[0];
      var l1 := LNext(l, step);
      StepKeepsGood(l, step);
      SectionOfOwnThread(l, step);
      var tail := SettleRun(l1, lrun[1..]);
      var c := Completes(l, step);
      run := tail;
      if c.Some? {
        run := [c.value] + tail;
        assert run[0] == c.value && run[1..] == tail;
      }
      forall t | LByOthers(t, lrun) ensures ByOthers(t, run) {
        assert lrun[0].t != t;
        assert forall k | 0 <= k < |lrun[1..]| :: lrun[1..][k] == lrun[k + 1];
        assert LByOthers(t, lrun[1..]);
      }
    }
  }

  lemma StartIsQuiet()
    ensures LGood(L_INIT) && Quiet(L_INIT) && Abs(L_INIT) == INIT
  {
    LInitIsGood();
  }

  lemma Realised(s: State) returns (l: LState)
    requires Reachable(s)
    ensures LReachable(l) && LGood(l) && Quiet(l) && Abs(l) == s
  {
    StartIsQuiet();
    hide Next;
    hide Enabled;
    hide Abs;
    hide LGood;
    hide LNext;
    hide LEnabled;
    var run :| ValidRun(INIT, run) && Exec(INIT, run) == s;
    assert Ready(L_INIT, run);
    var lrun := RealiseRun(L_INIT, run);
    l := LExec(L_INIT, lrun);
  }

  /** The states the critical sections reach are exactly those the locks' states settle
      to, and each is settled already in a state in which both locks are free. */
  lemma SectionsAreRealised(s: State)
    ensures Reachable(s) <==> exists l :: LReachable(l) && Abs(l) == s
    ensures Reachable(s) ==> exists l :: LReachable(l) && Quiet(l) && Abs(l) == s
  {
    if Reachable(s) {
      var l := Realised(s);
    }
    if exists l :: LReachable(l) && Abs(l) == s {
      var l :| LReachable(l) && Abs(l) == s;
      LocksRefineSections(l);
    }
    hide Abs;
    hide Reachable;
    hide LReachable;
    hide Quiet;
  }
}
