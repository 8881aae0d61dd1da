/** The registry at the granularity of its two locks: threads wait, acquire, work
    under a lock one table access at a time, and release. Every run at this
    granularity is a run of the critical sections of module Registry. */
module RegistryLocks {
  import opened Options
  import opened HandleIds
  import opened HandleTables
  import opened Registry

  datatype MapLock = MapFree | MapWriting(t: ThreadId) | MapReading(ts: set<ThreadId>)

  datatype OwnersLock = OwnersFree | OwnersHeld(t: ThreadId)

  /** Program points. `...Wait` points block on a lock; the others hold one. */
  datatype Point =
    | Resting
    | AllocWait(obj: MsiObject)
    | AllocProbing(obj: MsiObject, start: Handle, probes: nat)
    | EnlistWait(h: Handle)
    | Enlisting(h: Handle)
    | CloseWait(h: Handle)
    | Closing(h: Handle)
    | DelistWait(h: Handle)
    | Delisting(h: Handle)
    | SweepOwnersWait
    | SweepTaking
    | SweepMapWait(taken: set<Handle>)
    | Sweeping(rest: set<Handle>)
    | ReadWait(h: Handle)
    | Reading(h: Handle)
    | WriteWait(h: Handle)
    | Writing(h: Handle)
    | PairWait(hm: Handle, hr: Handle)
    | PairStart(hm: Handle, hr: Handle)
    | PairHasMut(hm: Handle, hr: Handle, objMut: MsiObject)
    | PairHasBoth(hm: Handle, hr: Handle, objMut: MsiObject, objRead: MsiObject)
    | PairRan(hm: Handle, hr: Handle, objMut: MsiObject, objRead: MsiObject)
    | PairPutBack(hr: Handle, objRead: MsiObject)
  {
    predicate WaitsForMap() {
      AllocWait? || CloseWait? || SweepMapWait? || ReadWait? || WriteWait? || PairWait?
    }

    predicate WaitsForOwners() {
      EnlistWait? || DelistWait? || SweepOwnersWait?
    }

    predicate HoldsMap() {
      AllocProbing? || Closing? || Sweeping? || Writing? || PairStart? || PairHasMut?
      || PairHasBoth? || PairRan? || PairPutBack?
    }

    predicate HoldsOwners() {
      Enlisting? || Delisting? || SweepTaking?
    }
  }

  datatype LState = LState(
    tables: Tables,
    points: map<ThreadId, Point>,
    mapLock: MapLock,
    ownersLock: OwnersLock,
    ticks: nat,
    issuer: map<Handle, ThreadId>,
    log: seq<Issue>)

  const L_INIT := LState(Tables(1, map[], map[]), map[], MapFree, OwnersFree, 0, map[], [])

  /** `Begin` starts an operation by moving to its first waiting point. `Work` is one
      access under the lock held; the choices it needs are its other parameters: the
      handle the sweep loop visits next and the object a closure leaves behind. */
  datatype LStep =
    | Begin(t: ThreadId, wait: Point)
    | AcquireMap(t: ThreadId)
    | AcquireOwners(t: ThreadId)
    | Work(t: ThreadId, next: Handle, obj: MsiObject)

  function At(l: LState, t: ThreadId): Point {
    if t in l.points then l.points[t] else Resting
  }

  predicate OperationStart(p: Point) {
    p.AllocWait? || p.CloseWait? || p.SweepOwnersWait? || p.ReadWait? || p.WriteWait?
    || (p.PairWait? && p.hm != p.hr)
  }

  predicate LEnabled(l: LState, step: LStep) {
    var p := At(l, step.t);
    match step
    case Begin(_, wait) => p == Resting && OperationStart(wait)
    case AcquireMap(_) => p.WaitsForMap() && (l.mapLock.MapFree? || (p.ReadWait? && l.mapLock.MapReading?))
    case AcquireOwners(_) => p.WaitsForOwners() && l.ownersLock.OwnersFree?
    case Work(_, next, _) =>
      || p.HoldsOwners() || p.Reading?
      || (p.HoldsMap() && (p.Sweeping? && p.rest != {} ==> next in p.rest))
  }

  function LGoto(l: LState, t: ThreadId, p: Point): LState {
    l.(points := l.points[t := p])
  }

  function ReleaseMap(l: LState, t: ThreadId, p: Point): LState {
    l.(points := l.points[t := p], mapLock := MapFree)
  }

  function ReleaseOwners(l: LState, t: ThreadId, p: Point): LState {
    l.(points := l.points[t := p], ownersLock := OwnersFree)
  }

  function AfterAcquireMap(l: LState, p: Point): Point
    requires p.WaitsForMap()
  {
    match p
    case AllocWait(obj) => AllocProbing(obj, l.tables.nextId, 0)
    case CloseWait(h) => Closing(h)
    case SweepMapWait(taken) => Sweeping(taken)
    case ReadWait(h) => Reading(h)
    case WriteWait(h) => Writing(h)
    case PairWait(hm, hr) => PairStart(hm, hr)
  }

  function AfterAcquireOwners(p: Point): Point
    requires p.WaitsForOwners()
  {
    match p
    case EnlistWait(h) => Enlisting(h)
    case DelistWait(h) => Delisting(h)
    case SweepOwnersWait => SweepTaking
  }

  /** One draw of the search loop: skip the candidate, or insert and release. */
  function Probe(l: LState, t: ThreadId): LState
    requires At(l, t).AllocProbing?
  {
    var p := At(l, t);
    var h := l.tables.nextId;
    var drawn := l.(tables := l.tables.(nextId := Succ(h)), ticks := l.ticks + 1);
    if Taken(l.tables.objects.Keys, h) then LGoto(drawn, t, p.(probes := p.probes + 1))
    else
      ReleaseMap(drawn.(tables := drawn.tables.(objects := l.tables.objects[h := p.obj]),
                        issuer := l.issuer[h := t], log := l.log + [Issue(h, t, l.ticks)]),
                 t, EnlistWait(h))
  }

  function CloseWork(l: LState, t: ThreadId): LState
    requires At(l, t).Closing?
  {
    var h := At(l, t).h;
    if h in l.tables.objects then
      ReleaseMap(l.(tables := l.tables.Remove(h), issuer := l.issuer - {h}), t, DelistWait(h))
    else ReleaseMap(l, t, Resting)
  }

  function SweepWork(l: LState, t: ThreadId, next: Handle): LState
    requires At(l, t).Sweeping?
  {
    var rest := At(l, t).rest;
    if rest == {} then ReleaseMap(l, t, Resting)
    else LGoto(l.(tables := l.tables.Remove(next), issuer := l.issuer - {next}), t, Sweeping(rest - {next}))
  }

  predicate InPair(p: Point) {
    p.PairStart? || p.PairHasMut? || p.PairHasBoth? || p.PairRan? || p.PairPutBack?
  }

  function PairWork(l: LState, t: ThreadId, obj: MsiObject): LState
    requires InPair(At(l, t))
  {
    var objects := l.tables.objects;
    match At(l, t)
    case PairStart(hm, hr) =>
      if hm in objects then LGoto(l.(tables := l.tables.Remove(hm)), t, PairHasMut(hm, hr, objects[hm]))
      else ReleaseMap(l, t, Resting)
    case PairHasMut(hm, hr, objMut) =>
      if hr in objects then LGoto(l.(tables := l.tables.Remove(hr)), t, PairHasBoth(hm, hr, objMut, objects[hr]))
      else ReleaseMap(l.(tables := l.tables.(objects := objects[hm := objMut])), t, Resting)
    case PairHasBoth(hm, hr, _, objRead) => LGoto(l, t, PairRan(hm, hr, obj, objRead))
    case PairRan(hm, hr, objMut, objRead) =>
      LGoto(l.(tables := l.tables.(objects := objects[hm := objMut])), t, PairPutBack(hr, objRead))
    case PairPutBack(hr, objRead) =>
      ReleaseMap(l.(tables := l.tables.(objects := objects[hr := objRead])), t, Resting)
  }

  function OwnersWork(l: LState, t: ThreadId): LState
    requires At(l, t).HoldsOwners()
  {
    match At(l, t)
    case Enlisting(h) => ReleaseOwners(l.(tables := l.tables.Enlist(t, h)), t, Resting)
    case Delisting(h) => ReleaseOwners(l.(tables := l.tables.Delist(t, h)), t, Resting)
    case SweepTaking => ReleaseOwners(l.(tables := l.tables.TakeOwned(t)), t, SweepMapWait(Owned(l.tables.owners, t)))
  }

  function LNext(l: LState, step: LStep): LState
    requires LEnabled(l, step)
  {
    var p := At(l, step.t);
    match step
    case Begin(t, wait) => LGoto(l, t, wait)
    case AcquireMap(t) =>
      LGoto(l, t, AfterAcquireMap(l, p)).(mapLock :=
        if !p.ReadWait? then MapWriting(t)
        else if l.mapLock.MapReading? then MapReading(l.mapLock.ts + {t}) else MapReading({t}))
    case AcquireOwners(t) => LGoto(l, t, AfterAcquireOwners(p)).(ownersLock := OwnersHeld(t))
    case Work(t, next, obj) =>
      if p.HoldsOwners() then OwnersWork(l, t)
      else if p.AllocProbing? then Probe(l, t)
      else if p.Closing? then CloseWork(l, t)
      else if p.Sweeping? then SweepWork(l, t, next)
      else if p.Reading? then
        LGoto(l, t, Resting).(mapLock :=
          if l.mapLock.MapReading? && l.mapLock.ts != {t} then MapReading(l.mapLock.ts - {t}) else MapFree)
      else if p.Writing? then ReleaseMap(l.(tables := l.tables.Write(p.h, obj)), t, Resting)
      else PairWork(l, t, obj)
  }

  // ----- Lock discipline -----

  /** The locks are held by exactly the threads whose program point says so. */
  ghost predicate LockInv(l: LState) {
    && (forall t :: At(l, t).HoldsMap() <==> l.mapLock == MapWriting(t))
    && (forall t :: At(l, t).Reading? <==> l.mapLock.MapReading? && t in l.mapLock.ts)
    && (l.mapLock.MapReading? ==> l.mapLock.ts != {})
    && (forall t :: At(l, t).HoldsOwners() <==> l.ownersLock == OwnersHeld(t))
  }

  ghost predicate PointInv(l: LState, p: Point) {
    match p
    case AllocProbing(_, start, probes) =>
      && l.tables.nextId == Advance(start, probes) && probes <= l.ticks
      && AllTaken(l.tables.objects.Keys, start, probes)
    case PairWait(hm, hr) => hm != hr
    case PairStart(hm, hr) => hm != hr
    case PairHasMut(hm, hr, _) => hm != hr
    case PairHasBoth(hm, hr, _, _) => hm != hr
    case PairRan(hm, hr, _, _) => hm != hr
    case _ => true
  }

  ghost predicate WorkInv(l: LState) {
    forall t :: PointInv(l, At(l, t))
  }

  lemma LocksAfterBegin(l: LState, step: LStep)
    requires LockInv(l) && LEnabled(l, step) && step.Begin?
    ensures LockInv(LNext(l, step))
  {
  }

  lemma LocksAfterAcquire(l: LState, step: LStep)
    requires LockInv(l) && LEnabled(l, step) && (step.AcquireMap? || step.AcquireOwners?)
    ensures LockInv(LNext(l, step))
  {
    var l' := LNext(l, step);
    assert forall t | t != step.t :: At(l', t) == At(l, t);
  }

  /** Work under the map's write lock either keeps the lock and a point that holds it,
      or gives up both. */
  ghost predicate KeepsOrReleases(l: LState, t: ThreadId, l': LState) {
    var p' := At(l', t);
    && l'.points == l.points[t := p'] && l'.ownersLock == l.ownersLock
    && !p'.Reading? && !p'.HoldsOwners()
    && l'.mapLock == if p'.HoldsMap() then l.mapLock else MapFree
  }

  lemma PairWorkShape(l: LState, t: ThreadId, obj: MsiObject)
    requires InPair(At(l, t))
    ensures KeepsOrReleases(l, t, PairWork(l, t, obj))
  {
  }

  lemma MapWorkShape(l: LState, step: LStep)
    requires LEnabled(l, step) && step.Work? && At(l, step.t).HoldsMap()
    ensures KeepsOrReleases(l, step.t, LNext(l, step))
  {
    if InPair(At(l, step.t)) {
      PairWorkShape(l, step.t, step.obj);
      hide KeepsOrReleases;
    } else if At(l, step.t).AllocProbing? {
      assert LNext(l, step) == Probe(l, step.t);
      hide LNext;
    }
    hide PairWork;
  }

  lemma LocksAfterMapWork(l: LState, step: LStep)
    requires LockInv(l) && LEnabled(l, step) && step.Work? && At(l, step.t).HoldsMap()
    ensures LockInv(LNext(l, step))
  {
    MapWorkShape(l, step);
    hide LNext;
    hide LEnabled;
    var l' := LNext(l, step);
    assert forall t | t != step.t :: At(l', t) == At(l, t);
  }

  lemma LocksAfterOtherWork(l: LState, step: LStep)
    requires LockInv(l) && LEnabled(l, step) && step.Work? && !At(l, step.t).HoldsMap()
    ensures LockInv(LNext(l, step))
  {
    var l' := LNext(l, step);
    assert forall t | t != step.t :: At(l', t) == At(l, t);
  }

  lemma StepKeepsLocks(l: LState, step: LStep)
    requires LockInv(l) && LEnabled(l, step)
    ensures LockInv(LNext(l, step))
  {
    if step.Begin? {
      LocksAfterBegin(l, step);
    } else if !step.Work? {
      LocksAfterAcquire(l, step);
    } else if At(l, step.t).HoldsMap() {
      LocksAfterMapWork(l, step);
    } else {
      LocksAfterOtherWork(l, step);
    }
    hide LNext;
    hide LEnabled;
    hide LockInv;
  }

  /** Only the holder of the map's write lock draws ids or changes the key set. */
  lemma OnlyWriterTouchesMap(l: LState, step: LStep)
    requires LEnabled(l, step) && !(step.Work? && At(l, step.t).HoldsMap())
    ensures LNext(l, step).tables.nextId == l.tables.nextId
    ensures LNext(l, step).tables.objects == l.tables.objects
    ensures LNext(l, step).issuer == l.issuer && LNext(l, step).log == l.log && LNext(l, step).ticks == l.ticks
  {
  }

  lemma OwnPointAfterStep(l: LState, step: LStep)
    requires LEnabled(l, step) && PointInv(l, At(l, step.t))
    ensures PointInv(LNext(l, step), At(LNext(l, step), step.t))
  {
    if step.Work? && At(l, step.t).AllocProbing? {
      var p := At(l, step.t);
      var l' := LNext(l, step);
      if At(l', step.t).AllocProbing? {
        assert At(l', step.t) == p.(probes := p.probes + 1);
      }
    }
  }

  lemma StepKeepsWork(l: LState, step: LStep)
    requires LockInv(l) && WorkInv(l) && LEnabled(l, step)
    ensures WorkInv(LNext(l, step))
  {
    var l' := LNext(l, step);
    forall t ensures PointInv(l', At(l', t)) {
      if t == step.t {
        assert PointInv(l, At(l, t));
        OwnPointAfterStep(l, step);
      } else {
        assert At(l', t) == At(l, t);
        assert PointInv(l, At(l, t));
        if step.Work? && At(l, step.t).HoldsMap() {
          assert !At(l, t).HoldsMap();
        } else {
          OnlyWriterTouchesMap(l, step);
        }
      }
    }
  }

  // ----- Each lock-level step is one critical section or none -----

  /** The thread with the map's write lock may be half-way through its section. */
  function Writer(l: LState): Point {
    if l.mapLock.MapWriting? then At(l, l.mapLock.t) else Resting
  }

  function SectionPc(p: Point): Pc {
    match p
    case EnlistWait(h) => AllocOwner(h)
    case Enlisting(h) => AllocOwner(h)
    case DelistWait(h) => CloseOwner(h)
    case Delisting(h) => CloseOwner(h)
    case SweepMapWait(taken) => SweepMap(taken)
    case _ => Idle
  }

  function SectionPcs(points: map<ThreadId, Point>): map<ThreadId, Pc> {
    map t | t in points && SectionPc(points[t]) != Idle :: SectionPc(points[t])
  }

  /** The map as others will find it: what a section has taken out to put back is
      still there, what a sweep is going to remove is gone already. */
  function SettledObjects(objects: map<Handle, MsiObject>, w: Point): map<Handle, MsiObject> {
    match w
    case Sweeping(rest) => objects - rest
    case PairHasMut(hm, _, objMut) => objects[hm := objMut]
    case PairHasBoth(hm, hr, objMut, objRead) => objects[hm := objMut][hr := objRead]
    case PairRan(hm, hr, objMut, objRead) => objects[hm := objMut][hr := objRead]
    case PairPutBack(hr, objRead) => objects[hr := objRead]
    case _ => objects
  }

  function Abs(l: LState): State {
    var w := Writer(l);
    State(
      Tables(if w.AllocProbing? then w.start else l.tables.nextId,
             SettledObjects(l.tables.objects, w), l.tables.owners),
      SectionPcs(l.points),
      if w.AllocProbing? && w.probes <= l.ticks then l.ticks - w.probes else l.ticks,
      if w.Sweeping? then l.issuer - w.rest else l.issuer,
      l.log)
  }

  /** The critical section a lock-level step completes, if any. */
  function Completes(l: LState, step: LStep): Option<Step> {
    var p := At(l, step.t);
    if step.AcquireMap? && p.SweepMapWait? then Some(SweepRemove(step.t))
    else if step.Work? then
      match p
      case Enlisting(_) => Some(AllocEnlist(step.t))
      case Delisting(_) => Some(CloseDelist(step.t))
      case SweepTaking => Some(SweepTake(step.t))
      case AllocProbing(obj, _, _) =>
        if Taken(l.tables.objects.Keys, l.tables.nextId) then None else Some(AllocInsert(step.t, obj))
      case Closing(h) => Some(CloseRemove(step.t, h))
      case Reading(h) => Some(Read(step.t, h))
      case Writing(h) => Some(Write(step.t, h, step.obj))
      case PairStart(hm, hr) =>
        if hm in l.tables.objects then None else Some(WritePair(step.t, hm, hr, step.obj))
      case PairHasMut(hm, hr, _) =>
        if hr in l.tables.objects then None else Some(WritePair(step.t, hm, hr, step.obj))
      case PairHasBoth(hm, hr, _, _) => Some(WritePair(step.t, hm, hr, step.obj))
      case _ => None
    else None
  }

  /** What the calling thread learns from a lock-level step. */
  function LSeen(l: LState, step: LStep): Outcome {
    var objects := l.tables.objects;
    if !step.Work? then Silent
    else
      match At(l, step.t)
      case AllocProbing(_, _, _) => if Taken(objects.Keys, l.tables.nextId) then Silent else Issued(l.tables.nextId)
      case Closing(h) => Closed(h in objects)
      case Reading(h) => Found(if h in objects then Some(objects[h]) else None)
      case Writing(h) => Found(if h in objects then Some(objects[h]) else None)
      case PairStart(hm, _) => if hm in objects then Silent else FoundPair(None)
      case PairHasMut(_, hr, _) => if hr in objects then Silent else FoundPair(None)
      case PairHasBoth(_, _, objMut, objRead) => FoundPair(Some((objMut, objRead)))
      case _ => Silent
  }

  ghost predicate Matches(s: State, completes: Option<Step>, s': State) {
    match completes
    case None => s' == s
    case Some(step) => Enabled(s, step) && s' == Next(s, step)
  }

  lemma PcsAfterMove(points: map<ThreadId, Point>, t: ThreadId, p: Point)
    ensures SectionPcs(points[t := p]) == Goto(SectionPcs(points), t, SectionPc(p))
    ensures PcOf(SectionPcs(points), t) == SectionPc(if t in points then points[t] else Resting)
  {
  }

  lemma PcsStay(points: map<ThreadId, Point>, t: ThreadId, p: Point)
    requires SectionPc(p) == PcOf(SectionPcs(points), t)
    ensures SectionPcs(points[t := p]) == SectionPcs(points)
  {
    PcsAfterMove(points, t, p);
  }

  lemma MatchBegin(l: LState, step: LStep)
    requires LockInv(l) && LEnabled(l, step) && step.Begin?
    ensures Abs(LNext(l, step)) == Abs(l)
  {
    PcsAfterMove(l.points, step.t, step.wait);
    PcsStay(l.points, step.t, step.wait);
    assert Writer(LNext(l, step)) == Writer(l);
  }

  lemma MatchAcquireOwners(l: LState, step: LStep)
    requires LockInv(l) && LEnabled(l, step) && step.AcquireOwners?
    ensures Abs(LNext(l, step)) == Abs(l)
  {
    var p := At(l, step.t);
    PcsAfterMove(l.points, step.t, AfterAcquireOwners(p));
    PcsStay(l.points, step.t, AfterAcquireOwners(p));
    assert Writer(LNext(l, step)) == Writer(l);
  }

  lemma AcquireFindsNoWriter(l: LState, step: LStep)
    requires LockInv(l) && LEnabled(l, step) && step.AcquireMap?
    ensures Writer(l) == Resting
    ensures var l' := LNext(l, step); var p := At(l, step.t); var p' := AfterAcquireMap(l, p);
            && l' == LGoto(l, step.t, p').(mapLock := l'.mapLock)
            && Writer(l') == if p.ReadWait? then Resting else p'
  {
    hide LockInv;
  }

  lemma MatchAcquireToSweep(l: LState, step: LStep)
    requires LockInv(l) && LEnabled(l, step) && step.AcquireMap? && At(l, step.t).SweepMapWait?
    ensures Matches(Abs(l), Some(SweepRemove(step.t)), Abs(LNext(l, step)))
  {
    AcquireFindsNoWriter(l, step);
    hide LockInv;
    hide LNext;
    hide LEnabled;
    hide Writer;
    PcsAfterMove(l.points, step.t, Sweeping(At(l, step.t).taken));
    hide SectionPcs;
  }

  lemma MatchAcquireOther(l: LState, step: LStep)
    requires LockInv(l) && LEnabled(l, step) && step.AcquireMap? && !At(l, step.t).SweepMapWait?
    ensures Abs(LNext(l, step)) == Abs(l)
  {
    AcquireFindsNoWriter(l, step);
    hide LockInv;
    var p := At(l, step.t);
    assert p.WaitsForMap();
    PcsAfterMove(l.points, step.t, p);
    PcsStay(l.points, step.t, AfterAcquireMap(l, p));
    hide LNext;
    hide LEnabled;
    hide Writer;
    hide SectionPcs;
  }

  lemma MatchAcquireMap(l: LState, step: LStep)
    requires LockInv(l) && LEnabled(l, step) && step.AcquireMap?
    ensures Matches(Abs(l), Completes(l, step), Abs(LNext(l, step)))
  {
    if At(l, step.t).SweepMapWait? {
      MatchAcquireToSweep(l, step);
    } else {
      MatchAcquireOther(l, step);
    }
    hide LNext;
    hide LEnabled;
    hide Abs;
    hide LockInv;
  }

  lemma OwnersWorkFrame(l: LState, step: LStep)
    requires LockInv(l) && LEnabled(l, step) && step.Work? && At(l, step.t).HoldsOwners()
    ensures var l' := LNext(l, step);
            && l' == OwnersWork(l, step.t)
            && l' == ReleaseOwners(l, step.t, At(l', step.t)).(tables := l'.tables)
            && l'.tables.nextId == l.tables.nextId && l'.tables.objects == l.tables.objects
            && Writer(l') == Writer(l)
  {
  }

  /** All that a step under the owners lock changes in the settled registry. */
  lemma SettledUnderOwnersLock(l: LState, step: LStep)
    requires LockInv(l) && LEnabled(l, step) && step.Work? && At(l, step.t).HoldsOwners()
    ensures var s := Abs(l); var l' := LNext(l, step);
            && PcOf(s.pcs, step.t) == SectionPc(At(l, step.t))
            && s.tables.owners == l.tables.owners
            && Abs(l') == s.(tables := s.tables.(owners := l'.tables.owners),
                             pcs := Goto(s.pcs, step.t, SectionPc(At(l', step.t))))
  {
    OwnersWorkFrame(l, step);
    hide LNext;
    hide LEnabled;
    hide LockInv;
    hide OwnersWork;
    hide Writer;
    PcsAfterMove(l.points, step.t, At(LNext(l, step), step.t));
    hide SectionPcs;
    hide SettledObjects;
  }

  lemma OwnersWorkMatches(s: State, p: Point, p': Point, t: ThreadId, sec: Step, owners: map<ThreadId, set<Handle>>)
    requires PcOf(s.pcs, t) == SectionPc(p)
    requires match p
             case Enlisting(h) => sec == AllocEnlist(t) && p' == Resting && owners == s.tables.Enlist(t, h).owners
             case Delisting(h) => sec == CloseDelist(t) && p' == Resting && owners == s.tables.Delist(t, h).owners
             case SweepTaking =>
               sec == SweepTake(t) && p' == SweepMapWait(Owned(s.tables.owners, t)) && owners == s.tables.owners - {t}
             case _ => false
    ensures Matches(s, Some(sec), s.(tables := s.tables.(owners := owners), pcs := Goto(s.pcs, t, SectionPc(p'))))
  {
    hide Goto;
    hide PcOf;
  }

  lemma MatchOwnersWork(l: LState, step: LStep)
    requires LockInv(l) && LEnabled(l, step) && step.Work? && At(l, step.t).HoldsOwners()
    ensures Matches(Abs(l), Completes(l, step), Abs(LNext(l, step)))
  {
    OwnersWorkFrame(l, step);
    SettledUnderOwnersLock(l, step);
    hide LNext;
    hide LEnabled;
    hide LockInv;
    hide Abs;
    hide Writer;
    hide Matches;
    hide SectionPc;
    hide PcOf;
    hide Goto;
    var l' := LNext(l, step);
    OwnersWorkMatches(Abs(l), At(l, step.t), At(l', step.t), step.t, Completes(l, step).value, l'.tables.owners);
  }

  lemma HolderIsWriter(l: LState, t: ThreadId)
    requires LockInv(l) && At(l, t).HoldsMap()
    ensures l.mapLock == MapWriting(t) && Writer(l) == At(l, t)
  {
  }

  lemma MatchSkip(l: LState, step: LStep)
    requires LockInv(l) && PointInv(l, At(l, step.t)) && LEnabled(l, step) && step.Work?
    requires At(l, step.t).AllocProbing? && Taken(l.tables.objects.Keys, l.tables.nextId)
    ensures Abs(LNext(l, step)) == Abs(l)
  {
    HolderIsWriter(l, step.t);
    hide LockInv;
    hide AllTaken;
    var p := At(l, step.t);
    var l' := Probe(l, step.t);
    assert LNext(l, step) == l';
    PcsStay(l.points, step.t, p.(probes := p.probes + 1));
    hide SectionPcs;
    assert Writer(l') == p.(probes := p.probes + 1);
  }

  /** The candidate that ends the search is the one the settled registry issues next. */
  lemma AllocationShows(l: LState, step: LStep)
    requires LockInv(l) && PointInv(l, At(l, step.t)) && NULL_HANDLE !in l.tables.objects
    requires At(l, step.t).AllocProbing? && !Taken(l.tables.objects.Keys, l.tables.nextId)
    ensures var s := Abs(l); var p := At(l, step.t);
            && s.tables == l.tables.(nextId := p.start) && s.ticks == l.ticks - p.probes && s.issuer == l.issuer
            && s.log == l.log && s.pcs == SectionPcs(l.points)
            && !s.tables.Full() && s.tables.FreshHandle() == l.tables.nextId && s.tables.Draws() == p.probes + 1
  {
    HolderIsWriter(l, step.t);
    hide LockInv;
    var p := At(l, step.t);
    RoomForOneMore(l.tables.objects.Keys, l.tables.nextId);
    FirstFreeIsUnique(l.tables.objects.Keys, p.start, p.probes);
    hide AllTaken;
    hide SectionPcs;
  }

  lemma SettledAfterInsert(l: LState, t: ThreadId)
    requires At(l, t).AllocProbing? && !Taken(l.tables.objects.Keys, l.tables.nextId)
    ensures var l' := Probe(l, t); var h := l.tables.nextId;
            Abs(l') == State(Tables(Succ(h), l.tables.objects[h := At(l, t).obj], l.tables.owners),
                             SectionPcs(l.points[t := EnlistWait(h)]), l.ticks + 1, l.issuer[h := t],
                             l.log + [Issue(h, t, l.ticks)])
  {
    assert Writer(Probe(l, t)) == Resting;
    hide SectionPcs;
  }

  lemma MatchInsert(l: LState, step: LStep)
    requires LockInv(l) && PointInv(l, At(l, step.t)) && NULL_HANDLE !in l.tables.objects
    requires LEnabled(l, step) && step.Work?
    requires At(l, step.t).AllocProbing? && !Taken(l.tables.objects.Keys, l.tables.nextId)
    ensures Matches(Abs(l), Some(AllocInsert(step.t, At(l, step.t).obj)), Abs(LNext(l, step)))
  {
    assert LNext(l, step) == Probe(l, step.t);
    hide LNext;
    hide LEnabled;
    AllocationShows(l, step);
    SettledAfterInsert(l, step.t);
    PcsAfterMove(l.points, step.t, EnlistWait(l.tables.nextId));
    hide SectionPcs;
    hide LockInv;
    hide Abs;
    hide AllTaken;
    hide Probe;
    assert Succ(l.tables.nextId) == Advance(At(l, step.t).start, At(l, step.t).probes + 1);
  }

  lemma MatchClosing(l: LState, step: LStep)
    requires LockInv(l) && LEnabled(l, step) && step.Work? && At(l, step.t).Closing?
    ensures Matches(Abs(l), Completes(l, step), Abs(LNext(l, step)))
  {
    HolderIsWriter(l, step.t);
    hide LockInv;
    var l' := CloseWork(l, step.t);
    assert LNext(l, step) == l';
    hide LNext;
    hide LEnabled;
    PcsAfterMove(l.points, step.t, At(l', step.t));
    assert Writer(l') == Resting;
    hide Writer;
    hide SectionPcs;
  }

  lemma MatchWriting(l: LState, step: LStep)
    requires LockInv(l) && LEnabled(l, step) && step.Work? && At(l, step.t).Writing?
    ensures Matches(Abs(l), Completes(l, step), Abs(LNext(l, step)))
  {
    HolderIsWriter(l, step.t);
    hide LockInv;
    var l' := ReleaseMap(l.(tables := l.tables.Write(At(l, step.t).h, step.obj)), step.t, Resting);
    assert LNext(l, step) == l';
    hide LNext;
    hide LEnabled;
    PcsAfterMove(l.points, step.t, Resting);
    PcsStay(l.points, step.t, Resting);
    assert Writer(l') == Resting;
    hide Writer;
    hide SectionPcs;
  }

  lemma MatchSweepWork(l: LState, step: LStep)
    requires LockInv(l) && LEnabled(l, step) && step.Work? && At(l, step.t).Sweeping?
    ensures Matches(Abs(l), Completes(l, step), Abs(LNext(l, step)))
  {
    HolderIsWriter(l, step.t);
    hide LockInv;
    PcsAfterMove(l.points, step.t, At(LNext(l, step), step.t));
    hide SectionPcs;
  }

  /** Working on a pair changes nothing but the objects, as others will find them. */
  lemma PairWorkKeepsRest(l: LState, t: ThreadId, obj: MsiObject)
    requires l.mapLock == MapWriting(t) && InPair(At(l, t))
    ensures var l' := PairWork(l, t, obj);
            && l'.points == l.points[t := At(l', t)] && SectionPc(At(l', t)) == Idle
            && l'.tables == l.tables.(objects := l'.tables.objects)
            && l'.issuer == l.issuer && l'.log == l.log && l'.ticks == l.ticks
            && !Writer(l').AllocProbing? && !Writer(l').Sweeping?
  {
  }

  lemma PairWorkFrame(l: LState, step: LStep)
    requires LockInv(l) && LEnabled(l, step) && step.Work? && InPair(At(l, step.t))
    ensures var l' := PairWork(l, step.t, step.obj);
            && LNext(l, step) == l'
            && PcOf(Abs(l).pcs, step.t) == Idle
            && Abs(l') == Abs(l).(tables := Abs(l).tables.(objects := SettledObjects(l'.tables.objects, Writer(l'))))
  {
    HolderIsWriter(l, step.t);
    hide LockInv;
    assert LNext(l, step) == PairWork(l, step.t, step.obj);
    hide LNext;
    hide LEnabled;
    PairWorkKeepsRest(l, step.t, step.obj);
    PcsAfterMove(l.points, step.t, At(l, step.t));
    PcsStay(l.points, step.t, At(PairWork(l, step.t, step.obj), step.t));
    hide PairWork;
    hide SectionPcs;
    hide SettledObjects;
  }

  lemma PairTakesMut(l: LState, t: ThreadId, obj: MsiObject)
    requires l.mapLock == MapWriting(t) && At(l, t).PairStart?
    ensures var l' := PairWork(l, t, obj);
            SettledObjects(l'.tables.objects, Writer(l')) == SettledObjects(l.tables.objects, Writer(l))
  {
  }

  lemma PairTakesRead(l: LState, t: ThreadId, obj: MsiObject)
    requires l.mapLock == MapWriting(t) && PointInv(l, At(l, t)) && At(l, t).PairHasMut?
    ensures var l' := PairWork(l, t, obj);
            SettledObjects(l'.tables.objects, Writer(l')) == SettledObjects(l.tables.objects, Writer(l))
  {
  }

  lemma PairRunsClosure(l: LState, t: ThreadId, obj: MsiObject)
    requires l.mapLock == MapWriting(t) && PointInv(l, At(l, t)) && At(l, t).PairHasBoth?
    ensures var l' := PairWork(l, t, obj); var p := At(l, t);
            var before := SettledObjects(l.tables.objects, Writer(l));
            && p.hm in before && p.hr in before && p.hm != p.hr
            && SettledObjects(l'.tables.objects, Writer(l')) == before[p.hm := obj]
  {
  }

  lemma PairPutsBack(l: LState, t: ThreadId, obj: MsiObject)
    requires l.mapLock == MapWriting(t) && PointInv(l, At(l, t)) && (At(l, t).PairRan? || At(l, t).PairPutBack?)
    ensures var l' := PairWork(l, t, obj);
            SettledObjects(l'.tables.objects, Writer(l')) == SettledObjects(l.tables.objects, Writer(l))
  {
  }

  /** Taking objects out and putting them back is invisible; running the closure
      replaces the mutable object and nothing else. */
  lemma PairWorkSettles(l: LState, t: ThreadId, obj: MsiObject)
    requires l.mapLock == MapWriting(t) && PointInv(l, At(l, t)) && InPair(At(l, t))
    ensures var l' := PairWork(l, t, obj); var p := At(l, t);
            var before := SettledObjects(l.tables.objects, Writer(l));
            var after := SettledObjects(l'.tables.objects, Writer(l'));
            if p.PairHasBoth? then p.hm in before && p.hr in before && p.hm != p.hr && after == before[p.hm := obj]
            else after == before
  {
    var p := At(l, t);
    assert Writer(l) == p;
    if p.PairStart? {
      PairTakesMut(l, t, obj);
    } else if p.PairHasMut? {
      PairTakesRead(l, t, obj);
    } else if p.PairHasBoth? {
      PairRunsClosure(l, t, obj);
    } else {
      PairPutsBack(l, t, obj);
    }
    hide PairWork;
    hide Writer;
    hide SettledObjects;
  }

  /** A pair that is not all there is found out at the first or the second object. */
  lemma MissingFromPair(l: LState, step: LStep)
    requires LockInv(l) && PointInv(l, At(l, step.t)) && LEnabled(l, step) && step.Work?
    requires InPair(At(l, step.t)) && !At(l, step.t).PairHasBoth? && Completes(l, step).Some?
    ensures var sec := Completes(l, step).value;
            && sec == WritePair(step.t, At(l, step.t).hm, At(l, step.t).hr, step.obj)
            && !Abs(l).tables.PairLive(sec.hm, sec.hr)
            && LSeen(l, step) == FoundPair(None)
  {
    HolderIsWriter(l, step.t);
    hide LockInv;
    hide LEnabled;
    hide SectionPcs;
  }

  lemma MatchPairWork(l: LState, step: LStep)
    requires LockInv(l) && PointInv(l, At(l, step.t)) && LEnabled(l, step) && step.Work? && InPair(At(l, step.t))
    ensures Matches(Abs(l), Completes(l, step), Abs(LNext(l, step)))
  {
    HolderIsWriter(l, step.t);
    PairWorkFrame(l, step);
    PairWorkSettles(l, step.t, step.obj);
    if !At(l, step.t).PairHasBoth? && Completes(l, step).Some? {
      MissingFromPair(l, step);
    }
    assert Abs(l).tables.objects == SettledObjects(l.tables.objects, Writer(l));
    hide Abs;
    hide LNext;
    hide LEnabled;
    hide LockInv;
    hide PointInv;
    hide PairWork;
    hide SettledObjects;
    hide Writer;
  }

  lemma ReadingIsQuiet(l: LState, step: LStep)
    requires LockInv(l) && LEnabled(l, step) && step.Work? && At(l, step.t).Reading?
    ensures var l' := LNext(l, step);
            l' == LGoto(l, step.t, Resting).(mapLock := l'.mapLock) && Writer(l) == Resting == Writer(l')
  {
    assert l.mapLock.MapReading?;
    hide LockInv;
  }

  lemma MatchReading(l: LState, step: LStep)
    requires LockInv(l) && LEnabled(l, step) && step.Work? && At(l, step.t).Reading?
    ensures Matches(Abs(l), Completes(l, step), Abs(LNext(l, step)))
  {
    ReadingIsQuiet(l, step);
    hide LockInv;
    hide LNext;
    hide LEnabled;
    hide Writer;
    PcsAfterMove(l.points, step.t, Resting);
    PcsStay(l.points, step.t, Resting);
    hide SectionPcs;
  }

  lemma ProbingSeesNoNull(l: LState, t: ThreadId)
    requires LockInv(l) && At(l, t).AllocProbing? && Inv(Abs(l))
    ensures NULL_HANDLE !in l.tables.objects
  {
    HolderIsWriter(l, t);
    assert Abs(l).tables.objects == l.tables.objects;
  }

  /** Simulation: under the lock discipline, every lock-level step leaves the
      settled state alone or takes it through exactly one critical section. */
  lemma StepMatchesSection(l: LState, step: LStep)
    requires LockInv(l) && WorkInv(l) && Inv(Abs(l)) && LEnabled(l, step)
    ensures Matches(Abs(l), Completes(l, step), Abs(LNext(l, step)))
  {
    var p := At(l, step.t);
    assert PointInv(l, p);
    if step.Begin? {
      MatchBegin(l, step);
    } else if step.AcquireMap? {
      MatchAcquireMap(l, step);
    } else if step.AcquireOwners? {
      MatchAcquireOwners(l, step);
    } else if p.AllocProbing? {
      if Taken(l.tables.objects.Keys, l.tables.nextId) {
        MatchSkip(l, step);
      } else {
        ProbingSeesNoNull(l, step.t);
        MatchInsert(l, step);
      }
    } else if p.HoldsOwners() {
      MatchOwnersWork(l, step);
    } else if p.Reading? {
      MatchReading(l, step);
    } else if p.Closing? {
      MatchClosing(l, step);
    } else if p.Writing? {
      MatchWriting(l, step);
    } else if p.Sweeping? {
      MatchSweepWork(l, step);
    } else {
      MatchPairWork(l, step);
    }
    hide LNext;
    hide Abs;
    hide Matches;
    hide LockInv;
    hide WorkInv;
    hide Inv;
  }

  /** In a section that neither sweeps nor works on a pair, the map is as others will
      find it. */
  lemma SettledAlready(l: LState, t: ThreadId)
    requires LockInv(l) && (At(l, t).HoldsMap() || At(l, t).Reading?)
    requires !At(l, t).Sweeping? && (InPair(At(l, t)) ==> At(l, t).PairStart?)
    ensures Abs(l).tables.objects == l.tables.objects
  {
  }

  lemma PairShows(l: LState, step: LStep)
    requires LockInv(l) && PointInv(l, At(l, step.t)) && LEnabled(l, step) && step.Work? && At(l, step.t).PairHasBoth?
    ensures var p := At(l, step.t); var tables := Abs(l).tables;
            && tables.PairLive(p.hm, p.hr)
            && tables.objects[p.hm] == p.objMut && tables.objects[p.hr] == p.objRead
  {
    HolderIsWriter(l, step.t);
    hide LockInv;
    hide SectionPcs;
  }

  lemma LookupShows(l: LState, step: LStep)
    requires LockInv(l) && LEnabled(l, step) && step.Work?
    requires At(l, step.t).Closing? || At(l, step.t).Reading? || At(l, step.t).Writing?
    requires Enabled(Abs(l), Completes(l, step).value)
    ensures LSeen(l, step) == Seen(Abs(l), Completes(l, step).value)
  {
    SettledAlready(l, step.t);
    hide Abs;
    hide LockInv;
    hide LEnabled;
    hide Enabled;
  }

  lemma SecondHalvesAreSilent(l: LState, step: LStep)
    requires Completes(l, step).None? || !step.Work? || At(l, step.t).HoldsOwners()
    ensures LSeen(l, step) == Silent
    ensures Completes(l, step).Some? ==>
              Completes(l, step).value.AllocEnlist? || Completes(l, step).value.CloseDelist?
              || Completes(l, step).value.SweepTake? || Completes(l, step).value.SweepRemove?
  {
  }

  lemma SectionIsEnabled(l: LState, step: LStep)
    requires LockInv(l) && WorkInv(l) && Inv(Abs(l)) && LEnabled(l, step) && Completes(l, step).Some?
    ensures Enabled(Abs(l), Completes(l, step).value)
  {
    StepMatchesSection(l, step);
    hide LNext;
    hide LEnabled;
    hide Abs;
    hide Enabled;
    hide Next;
  }

  /** What a thread learns at lock level is what the critical section it completes
      shows in the settled registry; other steps show nothing. */
  lemma StepShowsSection(l: LState, step: LStep)
    requires LockInv(l) && WorkInv(l) && Inv(Abs(l)) && LEnabled(l, step)
    ensures match Completes(l, step)
            case None => LSeen(l, step) == Silent
            case Some(sec) => Enabled(Abs(l), sec) && LSeen(l, step) == Seen(Abs(l), sec)
  {
    if Completes(l, step).Some? {
      SectionIsEnabled(l, step);
    }
    var p := At(l, step.t);
    assert PointInv(l, p);
    if Completes(l, step).None? || !step.Work? || p.HoldsOwners() {
      SecondHalvesAreSilent(l, step);
    } else if p.AllocProbing? {
      ProbingSeesNoNull(l, step.t);
      AllocationShows(l, step);
    } else if p.Closing? || p.Reading? || p.Writing? {
      LookupShows(l, step);
    } else if p.PairHasBoth? {
      PairShows(l, step);
    } else {
      MissingFromPair(l, step);
    }
    hide LEnabled;
    hide Abs;
    hide LockInv;
    hide WorkInv;
    hide PointInv;
    hide Inv;
    hide Enabled;
  }
}
