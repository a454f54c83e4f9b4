/** The restore protocol: the RedisRestore reconciler, pod boots consuming the staged payload,
    and drift-repair passes of the sentinel reconciler, interleaved at every external effect.

    A pass of the reconciler reads the persisted status once and then works on its own copy;
    the constructors of `Pc` say which effect comes next. Every status write, file operation
    and command may fail with or without effect, and the operator may die between any two.
 */
module Restore {
  import opened Basics

  const TIMEOUT := 1_800_000       // restoreTimeout, in milliseconds
  const RAISED := 600_000          // quiesceDownAfterMilliseconds
  const DEFAULT_DOWN_AFTER := 5000

  datatype Phase = NoPhase | Pending | Downloading | Restoring | Verifying | Completed | Failed

  predicate Terminal(p: Phase) { p == Completed || p == Failed }

  /** The persisted CR status. `start` is in milliseconds, stored with whole seconds. */
  datatype Status = Status(phase: Phase, start: Option<nat>, breadcrumb: int, replaced: bool, keys: nat, observed: nat)

  /** Spec values that do not change during a run. */
  datatype Config = Config(downAfter: int, replicas: nat, allowed: bool, clusterExists: bool)

  datatype Pc =
    | Idle
    | Write(mem: Status)                                // the status write that ends the pass
    | StageMarker(mem: Status, at: nat)                 // `at`: when this staging began
    | StageMove(mem: Status)
    | Probe(mem: Status)                                // is the payload still there?
    | Breadcrumb(mem: Status)
    | Quiesce(mem: Status, todo: set<Addr>, clean: bool)
    | ShutDown(mem: Status)
    | Verify(mem: Status)
    | EnableAof(mem: Status)
    | Lift(mem: Status, todo: set<Addr>, clean: bool)
    | Sweep(mem: Status, aof: bool, lift: bool)         // failRestore and the destination refusal
    | FailAof(mem: Status, lift: bool)
    | FailLift(mem: Status, todo: set<Addr>, clean: bool)
    | DeleteSweep

  /** A drift-repair pass, and whether it found a restore holding the quiesce. */
  datatype Drift = NoPass | Repairing(quiesced: bool)

  datatype World = World(
    present: bool, deleting: bool, generation: nat, status: Status,
    current: bool,                    // the pass works on the latest version of the object
    pc: Pc, now: nat,
    payload: Option<nat>,           // the run whose payload is staged on the master's volume
    marker: Option<nat>,            // its deadline in seconds since the epoch
    aofOn: bool,
    sentinels: map<Addr, int>,      // down-after-milliseconds of every running sentinel
    drift: Drift,
    run: nat,                       // history: the current run
    stagedAt: Option<nat>,          // history: when the last staging on the volume began (ms)
    loaded: Option<nat>,            // history: the run whose payload was loaded since the last staging
    shutdown: bool, lifted: bool,   // history: this run issued the shutdown, lifted the quiesce
    late: bool,                     // history: a boot found this run's payload past its deadline
    straddled: bool,                // history: the breadcrumb was written under a repair pass begun before it
    lowered: set<Addr>)             // history: sentinels such a pass set back and nobody raised since

  /** How the next effect of a pass turns out. */
  datatype Outcome = Outcome(ok: bool, effect: bool, addr: Addr, keys: nat, finalized: bool)

  datatype Action =
    | Go(o: Outcome)                       // the reconciler's next effect
    | Crash                                // the operator dies
    | Tick(ms: nat)
    | Boot                                 // the master's container starts
    | SpecEdit
    | DeleteRequest
    | DriftBegin
    | DriftSet(addr: Addr, effect: bool)   // the repair of one sentinel's down-after value
    | DriftEnd

  function Seconds(ms: nat): nat { ms / 1000 }

  /** The marker's deadline, in seconds: staging time plus restoreTimeout. */
  function Deadline(at: nat): nat { Seconds(at + TIMEOUT) }

  /** A boot at this instant would find the last staged payload past its deadline. */
  predicate PastDeadline(w: World) { w.stagedAt.Some? && Seconds(w.now) > Deadline(w.stagedAt.value) }

  predicate Expired(w: World, s: Status) {
    s.start.Some? && w.now > s.start.value + TIMEOUT
  }

  /** restoreHoldingQuiesce */
  predicate HoldsQuiesce(w: World) {
    w.present && w.status.breadcrumb != 0 && !Terminal(w.status.phase)
  }

  // ------------------------------------------------------------------ environment

  /** A restarting container takes a staging script running inside it down with it. */
  function Interrupted(pc: Pc): Pc { if pc.StageMarker? || pc.StageMove? then Idle else pc }

  /** The restore branch of the init script. */
  function BootStep(w0: World): World {
    var w := w0.(pc := Interrupted(w0.pc));
    if w.payload.None? then w.(aofOn := true)
    else if w.marker.Some? && Seconds(w.now) <= w.marker.value
    then w.(payload := None, marker := None, aofOn := false, loaded := w.payload)
    else w.(payload := None, marker := None, aofOn := true, late := w.late || w.payload == Some(w.run))
  }

  function Environment(c: Config, w: World, a: Action): World
    requires !a.Go?
  {
    match a
    case Crash => w.(pc := Idle)
    case Tick(ms) => w.(now := w.now + ms)
    case Boot => BootStep(w)
    case SpecEdit => w.(generation := w.generation + 1, current := false)
    case DeleteRequest => w.(deleting := true, current := false)
    case DriftBegin => w.(drift := Repairing(HoldsQuiesce(w)))
    case DriftSet(x, effect) =>
      if w.drift.Repairing? && !w.drift.quiesced && effect && x in w.sentinels
      then w.(sentinels := w.sentinels[x := c.downAfter],
              lowered := if HoldsQuiesce(w) then w.lowered + {x} else w.lowered)
      else w
    case DriftEnd => w.(drift := NoPass)
  }

  // ------------------------------------------------------------------ the reconciler

  /** The start of a pass: Reconcile up to the first effect of the phase handler. */
  function FirstEffect(c: Config, w: World, o: Outcome): Pc {
    var m := w.status;
    if !w.present then Idle
    else if w.deleting then DeleteSweep
    else if Terminal(m.phase) then
      if m.observed == w.generation then Idle
      else Write(Status(Pending, Some(Seconds(w.now) * 1000), 0, false, 0, m.observed))
    else if !c.allowed then Sweep(m, c.clusterExists && m.replaced, false)
    else if !c.clusterExists then Sweep(m, false, false)
    else Handler(w, m, o)
  }

  /** The phase handlers up to their first effect; `o` says how their reads turned out. */
  function Handler(w: World, m: Status, o: Outcome): Pc {
    match m.phase
    case NoPhase => Write(m.(phase := Pending, start := Some(Seconds(w.now) * 1000)))
    case Pending => if o.ok then Write(m.(phase := Downloading)) else if o.effect then FailFrom(m) else Idle
    case Downloading =>
      if o.ok then StageMarker(m, w.now) else if o.effect then FailFrom(m) else Idle
    case Restoring => if Expired(w, m) then FailFrom(m) else if o.ok then Probe(m) else Idle
    case Verifying => if Expired(w, m) then FailFrom(m) else if o.ok then Verify(m) else Idle
    case _ => Idle
  }

  /** failRestore with the cluster at hand. */
  function FailFrom(m: Status): Pc { Sweep(m, m.replaced, m.breadcrumb != 0) }

  /** The write that ends a pass; a write based on a stale version is refused. */
  function WriteStep(w: World, m: Status, o: Outcome): World {
    var idle := w.(pc := Idle);
    if !w.current || !(o.ok || o.effect) then idle
    else if m.phase == Pending
    then idle.(status := m.(observed := w.generation), run := w.run + 1, shutdown := false, lifted := false,
               late := false, straddled := false, lowered := {})
    else idle.(status := m.(observed := w.generation))
  }

  /** stageRestorePayload: the marker first, then the payload renamed into place. */
  function MarkerStep(w: World, m: Status, at: nat, o: Outcome): World {
    var w' := if o.ok || o.effect then w.(marker := Some(Deadline(at)), stagedAt := Some(at)) else w;
    w'.(pc := if o.ok then StageMove(m) else Idle)
  }

  function MoveStep(w: World, m: Status, o: Outcome): World {
    var w' :=
      if o.ok || o.effect
      then w.(payload := Some(w.run), late := false, loaded := if w.loaded == Some(w.run) then None else w.loaded)
      else w;
    w'.(pc := if o.ok then Write(m.(phase := Restoring)) else Idle)
  }

  function ProbeStep(c: Config, w: World, m: Status, o: Outcome): World {
    if !o.ok then w.(pc := Idle)
    else if w.payload.None? then
      if m.breadcrumb == 0 then w.(pc := Write(m.(phase := Downloading)))
      else w.(pc := Write(m.(phase := Verifying, replaced := true)))
    else if m.breadcrumb == 0 then w.(pc := Breadcrumb(m))
    else StartQuiesce(c, w, m)
  }

  /** setSentinelDownAfter with requireAll */
  function StartQuiesce(c: Config, w: World, m: Status): World {
    if |w.sentinels| < c.replicas then w.(pc := Idle) else w.(pc := Quiesce(m, w.sentinels.Keys, true))
  }

  function BreadcrumbStep(c: Config, w: World, m: Status, o: Outcome): World {
    var m' := m.(breadcrumb := if c.downAfter == 0 then DEFAULT_DOWN_AFTER else c.downAfter);
    var w' := w.(status := m', straddled := w.straddled || w.drift == Repairing(false));
    if !w.current || !(o.ok || o.effect) then w.(pc := Idle)
    else if o.ok then StartQuiesce(c, w', m')
    else w'.(pc := Idle)
  }

  /** One SENTINEL SET of a broadcast: the members left, and whether all went well so far. */
  function SetOne(w: World, value: int, o: Outcome): map<Addr, int> {
    if (o.ok || o.effect) && o.addr in w.sentinels then w.sentinels[o.addr := value] else w.sentinels
  }

  function QuiesceStep(w: World, o: Outcome): World
    requires w.pc.Quiesce?
  {
    var Quiesce(m, todo, clean) := w.pc;
    if todo == {} then w.(pc := if clean then ShutDown(m) else Idle)
    else if o.addr !in todo then w
    else w.(sentinels := SetOne(w, RAISED, o), lowered := if o.ok || o.effect then w.lowered - {o.addr} else w.lowered,
            pc := Quiesce(m, todo - {o.addr}, clean && o.ok))
  }

  function VerifyStep(w: World, m: Status, o: Outcome): World {
    if o.ok && o.keys > 0 then w.(pc := EnableAof(m.(keys := o.keys)))
    else if o.ok then w.(pc := FailFrom(m.(keys := 0)))
    else if o.effect then w.(pc := FailFrom(m))  // the pod lost the master role
    else w.(pc := Idle)
  }

  function EnableAofStep(w: World, m: Status, o: Outcome): World {
    if o.ok then w.(aofOn := true, lifted := true, pc := Lift(m, w.sentinels.Keys, true))
    else w.(aofOn := w.aofOn || o.effect, pc := Idle)
  }

  function LiftStep(w: World, o: Outcome): World
    requires w.pc.Lift?
  {
    var Lift(m, todo, clean) := w.pc;
    if todo == {} then w.(pc := if clean then Write(m.(phase := Completed, breadcrumb := 0)) else Idle)
    else if o.addr !in todo then w
    else w.(sentinels := SetOne(w, m.breadcrumb, o), pc := Lift(m, todo - {o.addr}, clean && o.ok))
  }

  /** rm -f of payload and marker, in that order, where the pod can be reached. */
  function Swept(w: World, o: Outcome): World {
    if o.ok then w.(payload := None, marker := None) else if o.effect then w.(payload := None) else w
  }

  function FailNext(w: World, m: Status, lift: bool): World {
    if lift then w.(lifted := true, pc := FailLift(m, w.sentinels.Keys, true)) else w.(pc := Write(m.(phase := Failed)))
  }

  function FailLiftStep(w: World, o: Outcome): World
    requires w.pc.FailLift?
  {
    var FailLift(m, todo, clean) := w.pc;
    if todo == {} then w.(pc := Write(m.(phase := Failed, breadcrumb := if clean then 0 else m.breadcrumb)))
    else if o.addr !in todo then w
    else w.(sentinels := SetOne(w, m.breadcrumb, o), pc := FailLift(m, todo - {o.addr}, clean && o.ok))
  }

  function Continue(c: Config, w: World, o: Outcome): World {
    match w.pc
    case Idle => w.(current := true, pc := FirstEffect(c, w, o))
    case Write(m) => WriteStep(w, m, o)
    case StageMarker(m, at) => MarkerStep(w, m, at, o)
    case StageMove(m) => MoveStep(w, m, o)
    case Probe(m) => ProbeStep(c, w, m, o)
    case Breadcrumb(m) => BreadcrumbStep(c, w, m, o)
    case Quiesce(_, _, _) => QuiesceStep(w, o)
    case ShutDown(_) => w.(shutdown := true, pc := Idle)
    case Verify(m) => VerifyStep(w, m, o)
    case EnableAof(m) => EnableAofStep(w, m, o)
    case Lift(_, _, _) => LiftStep(w, o)
    case Sweep(m, aof, lift) =>
      if aof then Swept(w, o).(pc := FailAof(m, lift)) else FailNext(Swept(w, o), m, lift)
    case FailAof(m, lift) => FailNext(w.(aofOn := w.aofOn || o.ok || o.effect), m, lift)
    case FailLift(_, _, _) => FailLiftStep(w, o)
    case DeleteSweep =>
      var w' := Swept(w, o).(pc := Idle);
      if w.current && o.finalized then w'.(present := false) else w'
  }

  function Step(c: Config, w: World, a: Action): World {
    if a.Go? then Continue(c, w, a.o) else Environment(c, w, a)
  }

  function Run(c: Config, w: World, acts: seq<Action>): World
    decreases |acts|
  {
    if acts == [] then w else Step(c, Run(c, w, acts[..|acts| - 1]), acts[|acts| - 1])
  }

  /** A RedisRestore nobody has reconciled yet. The volume may hold a payload of an earlier
      restore, as long as the marker staged with it is beside it. */
  ghost predicate Initial(w: World) {
    && w.status == Status(NoPhase, None, 0, false, 0, 0)
    && w.pc == Idle && w.drift == NoPass
    && (w.payload.Some? ==> w.payload.value <= w.run && w.marker.Some?)
    && (w.marker.Some? ==> w.stagedAt.Some? && w.marker.value == Deadline(w.stagedAt.value))
    && w.loaded == None && !w.shutdown && !w.lifted && !w.late && !w.straddled && w.lowered == {}
  }

  // ------------------------------------------------------------------ the phase invariant

  predicate Untouched(p: Phase) { p == NoPhase || p == Pending || p == Downloading }

  /** What a status of each phase says. */
  ghost predicate StatusOk(s: Status) {
    && (Untouched(s.phase) || s.phase == Restoring ==> !s.replaced)
    && (Untouched(s.phase) ==> s.breadcrumb == 0)
    && (s.phase == Verifying ==> s.replaced && s.breadcrumb != 0)
    && (s.phase == Completed ==> s.replaced && s.breadcrumb == 0 && s.keys > 0)
    && (s.phase != NoPhase && !Terminal(s.phase) ==> s.start.Some?)
  }

  /** The copy a failing pass works on differs from the persisted status in the key count only. */
  ghost predicate FailingFrom(m: Status, s: Status) {
    m == s.(keys := m.keys) && !Terminal(s.phase)
  }

  /** What the status about to be written has to do with the persisted one. */
  ghost predicate WriteOk(m: Status, s: Status, generation: nat) {
    && StatusOk(m)
    && (m.phase != Pending ==> m.start == s.start && (m.replaced == s.replaced || m.phase == Verifying))
    && (m.phase != Pending && !Terminal(m.phase) ==> m.breadcrumb == s.breadcrumb)
    && match m.phase
       case NoPhase => false
       case Pending => s.phase == NoPhase || (Terminal(s.phase) && s.observed < generation)
       case Downloading => s.phase == Pending || s.phase == Restoring
       case Restoring => s.phase == Downloading
       case Verifying => s.phase == Restoring
       case Completed => s.phase == Verifying
       case Failed => !Terminal(s.phase)
  }

  /** What the pass's own copy has to do with the persisted status. */
  ghost predicate PcOk(pc: Pc, s: Status, generation: nat, deleting: bool) {
    match pc
    case Idle => true
    case DeleteSweep => deleting
    case Write(m) => WriteOk(m, s, generation)
    case StageMarker(m, _) => m == s && s.phase == Downloading
    case StageMove(m) => m == s && s.phase == Downloading
    case Probe(m) => m == s && s.phase == Restoring
    case Breadcrumb(m) => m == s && s.phase == Restoring && s.breadcrumb == 0
    case Quiesce(m, _, _) => m == s && s.phase == Restoring && s.breadcrumb != 0
    case ShutDown(m) => m == s && s.phase == Restoring && s.breadcrumb != 0
    case Verify(m) => m == s && s.phase == Verifying
    case EnableAof(m) => m == s.(keys := m.keys) && s.phase == Verifying && m.keys > 0
    case Lift(m, _, _) => m == s.(keys := m.keys) && s.phase == Verifying && m.keys > 0
    case Sweep(m, _, lift) => FailingFrom(m, s) && (lift ==> s.breadcrumb != 0)
    case FailAof(m, lift) => FailingFrom(m, s) && (lift ==> s.breadcrumb != 0)
    case FailLift(m, _, _) => FailingFrom(m, s) && s.breadcrumb != 0
  }

  // ------------------------------------------------------------------ the whole invariant

  /** What became of the run's payload: it was loaded, unless a boot found it past its deadline. */
  ghost predicate Consumed(w: World) {
    w.payload == None && (w.loaded == Some(w.run) <==> !w.late) && (w.late ==> PastDeadline(w))
  }

  ghost predicate Kept(w: World) { w.payload == Some(w.run) || Consumed(w) }

  /** The marker on the volume outlives the run that staged the payload. */
  ghost predicate Covers(stagedAt: Option<nat>, s: Status) {
    stagedAt.Some? && s.start.Some? && s.start.value <= stagedAt.value
  }

  /** Enough sentinels run, and all keep the raised value but those a straddling pass set back. */
  ghost predicate AllRaised(c: Config, w: World) {
    |w.sentinels| >= c.replicas && forall a :: a in w.sentinels && a !in w.lowered ==> w.sentinels[a] == RAISED
  }

  /** A run is only swept once it can go no further. */
  ghost predicate Over(c: Config, w: World) { Expired(w, w.status) || !c.allowed || !c.clusterExists }

  ghost predicate VolumeInv(c: Config, w: World) {
    && (w.payload.Some? ==> w.payload.value <= w.run && w.marker.Some?)
    && (w.marker.Some? ==> w.stagedAt.Some? && w.marker.value == Deadline(w.stagedAt.value))
    && (w.status.start.Some? ==> w.status.start.value <= w.now)
    && (w.payload == Some(w.run) && w.status.phase != NoPhase && !Terminal(w.status.phase) ==>
      Covers(w.stagedAt, w.status))
    && (w.status.phase == Restoring ==> Kept(w) || Over(c, w) || w.deleting)
    && (w.status.replaced ==> Consumed(w))
    && (w.loaded.Some? ==> w.loaded.value <= w.run)
    && (w.payload == Some(w.run) && w.status.phase != NoPhase && !Terminal(w.status.phase) ==>
          w.loaded != Some(w.run) && !w.late)
    && (w.status.phase == Completed ==> w.aofOn)
  }

  ghost predicate QuiesceInv(c: Config, w: World) {
    && (!w.straddled ==> w.lowered == {} && (HoldsQuiesce(w) ==> w.drift.NoPass? || w.drift.quiesced))
    && (w.status.breadcrumb == 0 && !Terminal(w.status.phase) ==> w.lowered == {})
    && (HoldsQuiesce(w) && !w.lifted ==> forall a :: a in w.lowered ==>
      a in w.sentinels && w.sentinels[a] == c.downAfter)
    && (w.shutdown && !w.lifted && !Terminal(w.status.phase) ==> w.status.breadcrumb != 0)
    && (w.shutdown && !w.lifted && HoldsQuiesce(w) ==> AllRaised(c, w))
    && (w.lifted && w.status.phase == Restoring ==> Expired(w, w.status))
    && (w.lifted && !Terminal(w.status.phase) ==> w.status.breadcrumb != 0)
  }

  ghost predicate PassInv(c: Config, w: World) {
    && (w.pc != Idle ==> w.present)
    && match w.pc
    case Idle => true
    case DeleteSweep => true
    case Write(m) =>
      && (m.start.Some? ==> m.start.value <= w.now)
      && (m.phase == Restoring ==> Kept(w))
      && (m.phase == Verifying ==> Consumed(w))
      && (m.phase == Completed ==> w.aofOn)
      && (m.phase == Downloading ==> !w.lifted)
    case StageMarker(m, d) => Covers(Some(d), m)
    case StageMove(m) => Covers(w.stagedAt, m) && w.marker.Some?
    case Probe(_) => Kept(w) && !w.lifted
    case Breadcrumb(_) => !w.lifted
    case Quiesce(_, todo, clean) =>
      && !w.lifted && |w.sentinels| >= c.replicas
      && (clean ==> forall a :: a in w.sentinels && a !in todo && a !in w.lowered ==> w.sentinels[a] == RAISED)
    case ShutDown(_) => !w.lifted && AllRaised(c, w)
    case Verify(_) => true
    case EnableAof(_) => true
    case Lift(_, _, _) => w.aofOn && w.lifted
    case Sweep(_, _, lift) =>
      w.status.phase == Restoring ==> Over(c, w) && (lift ==> Expired(w, w.status))
    case FailAof(_, lift) =>
      w.status.phase == Restoring ==> Over(c, w) && (lift ==> Expired(w, w.status))
    case FailLift(_, _, _) => w.lifted
  }

  ghost predicate Inv(c: Config, w: World) {
    && StatusOk(w.status) && w.status.observed <= w.generation
    && PcOk(w.pc, w.status, w.generation, w.deleting)
    && VolumeInv(c, w) && QuiesceInv(c, w) && PassInv(c, w)
  }

  lemma InitialInv(c: Config, w: World)
    requires Initial(w)
    ensures Inv(c, w)
  {
  }

  /** A step that only moves on to its next effect. */
  lemma Proceed(c: Config, w: World, pc: Pc)
    requires Inv(c, w) && (pc != Idle ==> w.present)
    requires PcOk(pc, w.status, w.generation, w.deleting) && PassInv(c, w.(pc := pc))
    ensures Inv(c, w.(pc := pc))
  {
  }

  lemma StopKeepsInv(c: Config, w: World)
    requires Inv(c, w)
    ensures Inv(c, w.(pc := Idle))
  {
    Proceed(c, w, Idle);
  }

  lemma AofKeepsInv(c: Config, w: World)
    requires Inv(c, w)
    ensures Inv(c, w.(aofOn := true))
  {
  }

  lemma LiftingKeepsInv(c: Config, w: World)
    requires Inv(c, w) && (w.pc.EnableAof? || w.pc.Sweep? || w.pc.FailAof?)
    requires w.status.breadcrumb != 0 && (w.status.phase == Restoring ==> Expired(w, w.status))
    ensures Inv(c, w.(lifted := true))
  {
  }

  lemma SweepKeepsInv(c: Config, w: World, o: Outcome)
    requires Inv(c, w) && (w.pc.Sweep? || w.pc.DeleteSweep?)
    ensures Inv(c, Swept(w, o)) && Swept(w, o).pc == w.pc
  {
    PayloadRemoved(c, w);
    MarkerRemoved(c, w.(payload := None));
    hide Inv;
  }

  lemma PayloadRemoved(c: Config, w: World)
    requires Inv(c, w) && (w.pc.Sweep? || w.pc.DeleteSweep?)
    ensures Inv(c, w.(payload := None))
  {
  }

  lemma MarkerRemoved(c: Config, w: World)
    requires Inv(c, w) && w.payload.None? && (w.pc.Sweep? || w.pc.DeleteSweep?)
    ensures Inv(c, w.(marker := None))
  {
  }

  lemma SentinelsAfterLifting(c: Config, w: World, value: int, o: Outcome)
    requires Inv(c, w) && w.lifted && (w.pc.Lift? || w.pc.FailLift?)
    ensures Inv(c, w.(sentinels := SetOne(w, value, o)))
  {
  }

  lemma LoadKeepsInv(c: Config, w: World)
    requires Inv(c, w) && !w.pc.StageMarker? && !w.pc.StageMove?
    requires w.payload.Some? && w.marker.Some? && Seconds(w.now) <= w.marker.value
    ensures Inv(c, w.(payload := None, marker := None, aofOn := false, loaded := w.payload))
  {
    assert w.status.phase == Restoring || w.pc.Probe? || (w.pc.Write? && w.pc.mem.phase == Restoring) ==>
      Kept(w) ==> Kept(w.(payload := None, marker := None, aofOn := false, loaded := w.payload));
  }

  lemma DiscardKeepsInv(c: Config, w: World)
    requires Inv(c, w) && !w.pc.StageMarker? && !w.pc.StageMove?
    requires w.payload.Some? && !(w.marker.Some? && Seconds(w.now) <= w.marker.value)
    ensures Inv(c, w.(payload := None, marker := None, late := w.late || w.payload == Some(w.run)))
  {
    var w' := w.(payload := None, marker := None, late := w.late || w.payload == Some(w.run));
    assert w.status.phase != NoPhase && !Terminal(w.status.phase) && Kept(w) ==> Kept(w');
  }

  lemma BootKeepsInv(c: Config, w0: World)
    requires Inv(c, w0)
    ensures Inv(c, BootStep(w0))
  {
    hide Inv, PassInv, PcOk, Seconds;
    StopKeepsInv(c, w0);
    VolumeBoot(c, w0.(pc := Interrupted(w0.pc)));
  }

  lemma VolumeBoot(c: Config, w: World)
    requires Inv(c, w) && !w.pc.StageMarker? && !w.pc.StageMove?
    ensures Inv(c, BootStep(w))
  {
    assert w.(pc := Interrupted(w.pc)) == w;
    hide Inv, PassInv, PcOk, Interrupted;
    if w.payload.None? {
      AofKeepsInv(c, w);
    } else if w.marker.Some? && Seconds(w.now) <= w.marker.value {
      LoadKeepsInv(c, w);
    } else {
      DiscardKeepsInv(c, w);
      AofKeepsInv(c, w.(payload := None, marker := None, late := w.late || w.payload == Some(w.run)));
    }
  }

  lemma TickKeepsInv(c: Config, w: World, ms: nat)
    requires Inv(c, w)
    ensures Inv(c, w.(now := w.now + ms))
  {
  }

  lemma EditKeepsInv(c: Config, w: World, generation: nat, deleting: bool)
    requires Inv(c, w) && w.generation <= generation && (w.deleting ==> deleting)
    ensures Inv(c, w.(generation := generation, deleting := deleting, current := false))
  {
    var w' := w.(generation := generation, deleting := deleting, current := false);
    assert VolumeInv(c, w') && QuiesceInv(c, w');
    hide VolumeInv, QuiesceInv, StatusOk;
    assert PassInv(c, w');
    hide PassInv;
  }

  lemma PassBeginsKeepsInv(c: Config, w: World)
    requires Inv(c, w)
    ensures Inv(c, w.(drift := Repairing(HoldsQuiesce(w))))
  {
  }

  lemma PassEndsKeepsInv(c: Config, w: World)
    requires Inv(c, w)
    ensures Inv(c, w.(drift := NoPass))
  {
  }

  /** Drift repair leaves the raised values alone while the restore holds the quiesce, unless the
      pass began before the breadcrumb was written. */
  lemma RepairKeepsInv(c: Config, w: World, x: Addr)
    requires Inv(c, w) && w.drift.Repairing? && !w.drift.quiesced && x in w.sentinels
    ensures Inv(c, w.(sentinels := w.sentinels[x := c.downAfter],
                      lowered := if HoldsQuiesce(w) then w.lowered + {x} else w.lowered))
  {
    assert w.sentinels[x := c.downAfter].Keys == w.sentinels.Keys;
  }

  lemma EnvironmentKeepsInv(c: Config, w: World, a: Action)
    requires Inv(c, w) && !a.Go?
    ensures Inv(c, Environment(c, w, a))
  {
    hide Inv, PassInv, PcOk;
    match a
    case Crash => StopKeepsInv(c, w);
    case Tick(ms) => TickKeepsInv(c, w, ms);
    case Boot => BootKeepsInv(c, w);
    case SpecEdit => EditKeepsInv(c, w, w.generation + 1, w.deleting);
    case DeleteRequest => EditKeepsInv(c, w, w.generation, true);
    case DriftBegin => PassBeginsKeepsInv(c, w);
    case DriftSet(x, effect) =>
      if w.drift.Repairing? && !w.drift.quiesced && effect && x in w.sentinels { RepairKeepsInv(c, w, x); }
    case DriftEnd => PassEndsKeepsInv(c, w);
  }

  lemma LiftedIsExpired(c: Config, w: World)
    requires Inv(c, w) && w.lifted && !Terminal(w.status.phase)
    ensures w.status.breadcrumb != 0 && (w.status.phase == Restoring ==> Expired(w, w.status))
  {
  }

  /** What is about to be done fits the status the pass has read. */
  lemma HandlerFits(c: Config, w: World, o: Outcome)
    requires Inv(c, w) && w.pc == Idle && w.present && !w.deleting && !Terminal(w.status.phase)
    requires c.allowed && c.clusterExists
    ensures PcOk(Handler(w, w.status, o), w.status, w.generation, w.deleting)
    ensures PassInv(c, w.(pc := Handler(w, w.status, o)))
  {
    if w.lifted { LiftedIsExpired(c, w); }
    hide QuiesceInv, Consumed, PastDeadline;
  }

  lemma CurrentKeepsInv(c: Config, w: World)
    requires Inv(c, w)
    ensures Inv(c, w.(current := true))
  {
  }

  lemma RefusalFits(c: Config, w: World, o: Outcome)
    requires Inv(c, w) && w.pc == Idle
    requires !w.present || w.deleting || Terminal(w.status.phase) || !c.allowed || !c.clusterExists
    ensures FirstEffect(c, w, o) != Idle ==> w.present
    ensures PcOk(FirstEffect(c, w, o), w.status, w.generation, w.deleting)
    ensures PassInv(c, w.(pc := FirstEffect(c, w, o)))
  {
    hide Handler, VolumeInv, QuiesceInv, Consumed, PastDeadline;
  }

  lemma FirstEffectKeepsInv(c: Config, w: World, o: Outcome)
    requires Inv(c, w) && w.pc == Idle
    ensures Inv(c, w.(current := true, pc := FirstEffect(c, w, o)))
  {
    var w' := w.(current := true);
    CurrentKeepsInv(c, w);
    assert FirstEffect(c, w', o) == FirstEffect(c, w, o);
    if w.present && !w.deleting && !Terminal(w.status.phase) && c.allowed && c.clusterExists {
      HandlerFits(c, w', o);
    } else {
      RefusalFits(c, w', o);
    }
    assert PcOk(FirstEffect(c, w, o), w.status, w.generation, w.deleting) &&
      PassInv(c, w'.(pc := FirstEffect(c, w, o)));
    hide FirstEffect, Handler, Inv, PcOk, PassInv;
    Proceed(c, w', FirstEffect(c, w, o));
  }

  lemma NewRunKeepsInv(c: Config, w: World, m: Status)
    requires Inv(c, w) && w.pc == Write(m) && m.phase == Pending
    ensures Inv(c, w.(pc := Idle, status := m.(observed := w.generation), run := w.run + 1,
                      shutdown := false, lifted := false, late := false,
                      straddled := false, lowered := {}))
  {
  }

  lemma NextPhaseKeepsInv(c: Config, w: World, m: Status)
    requires Inv(c, w) && w.pc == Write(m) && m.phase != Pending
    ensures Inv(c, w.(pc := Idle, status := m.(observed := w.generation)))
  {
  }

  lemma WriteKeepsInv(c: Config, w: World, m: Status, o: Outcome)
    requires Inv(c, w) && w.pc == Write(m)
    ensures Inv(c, WriteStep(w, m, o))
  {
    hide Inv;
    if !w.current || !(o.ok || o.effect) {
      StopKeepsInv(c, w);
    } else if m.phase == Pending {
      NewRunKeepsInv(c, w, m);
    } else {
      NextPhaseKeepsInv(c, w, m);
    }
  }

  lemma MarkerKeepsInv(c: Config, w: World, m: Status, d: nat, o: Outcome)
    requires Inv(c, w) && w.pc == StageMarker(m, d)
    ensures Inv(c, MarkerStep(w, m, d, o))
  {
  }

  lemma MoveKeepsInv(c: Config, w: World, m: Status, o: Outcome)
    requires Inv(c, w) && w.pc == StageMove(m)
    ensures Inv(c, MoveStep(w, m, o))
  {
  }

  lemma StartQuiesceKeepsInv(c: Config, w: World, m: Status)
    requires Inv(c, w) && !w.lifted && w.present
    requires m == w.status && m.phase == Restoring && m.breadcrumb != 0
    ensures Inv(c, StartQuiesce(c, w, m))
  {
    hide VolumeInv, QuiesceInv, StatusOk;
    if |w.sentinels| < c.replicas {
      Proceed(c, w, Idle);
    } else {
      Proceed(c, w, Quiesce(m, w.sentinels.Keys, true));
    }
  }

  lemma AbsentKeepsInv(c: Config, w: World, m: Status)
    requires Inv(c, w) && w.pc == Probe(m) && w.payload.None?
    ensures Inv(c, ProbeStep(c, w, m, Outcome(true, true, "", 0, false)))
  {
    hide QuiesceInv;
    if m.breadcrumb != 0 {
      Proceed(c, w, Write(m.(phase := Verifying, replaced := true)));
    } else {
      Proceed(c, w, Write(m.(phase := Downloading)));
    }
  }

  lemma PresentKeepsInv(c: Config, w: World, m: Status)
    requires Inv(c, w) && w.pc == Probe(m) && w.payload.Some?
    ensures Inv(c, ProbeStep(c, w, m, Outcome(true, true, "", 0, false)))
  {
    hide VolumeInv, QuiesceInv;
    if m.breadcrumb == 0 {
      Proceed(c, w, Breadcrumb(m));
    } else {
      StartQuiesceKeepsInv(c, w, m);
    }
  }

  lemma ProbeKeepsInv(c: Config, w: World, m: Status, o: Outcome)
    requires Inv(c, w) && w.pc == Probe(m)
    ensures Inv(c, ProbeStep(c, w, m, o))
  {
    hide Inv;
    if !o.ok {
      StopKeepsInv(c, w);
    } else if w.payload.None? {
      AbsentKeepsInv(c, w, m);
    } else {
      PresentKeepsInv(c, w, m);
    }
  }

  lemma BreadcrumbWritten(c: Config, w: World, m: Status, value: int)
    requires Inv(c, w) && w.pc == Breadcrumb(m) && value != 0
    ensures
      var straddled := w.straddled || w.drift == Repairing(false);
      Inv(c, w.(status := m.(breadcrumb := value), straddled := straddled, pc := Idle))
  {
  }

  lemma BreadcrumbKeepsInv(c: Config, w: World, m: Status, o: Outcome)
    requires Inv(c, w) && w.pc == Breadcrumb(m)
    ensures Inv(c, BreadcrumbStep(c, w, m, o))
  {
    hide VolumeInv, QuiesceInv;
    var m' := m.(breadcrumb := if c.downAfter == 0 then DEFAULT_DOWN_AFTER else c.downAfter);
    var w' := w.(status := m', straddled := w.straddled || w.drift == Repairing(false), pc := Idle);
    Proceed(c, w, Idle);
    BreadcrumbWritten(c, w, m, m'.breadcrumb);
    StartQuiesceKeepsInv(c, w', m');
  }

  /** Raising one more sentinel changes nothing but that sentinel. */
  lemma RaiseKeepsInv(c: Config, w: World, o: Outcome)
    requires Inv(c, w) && w.pc.Quiesce? && o.addr in w.pc.todo
    ensures Inv(c, QuiesceStep(w, o))
  {
    var w' := QuiesceStep(w, o);
    assert w'.sentinels.Keys == w.sentinels.Keys;
    assert |w'.sentinels| == |w'.sentinels.Keys| && |w.sentinels| == |w.sentinels.Keys|;
    assert AllRaised(c, w) ==> AllRaised(c, w');
    assert VolumeInv(c, w') && StatusOk(w'.status);
    hide VolumeInv, StatusOk;
    assert PassInv(c, w');
    hide PassInv;
  }

  lemma QuiesceKeepsInv(c: Config, w: World, o: Outcome)
    requires Inv(c, w) && w.pc.Quiesce?
    ensures Inv(c, QuiesceStep(w, o))
  {
    hide VolumeInv, QuiesceInv;
    var Quiesce(m, todo, clean) := w.pc;
    if todo == {} {
      Proceed(c, w, if clean then ShutDown(m) else Idle);
    } else if o.addr in todo {
      RaiseKeepsInv(c, w, o);
    }
  }

  lemma ShutDownKeepsInv(c: Config, w: World)
    requires Inv(c, w) && w.pc.ShutDown?
    ensures Inv(c, w.(shutdown := true, pc := Idle))
  {
  }

  lemma VerifyKeepsInv(c: Config, w: World, m: Status, o: Outcome)
    requires Inv(c, w) && w.pc == Verify(m)
    ensures Inv(c, VerifyStep(w, m, o))
  {
    hide VolumeInv, QuiesceInv;
    if o.ok && o.keys > 0 {
      Proceed(c, w, EnableAof(m.(keys := o.keys)));
    } else if o.ok {
      Proceed(c, w, FailFrom(m.(keys := 0)));
    } else if o.effect {
      Proceed(c, w, FailFrom(m));
    } else {
      Proceed(c, w, Idle);
    }
  }

  lemma EnableAofKeepsInv(c: Config, w: World, m: Status, o: Outcome)
    requires Inv(c, w) && w.pc == EnableAof(m)
    ensures Inv(c, EnableAofStep(w, m, o))
  {
    hide VolumeInv, QuiesceInv;
    AofKeepsInv(c, w);
    LiftingKeepsInv(c, w.(aofOn := true));
    var w' := w.(aofOn := true, lifted := true);
    Proceed(c, w', Lift(m, w.sentinels.Keys, true));
    Proceed(c, w.(aofOn := true), Idle);
    Proceed(c, w, Idle);
  }

  lemma LiftKeepsInv(c: Config, w: World, o: Outcome)
    requires Inv(c, w) && w.pc.Lift?
    ensures Inv(c, LiftStep(w, o))
  {
    hide QuiesceInv;
    var Lift(m, todo, clean) := w.pc;
    if todo == {} {
      Proceed(c, w, LiftStep(w, o).pc);
    } else if o.addr in todo {
      SentinelsAfterLifting(c, w, m.breadcrumb, o);
      Proceed(c, w.(sentinels := SetOne(w, m.breadcrumb, o)), LiftStep(w, o).pc);
    }
  }

  lemma FailLiftKeepsInv(c: Config, w: World, o: Outcome)
    requires Inv(c, w) && w.pc.FailLift?
    ensures Inv(c, FailLiftStep(w, o))
  {
    hide VolumeInv, QuiesceInv;
    var FailLift(m, todo, clean) := w.pc;
    if todo == {} {
      FailedWrite(c, w, m, if clean then 0 else m.breadcrumb);
    } else if o.addr in todo {
      SentinelsAfterLifting(c, w, m.breadcrumb, o);
      Proceed(c, w.(sentinels := SetOne(w, m.breadcrumb, o)), FailLiftStep(w, o).pc);
    }
  }

  lemma FailedWrite(c: Config, w: World, m: Status, breadcrumb: int)
    requires Inv(c, w) && FailingFrom(m, w.status) && w.present
    ensures Inv(c, w.(pc := Write(m.(phase := Failed, breadcrumb := breadcrumb))))
  {
    hide QuiesceInv;
    Proceed(c, w, Write(m.(phase := Failed, breadcrumb := breadcrumb)));
  }

  lemma FailNextKeepsInv(c: Config, w: World, m: Status, lift: bool)
    requires Inv(c, w) && FailingFrom(m, w.status) &&
      (w.pc == FailAof(m, lift) || (w.pc.Sweep? && w.pc.mem == m && w.pc.lift == lift))
    ensures Inv(c, FailNext(w, m, lift))
  {
    hide VolumeInv, QuiesceInv;
    if lift {
      LiftingKeepsInv(c, w);
      FailLiftBegins(c, w.(lifted := true), m);
    } else {
      FailedWrite(c, w, m, m.breadcrumb);
    }
  }

  lemma FailLiftBegins(c: Config, w: World, m: Status)
    requires Inv(c, w) && w.lifted && w.present && FailingFrom(m, w.status) && w.status.breadcrumb != 0
    ensures Inv(c, w.(pc := FailLift(m, w.sentinels.Keys, true)))
  {
    hide VolumeInv, QuiesceInv;
    Proceed(c, w, FailLift(m, w.sentinels.Keys, true));
  }

  lemma FailAofKeepsInv(c: Config, w: World, o: Outcome)
    requires Inv(c, w) && w.pc.FailAof?
    ensures Inv(c, Continue(c, w, o))
  {
    hide VolumeInv, QuiesceInv;
    AofKeepsInv(c, w);
    FailNextKeepsInv(c, w, w.pc.mem, w.pc.lift);
    FailNextKeepsInv(c, w.(aofOn := true), w.pc.mem, w.pc.lift);
  }

  lemma SweepStepKeepsInv(c: Config, w: World, o: Outcome)
    requires Inv(c, w) && w.pc.Sweep?
    ensures Inv(c, Continue(c, w, o))
  {
    hide VolumeInv, QuiesceInv;
    SweepKeepsInv(c, w, o);
    var Sweep(m, aof, lift) := w.pc;
    if aof {
      Proceed(c, Swept(w, o), FailAof(m, lift));
    } else {
      FailNextKeepsInv(c, Swept(w, o), m, lift);
    }
  }

  lemma GoneKeepsInv(c: Config, w: World)
    requires Inv(c, w) && w.pc == Idle
    ensures Inv(c, w.(present := false))
  {
  }

  lemma DeletionKeepsInv(c: Config, w: World, o: Outcome)
    requires Inv(c, w) && w.pc.DeleteSweep?
    ensures Inv(c, Continue(c, w, o))
  {
    hide VolumeInv, QuiesceInv;
    SweepKeepsInv(c, w, o);
    Proceed(c, Swept(w, o), Idle);
    GoneKeepsInv(c, Swept(w, o).(pc := Idle));
  }

  lemma StepKeepsInv(c: Config, w: World, a: Action)
    requires Inv(c, w)
    ensures Inv(c, Step(c, w, a))
  {
    hide Inv;
    if !a.Go? {
      EnvironmentKeepsInv(c, w, a);
    } else {
      match w.pc
      case Idle => FirstEffectKeepsInv(c, w, a.o);
      case Write(m) => WriteKeepsInv(c, w, m, a.o);
      case StageMarker(m, d) => MarkerKeepsInv(c, w, m, d, a.o);
      case StageMove(m) => MoveKeepsInv(c, w, m, a.o);
      case Probe(m) => ProbeKeepsInv(c, w, m, a.o);
      case Breadcrumb(m) => BreadcrumbKeepsInv(c, w, m, a.o);
      case Quiesce(_, _, _) => QuiesceKeepsInv(c, w, a.o);
      case ShutDown(_) => ShutDownKeepsInv(c, w);
      case Verify(m) => VerifyKeepsInv(c, w, m, a.o);
      case EnableAof(m) => EnableAofKeepsInv(c, w, m, a.o);
      case Lift(_, _, _) => LiftKeepsInv(c, w, a.o);
      case Sweep(_, _, _) => SweepStepKeepsInv(c, w, a.o);
      case FailAof(_, _) => FailAofKeepsInv(c, w, a.o);
      case FailLift(_, _, _) => FailLiftKeepsInv(c, w, a.o);
      case DeleteSweep => DeletionKeepsInv(c, w, a.o);
    }
  }

  lemma {:induction false} RunKeepsInv(c: Config, w: World, acts: seq<Action>)
    requires Inv(c, w)
    ensures Inv(c, Run(c, w, acts))
    decreases |acts|
  {
    if acts != [] {
      RunKeepsInv(c, w, acts[..|acts| - 1]);
      StepKeepsInv(c, Run(c, w, acts[..|acts| - 1]), acts[|acts| - 1]);
    }
  }

  ghost predicate Reaches(c: Config, w: World, w': World) {
    exists acts: seq<Action> :: Run(c, w, acts) == w'
  }

  lemma ReachStep(c: Config, w0: World, w: World, a: Action)
    requires Reaches(c, w0, w)
    ensures Reaches(c, w0, Step(c, w, a))
  {
    var acts :| Run(c, w0, acts) == w;
    assert (acts + [a])[..|acts|] == acts;
    assert Run(c, w0, acts + [a]) == Step(c, w, a);
  }

  lemma ReachableInv(c: Config, w0: World, w: World)
    requires Initial(w0) && Reaches(c, w0, w)
    ensures Inv(c, w)
  {
    var acts :| Run(c, w0, acts) == w;
    InitialInv(c, w0);
    RunKeepsInv(c, w0, acts);
  }

  // ------------------------------------------------------------------ the main results

  /** Whatever interleaving and whatever fails: each persisted phase says exactly how far the run
      has touched the dataset. A status that says "replaced" tells the truth exactly when no boot
      came upon this run's payload after its deadline; and a completed restore has AOF back on
      and nothing left staged. */
  lemma PersistedPhasesTellTheTruth(c: Config, w0: World, w: World)
    requires Initial(w0) && Reaches(c, w0, w)
    ensures Untouched(w.status.phase) || w.status.phase == Restoring ==> !w.status.replaced
    ensures Untouched(w.status.phase) ==> w.status.breadcrumb == 0
    ensures w.status.phase == Verifying ==> w.status.replaced && w.status.breadcrumb != 0
    ensures w.status.phase == Completed ==>
      w.status.replaced && w.status.breadcrumb == 0 && w.status.keys > 0 && w.aofOn && w.payload == None
    ensures w.status.replaced ==> (w.loaded == Some(w.run) <==> !w.late)
    ensures w.status.replaced && w.late ==> PastDeadline(w)
  {
    ReachableInv(c, w0, w);
  }

  /** From the shutdown of the master until this run lifts the quiesce, ends, or is deleted,
      enough sentinels run, and each keeps the raised value exactly as long as no drift-repair
      pass begun before the breadcrumb was written has set it back. So all of them keep it when
      no such pass was under way across that write. */
  lemma QuiesceIsHeld(c: Config, w0: World, w: World)
    requires Initial(w0) && Reaches(c, w0, w)
    requires w.shutdown && !w.lifted && w.present && !Terminal(w.status.phase)
    ensures |w.sentinels| >= c.replicas
    ensures forall a :: a in w.sentinels ==> (w.sentinels[a] == 600_000 <==> a !in w.lowered || c.downAfter == 600_000)
    ensures !w.straddled ==> forall a :: a in w.sentinels ==> w.sentinels[a] == 600_000
  {
    ReachableInv(c, w0, w);
  }

  /** A finished run stages nothing, shuts nothing down and touches no sentinel: until the spec
      is edited or the object deleted, a pass has no effect at all. */
  lemma TerminalRunIsQuiet(c: Config, w0: World, w: World, o: Outcome)
    requires Initial(w0) && Reaches(c, w0, w)
    requires Terminal(w.status.phase) && w.status.observed == w.generation && w.present && !w.deleting
    ensures Step(c, w, Go(o)) == w.(current := true)
  {
    ReachableInv(c, w0, w);
  }

  /** A boot while the run that staged the payload is not half an hour old loads it. */
  lemma LivePayloadIsNeverDiscarded(c: Config, w0: World, w: World)
    requires Initial(w0) && Reaches(c, w0, w)
    requires w.payload == Some(w.run) && w.status.phase != NoPhase && !Terminal(w.status.phase)
    requires w.status.start.Some? ==> w.now <= w.status.start.value + 1_800_000
    ensures BootStep(w).loaded == Some(w.run)
  {
    ReachableInv(c, w0, w);
  }

  /** A boot loads a staged payload exactly when the last staging began no more than half an hour
      ago, in whole seconds. Otherwise it removes payload and marker and keeps
      both the dataset and AOF. */
  lemma BootHonoursTheDeadline(c: Config, w0: World, w: World)
    requires Initial(w0) && Reaches(c, w0, w)
    requires w.payload.Some?
    ensures w.stagedAt.Some?
    ensures
      var b := BootStep(w);
      && b.payload == None && b.marker == None
      && (w.now / 1000 <= (w.stagedAt.value + 1_800_000) / 1000 ==> b.loaded == w.payload && !b.aofOn)
      && (w.now / 1000 > (w.stagedAt.value + 1_800_000) / 1000 ==> b.loaded == w.loaded && b.aofOn)
    ensures w.now >= w.stagedAt.value + 1_801_000 ==> BootStep(w).loaded == w.loaded
  {
    hide Reaches, Initial, Run;
    StagedWithItsDeadline(c, w0, w);
    BootDecides(w, w.marker.value);
    hide BootStep;
    assert Seconds(w.now) == w.now / 1000 && Deadline(w.stagedAt.value) == (w.stagedAt.value + 1_800_000) / 1000;
    hide Seconds, Deadline;
    if w.now >= w.stagedAt.value + 1_801_000 {
      WholeSecondLater(w.stagedAt.value, w.now);
    }
  }

  lemma BootDecides(w: World, deadline: nat)
    requires w.payload.Some? && w.marker == Some(deadline)
    ensures
      var b := BootStep(w);
      && b.payload == None && b.marker == None
      && (Seconds(w.now) <= deadline ==> b.loaded == w.payload && !b.aofOn)
      && (Seconds(w.now) > deadline ==> b.loaded == w.loaded && b.aofOn)
  {
    hide Seconds, Interrupted;
  }

  lemma WholeSecondLater(at: nat, now: nat)
    requires now >= at + TIMEOUT + 1000
    ensures Seconds(now) > Deadline(at)
  {
  }

  lemma StagedWithItsDeadline(c: Config, w0: World, w: World)
    requires Initial(w0) && Reaches(c, w0, w) && w.payload.Some?
    ensures w.stagedAt.Some? && w.marker == Some(Deadline(w.stagedAt.value))
  {
    ReachableInv(c, w0, w);
    hide Reaches, Initial, PcOk, PassInv, QuiesceInv, StatusOk, Seconds, Deadline;
  }

  // ------------------------------------------------------------------ two boundaries

  ghost function Fresh(): World {
    World(true, false, 1, Status(NoPhase, None, 0, false, 0, 0), true, Idle, 0, None, None, true,
          map["s" := 5000], NoPass, 0, None, None, false, false, false, false, {})
  }

  ghost function Armed(): World {
    Fresh().(status := Status(Restoring, Some(0), 0, false, 0, 1), payload := Some(1), marker := Some(1800),
             run := 1, stagedAt := Some(0))
  }

  lemma Walk(c: Config, w0: World, w: World, o: Outcome) returns (w': World)
    requires Reaches(c, w0, w)
    ensures w' == Continue(c, w, o) && Reaches(c, w0, w')
  {
    w' := Step(c, w, Go(o));
    ReachStep(c, w0, w, Go(o));
  }

  ghost function Loading(): World {
    Fresh().(status := Status(Downloading, Some(0), 0, false, 0, 1), run := 1)
  }

  ghost function Begun(): World {
    Fresh().(status := Status(Pending, Some(0), 0, false, 0, 1), run := 1)
  }

  lemma FreshReachesItself(c: Config)
    ensures Initial(Fresh()) && Reaches(c, Fresh(), Fresh())
  {
    assert Run(c, Fresh(), []) == Fresh();
  }

  lemma FirstPass(c: Config, o: Outcome)
    requires c.allowed && c.clusterExists
    ensures FirstEffect(c, Fresh(), o) == Write(Status(Pending, Some(0), 0, false, 0, 0))
  {
    assert Seconds(0) == 0;
  }

  lemma FreshReachesBegun(c: Config, o: Outcome)
    requires c.allowed && c.clusterExists && o.ok
    ensures Initial(Fresh()) && Reaches(c, Fresh(), Begun())
  {
    hide Run, Reaches, Initial;
    FreshReachesItself(c);
    FirstPass(c, o);
    hide FirstEffect, Seconds, Deadline;
    var w0 := Fresh();
    var w := Walk(c, w0, w0, o);
    assert w == w0.(pc := Write(Status(Pending, Some(0), 0, false, 0, 0)));
    w := Walk(c, w0, w, o);
    assert w == Begun();
  }

  lemma FreshReachesLoading(c: Config, o: Outcome)
    requires c.allowed && c.clusterExists && o.ok
    ensures Initial(Fresh()) && Reaches(c, Fresh(), Loading())
  {
    hide Run, Reaches;
    FreshReachesBegun(c, o);
    hide Initial;
    var b := Begun();
    var w := Walk(c, Fresh(), b, o);
    assert w == b.(pc := Write(b.status.(phase := Downloading)));
    w := Walk(c, Fresh(), w, o);
    assert w == Loading();
  }

  lemma FreshReachesArmed(c: Config, o: Outcome)
    requires c.allowed && c.clusterExists && o.ok
    ensures Initial(Fresh()) && Reaches(c, Fresh(), Armed())
  {
    hide Run, Reaches;
    FreshReachesLoading(c, o);
    var l := Loading();
    var w := Walk(c, Fresh(), l, o);
    assert w == l.(pc := StageMarker(l.status, 0));
    w := Walk(c, Fresh(), w, o);
    assert w == l.(pc := StageMove(l.status), marker := Some(1800), stagedAt := Some(0));
    w := Walk(c, Fresh(), w, o);
    assert w == l.(pc := Write(l.status.(phase := Restoring)), marker := Some(1800), stagedAt := Some(0),
      payload := Some(1));
    w := Walk(c, Fresh(), w, o);
    assert w == Armed();
  }

  lemma Environs(c: Config, w0: World, w: World, a: Action) returns (w': World)
    requires Reaches(c, w0, w) && !a.Go?
    ensures w' == Environment(c, w, a) && Reaches(c, w0, w')
  {
    w' := Step(c, w, a);
    ReachStep(c, w0, w, a);
  }

  ghost function Quiescing(): World {
    var m := Armed().status.(breadcrumb := 5000);
    Armed().(status := m, drift := Repairing(false), straddled := true, pc := Quiesce(m, {"s"}, true))
  }

  lemma ArmedReachesQuiescing(c: Config, o: Outcome)
    requires c == Config(5000, 1, true, true) && o == Outcome(true, true, "s", 1, false)
    ensures Reaches(c, Fresh(), Quiescing())
  {
    hide Run, Reaches, Initial;
    FreshReachesArmed(c, o);
    var a := Armed();
    var w := Walk(c, Fresh(), a, o);
    assert w == a.(pc := Probe(a.status));
    w := Environs(c, Fresh(), w, DriftBegin);
    w := Walk(c, Fresh(), w, o);
    assert w == a.(drift := Repairing(false), pc := Breadcrumb(a.status));
    w := Walk(c, Fresh(), w, o);
    assert a.sentinels.Keys == {"s"};
    assert w == Quiescing();
  }

  /** The quiesce is not held when a drift-repair pass straddles the breadcrumb write: it began
      before the breadcrumb was visible and lowers the value after the shutdown. */
  lemma StraddlingPassBreaksTheQuiesce() returns (c: Config, w: World)
    ensures Initial(Fresh()) && Reaches(c, Fresh(), w)
    ensures w.shutdown && !w.lifted && w.present && !Terminal(w.status.phase)
    ensures "s" in w.sentinels && w.sentinels["s"] != RAISED
  {
    hide Run, Reaches, Initial;
    c := Config(5000, 1, true, true);
    var o := Outcome(true, true, "s", 1, false);
    FreshReachesArmed(c, o);
    ArmedReachesQuiescing(c, o);
    var q := Quiescing();
    var m := q.status;
    w := Walk(c, Fresh(), q, o);
    assert {"s"} - {"s"} == {} && {} - {"s"} == {};
    assert w == q.(sentinels := map["s" := RAISED], pc := Quiesce(m, {}, true));
    w := Walk(c, Fresh(), w, o);
    assert w == q.(sentinels := map["s" := RAISED], pc := ShutDown(m));
    w := Walk(c, Fresh(), w, o);
    assert w == q.(sentinels := map["s" := RAISED], pc := Idle, shutdown := true);
    w := Environs(c, Fresh(), w, DriftSet("s", true));
  }

  ghost function Expiring(): World {
    Armed().(status := Armed().status.(breadcrumb := 5000), now := TIMEOUT)
  }

  lemma ArmedReachesExpiring(c: Config, o: Outcome)
    requires c == Config(5000, 1, true, true) && o == Outcome(true, true, "s", 1, false)
    ensures Reaches(c, Fresh(), Expiring())
  {
    hide Run, Reaches, Initial;
    FreshReachesArmed(c, o);
    var a := Armed();
    var w := Walk(c, Fresh(), a, o);
    assert w == a.(pc := Probe(a.status));
    w := Walk(c, Fresh(), w, o);
    assert w == a.(pc := Breadcrumb(a.status));
    w := Walk(c, Fresh(), w, o);
    w := Environs(c, Fresh(), w, Crash);
    assert w == a.(status := a.status.(breadcrumb := 5000));
    w := Environs(c, Fresh(), w, Tick(TIMEOUT));
    assert w == Expiring();
  }

  /** "Replaced" may be recorded although the payload was never loaded: the expiry is checked at
      the start of the pass, the payload is looked for afterwards, and a boot in between that
      falls after the deadline has thrown it away. */
  lemma LateProbeMisreportsTheDataset() returns (c: Config, w: World)
    ensures Initial(Fresh()) && Reaches(c, Fresh(), w)
    ensures w.status.phase == Verifying && w.status.replaced && w.loaded == None && w.late
  {
    hide Run, Reaches, Initial;
    c := Config(5000, 1, true, true);
    var o := Outcome(true, true, "s", 1, false);
    FreshReachesArmed(c, o);
    ArmedReachesExpiring(c, o);
    var x := Expiring();
    w := Walk(c, Fresh(), x, o);
    assert w == x.(pc := Probe(x.status));
    w := Environs(c, Fresh(), w, Tick(1000));
    assert w == x.(pc := Probe(x.status), now := TIMEOUT + 1000);
    w := Environs(c, Fresh(), w, Boot);
    assert w == x.(now := TIMEOUT + 1000, pc := Probe(x.status), payload := None, marker := None, late := true);
    w := Walk(c, Fresh(), w, o);
    w := Walk(c, Fresh(), w, o);
  }
}
