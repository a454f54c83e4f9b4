/** The calls of one pass of the restore reconciler, and the order they come in. */
module RestoreCalls {
  import opened Basics
  import opened Restore

  /** What a pass has issued, and what it was told in return. */
  datatype Call =
    | Update(m: Status, ok: bool)              // the status write that ends a pass
    | PutMarker(deadline: nat, ok: bool)
    | PutPayload(ok: bool)
    | Look(ok: bool, there: bool)              // is the payload still staged?
    | Record(value: int, ok: bool)             // the breadcrumb
    | Raise(addr: Addr, ok: bool)
    | ShutDownMaster
    | Check(ok: bool, lost: bool, keys: nat)   // the restarted master and its keyspace
    | AofOn(ok: bool)
    | PutBack(addr: Addr, value: int, ok: bool)
    | Remove                                   // payload and marker, wherever a pod can be reached

  // ------------------------------------------------------------------ the order of calls

  /** The down-after the cluster runs with outside a restore. */
  predicate Ordinary(c: Config, value: int) { if c.downAfter == 0 then value == 5000 else value == c.downAfter }

  /** Every sentinel took the raised value. */
  ghost predicate AllRaisedBy(calls: seq<Call>, addrs: set<Addr>) {
    (forall a :: a in addrs ==> Raise(a, true) in calls) && (forall a :: Raise(a, false) !in calls)
  }

  /** Every sentinel took its value back. */
  ghost predicate AllPutBackBy(calls: seq<Call>, addrs: set<Addr>, value: int) {
    && (forall a :: a in addrs ==> PutBack(a, value, true) in calls)
    && (forall a, v :: PutBack(a, v, false) !in calls)
  }

  ghost predicate Quiescing(read: Status, calls: seq<Call>) {
    && calls != [] && calls[0] == Look(true, true)
    && (read.breadcrumb != 0 || (|calls| >= 2 && calls[1].Record? && calls[1].ok))
  }

  ghost predicate Verified(calls: seq<Call>) {
    calls != [] && calls[0].Check? && calls[0].ok && calls[0].keys > 0
  }

  /** What a pass that read this status may issue after these calls: nothing after its last step. */
  ghost predicate May(c: Config, read: Status, addrs: set<Addr>, calls: seq<Call>, x: Call) {
    (calls == [] || !Last(calls[|calls| - 1])) && Follows(c, read, addrs, calls, x)
  }

  predicate Last(x: Call) { x.Update? || x == ShutDownMaster }

  ghost predicate Follows(c: Config, read: Status, addrs: set<Addr>, calls: seq<Call>, x: Call) {
    match x
    case PutMarker(_, _) => read.phase == Downloading && calls == []
    case PutPayload(_) => |calls| == 1 && calls[0].PutMarker? && calls[0].ok
    case Look(_, _) => read.phase == Restoring && calls == []
    case Record(value, _) => read.breadcrumb == 0 && Ordinary(c, value) && calls == [Look(true, true)]
    case Raise(a, _) => Quiescing(read, calls) && a in addrs
    case ShutDownMaster => Quiescing(read, calls) && AllRaisedBy(calls, addrs)
    case Check(_, _, _) => read.phase == Verifying && calls == []
    case AofOn(_) => calls != [] && if calls[|calls| - 1] == Remove then read.replaced
      else |calls| == 1 && Verified(calls)
    case PutBack(a, value, _) =>
      && a in addrs && value == read.breadcrumb && value != 0
      && (Remove in calls || (|calls| >= 2 && Verified(calls) && calls[1] == AofOn(true)))
    case Remove => calls == [] || (|calls| == 1 && calls[0].Check? && !Verified(calls))
    case Update(m, _) => MayUpdate(c, read, addrs, calls, m)
  }

  ghost predicate MayUpdate(c: Config, read: Status, addrs: set<Addr>, calls: seq<Call>, m: Status) {
    match m.phase
    case NoPhase => false
    case Pending => calls == [] && (read.phase == NoPhase || Terminal(read.phase))
    case Downloading => if calls == [] then read.phase == Pending
      else calls == [Look(true, false)] && read.breadcrumb == 0
    case Restoring => |calls| == 2 && calls[0].PutMarker? && calls[0].ok && calls[1] == PutPayload(true)
    case Verifying => calls == [Look(true, false)] && read.breadcrumb != 0 && m.replaced
    case Completed =>
      && |calls| >= 2 && Verified(calls) && m.keys == calls[0].keys && calls[1] == AofOn(true)
      && AllPutBackBy(calls, addrs, read.breadcrumb) && m.breadcrumb == 0
    case Failed =>
      var lifting := c.clusterExists && c.allowed && read.breadcrumb != 0;
      && Remove in calls && !Terminal(read.phase)
      && (read.replaced && c.clusterExists ==> AofOn(true) in calls || AofOn(false) in calls)
      && (lifting ==> forall a :: a in addrs ==>
            PutBack(a, read.breadcrumb, true) in calls || PutBack(a, read.breadcrumb, false) in calls)
      && m.breadcrumb == if lifting && AllPutBackBy(calls, addrs, read.breadcrumb) then 0 else read.breadcrumb
  }

  ghost predicate InOrder(c: Config, read: Status, addrs: set<Addr>, calls: seq<Call>) {
    forall k :: 0 <= k < |calls| ==> May(c, read, addrs, calls[..k], calls[k])
  }

  lemma InOrderGrows(c: Config, read: Status, addrs: set<Addr>, calls: seq<Call>, x: Call)
    requires InOrder(c, read, addrs, calls) && May(c, read, addrs, calls, x)
    ensures InOrder(c, read, addrs, calls + [x])
  {
    forall k | 0 <= k < |calls + [x]| ensures May(c, read, addrs, (calls + [x])[..k], (calls + [x])[k]) {
      assert (calls + [x])[..k] == calls[..k];
      assert k == |calls| ==> calls[..k] == calls;
    }
  }

  lemma SweepIsForNoKeys(c: Config, read: Status, addrs: set<Addr>, calls: seq<Call>, x: Call)
    requires May(c, read, addrs, calls, x) && Verified(calls)
    ensures x != Remove
  {
    hide MayUpdate, AllRaisedBy, AllPutBackBy, Quiescing, Last;
  }

  /** A pass that found keys is not swept. */
  lemma {:induction false} NoSweepAfterKeys(c: Config, read: Status, addrs: set<Addr>, calls: seq<Call>, k: nat)
    requires InOrder(c, read, addrs, calls) && k <= |calls| && calls != [] && Verified(calls)
    ensures Remove !in calls[..k]
  {
    hide May;
    if k > 1 {
      NoSweepAfterKeys(c, read, addrs, calls, k - 1);
      assert calls[..k - 1][0] == calls[0];
      SweepIsForNoKeys(c, read, addrs, calls[..k - 1], calls[k - 1]);
      assert calls[..k] == calls[..k - 1] + [calls[k - 1]];
    }
  }

  // What the order means for the steps that matter.

  /** A call that another one follows is neither the shutdown nor a status write. */
  lemma NothingFollowsTheLastStep(c: Config, read: Status, addrs: set<Addr>, calls: seq<Call>, k: nat)
    requires InOrder(c, read, addrs, calls) && k + 1 < |calls|
    ensures calls[k] != ShutDownMaster && !calls[k].Update?
  {
    hide Follows;
    assert May(c, read, addrs, calls[..k + 1], calls[k + 1]);
    assert calls[..k + 1][k] == calls[k];
  }

  /** A payload is put in place only after its marker. */
  lemma PayloadFollowsItsMarker(c: Config, read: Status, addrs: set<Addr>, calls: seq<Call>, k: nat)
    requires InOrder(c, read, addrs, calls) && k < |calls| && calls[k].PutPayload?
    ensures k == 1 && calls[0].PutMarker? && calls[0].ok
  {
    hide MayUpdate, AllRaisedBy, AllPutBackBy;
    assert May(c, read, addrs, calls[..k], calls[k]);
  }

  /** Restoring is written only with marker and payload both in place. */
  lemma RestoringIsEarned(c: Config, read: Status, addrs: set<Addr>, calls: seq<Call>, k: nat)
    requires InOrder(c, read, addrs, calls) && k < |calls| && calls[k].Update? && calls[k].m.phase == Phase.Restoring
    ensures k == 2 && calls[0].PutMarker? && calls[0].ok && calls[1] == PutPayload(true)
  {
    hide AllRaisedBy, AllPutBackBy;
    assert May(c, read, addrs, calls[..k], calls[k]);
  }

  /** The master is shut down only with its payload seen in place and the breadcrumb recorded, and
      after every sentinel has taken the raised value. */
  lemma ShutdownIsEarned(c: Config, read: Status, addrs: set<Addr>, calls: seq<Call>, k: nat)
    requires InOrder(c, read, addrs, calls) && k < |calls| && calls[k] == ShutDownMaster
    ensures k >= 1 && calls[0] == Look(true, true) && AllRaisedBy(calls[..k], addrs)
    ensures read.breadcrumb != 0 || (k >= 2 && calls[1].Record? && calls[1].ok && Ordinary(c, calls[1].value))
  {
    hide MayUpdate, AllRaisedBy, AllPutBackBy;
    assert May(c, read, addrs, calls[..k], calls[k]);
    if k > 1 {
      assert May(c, read, addrs, calls[..1], calls[1]);
    }
  }

  /** Completed is written only once keys were found, AOF is on and every sentinel has taken its
      value back. */
  lemma CompletedIsEarned(c: Config, read: Status, addrs: set<Addr>, calls: seq<Call>, k: nat)
    requires InOrder(c, read, addrs, calls) && k < |calls| && calls[k].Update? && calls[k].m.phase == Completed
    ensures k >= 2 && calls[0].Check? && calls[0].ok && calls[0].keys == calls[k].m.keys > 0
    ensures calls[1] == AofOn(true) && AllPutBackBy(calls[..k], addrs, read.breadcrumb) && calls[k].m.breadcrumb == 0
  {
    hide AllRaisedBy, AllPutBackBy;
    assert May(c, read, addrs, calls[..k], calls[k]);
  }

  /** After keys were found, AOF comes before any sentinel is told. */
  lemma AofComesBeforePuttingBack(c: Config, read: Status, addrs: set<Addr>, calls: seq<Call>, k: nat)
    requires InOrder(c, read, addrs, calls) && k < |calls| && calls[k].PutBack? && Verified(calls)
    ensures k >= 2 && calls[1] == AofOn(true)
  {
    NoSweepAfterKeys(c, read, addrs, calls, k);
    hide MayUpdate, AllRaisedBy, AllPutBackBy;
    assert May(c, read, addrs, calls[..k], calls[k]);
  }

  /** What is put back is what was recorded. */
  lemma PutBackIsTheRecorded(c: Config, read: Status, addrs: set<Addr>, calls: seq<Call>, k: nat)
    requires InOrder(c, read, addrs, calls) && k < |calls| && calls[k].PutBack?
    ensures calls[k].value == read.breadcrumb != 0 && calls[k].addr in addrs
  {
    hide MayUpdate, AllRaisedBy, AllPutBackBy;
    assert May(c, read, addrs, calls[..k], calls[k]);
  }

  /** Every value a pass records or puts back is the spec's, or 5000 where the spec has none, if that
      is so of the recorded one; and a pass that writes Completed has put it back everywhere. */
  lemma SettingsAreTheSpecs(c: Config, read: Status, addrs: set<Addr>, calls: seq<Call>)
    requires InOrder(c, read, addrs, calls) && (read.breadcrumb != 0 ==> Ordinary(c, read.breadcrumb))
    ensures forall v, ok :: Record(v, ok) in calls ==> if c.downAfter == 0 then v == 5000 else v == c.downAfter
    ensures forall a, v, ok :: PutBack(a, v, ok) in calls ==> if c.downAfter == 0 then v == 5000 else v == c.downAfter
    ensures CompletionWritten(calls) ==> forall a :: a in addrs ==>
      PutBack(a, if c.downAfter == 0 then 5000 else c.downAfter, true) in calls
  {
    hide MayUpdate, AllRaisedBy, AllPutBackBy;
    forall k | 0 <= k < |calls| && (calls[k].Record? || calls[k].PutBack?) ensures Ordinary(c, calls[k].value) {
      assert May(c, read, addrs, calls[..k], calls[k]);
    }
    hide InOrder;
    if CompletionWritten(calls) {
      CompletedPutBack(c, read, addrs, calls);
    }
  }

  lemma CompletedPutBack(c: Config, read: Status, addrs: set<Addr>, calls: seq<Call>)
    requires InOrder(c, read, addrs, calls) && (read.breadcrumb != 0 ==> Ordinary(c, read.breadcrumb))
    requires CompletionWritten(calls)
    ensures forall a :: a in addrs ==> PutBack(a, if c.downAfter == 0 then 5000 else c.downAfter, true) in calls
  {
    var k := |calls| - 1;
    CompletedIsEarned(c, read, addrs, calls, k);
    forall a | a in addrs ensures PutBack(a, if c.downAfter == 0 then 5000 else c.downAfter, true) in calls {
      assert PutBack(a, read.breadcrumb, true) in calls[..k];
      var j :| 0 <= j < k && calls[..k][j] == PutBack(a, read.breadcrumb, true);
      PutBackIsTheRecorded(c, read, addrs, calls, j);
    }
  }

  /** The step that takes a run in this phase on. */
  predicate Advances(p: Phase, x: Call) {
    match p
    case NoPhase => x.Update? && x.m.phase == Pending
    case Pending => x.Update? && x.m.phase == Downloading
    case Downloading => x.Update? && x.m.phase == Phase.Restoring
    case Restoring => x == ShutDownMaster || (x.Update? && (x.m.phase == Downloading || x.m.phase == Verifying))
    case Verifying => x.Update? && x.m.phase == Completed
    case _ => x.Update? && x.m.phase == Pending
  }

  /** A pass with no call refused and enough sentinels takes the run on, unless it fails it. */
  lemma UnrefusedPassAdvances(c: Config, read: Status, addrs: set<Addr>, calls: seq<Call>)
    requires InOrder(c, read, addrs, calls) && Through(c, addrs, calls)
    requires |addrs| >= c.replicas && forall k :: 0 <= k < |calls| ==> !Refused(calls[k])
    ensures Advances(read.phase, calls[|calls| - 1]) || Remove in calls
  {
    var k := |calls| - 1;
    hide AllRaisedBy, AllPutBackBy, Refused;
    assert May(c, read, addrs, calls[..k], calls[k]);
    if k > 0 {
      assert May(c, read, addrs, calls[..0], calls[0]) && calls[..0] == [];
      assert Remove in calls[..k] ==> Remove in calls;
    }
  }

  /** A failing run clears its breadcrumb only by a broadcast every sentinel took. */
  lemma ClearedBreadcrumbIsEarned(c: Config, read: Status, addrs: set<Addr>, calls: seq<Call>, k: nat)
    requires InOrder(c, read, addrs, calls) && k < |calls| && calls[k].Update? && calls[k].m.phase == Failed
    requires read.breadcrumb != 0 && calls[k].m.breadcrumb == 0
    ensures Remove in calls[..k] && AllPutBackBy(calls[..k], addrs, read.breadcrumb)
  {
    hide AllRaisedBy, AllPutBackBy;
    assert May(c, read, addrs, calls[..k], calls[k]);
  }

  /** The call failed. */
  predicate Refused(x: Call) {
    match x
    case Remove => false
    case ShutDownMaster => false
    case Update(_, ok) => !ok
    case PutMarker(_, ok) => !ok
    case PutPayload(ok) => !ok
    case Look(ok, _) => !ok
    case Record(_, ok) => !ok
    case Raise(_, ok) => !ok
    case Check(ok, lost, _) => !ok && !lost
    case AofOn(ok) => !ok
    case PutBack(_, _, ok) => !ok
  }

  /** A pass that runs to its end got to its last step, or some call failed, or too few sentinels
      run for a quiesce. */
  ghost predicate Through(c: Config, addrs: set<Addr>, calls: seq<Call>) {
    && calls != []
    && (Last(calls[|calls| - 1])
        || (exists k :: 0 <= k < |calls| && Refused(calls[k])) || |addrs| < c.replicas)
  }

  /** How a pass may move the persisted phase. */
  predicate Edge(p: Phase, q: Phase) {
    || q == p
    || (q == Pending && (p == NoPhase || Terminal(p)))
    || (q == Downloading && (p == Pending || p == Phase.Restoring))
    || (q == Phase.Restoring && p == Downloading)
    || (q == Verifying && p == Phase.Restoring)
    || (q == Completed && p == Verifying)
    || (q == Failed && !Terminal(p))
  }

  // ------------------------------------------------------------------ broadcasts

  /** The three broadcasts of a pass: raising for the quiesce, and putting back on the way to
      Completed or to Failed. */
  datatype Kind = Raising | Lifting | LiftingFailed

  function Setting(kind: Kind, m: Status, todo: set<Addr>, clean: bool): Pc {
    match kind
    case Raising => Quiesce(m, todo, clean)
    case Lifting => Lift(m, todo, clean)
    case LiftingFailed => FailLift(m, todo, clean)
  }

  lemma LiftIsSetting(m: Status, addrs: set<Addr>)
    ensures Setting(Lifting, m, addrs, true) == Lift(m, addrs, true)
  {
  }

  function ValueOf(kind: Kind, m: Status): int { if kind == Raising then RAISED else m.breadcrumb }

  function Telling(kind: Kind, m: Status, a: Addr, ok: bool): Call {
    if kind == Raising then Raise(a, ok) else PutBack(a, m.breadcrumb, ok)
  }

  /** The calls made so far allow the broadcast. */
  ghost predicate Ready(kind: Kind, m: Status, read: Status, calls: seq<Call>) {
    && calls != [] && !Last(calls[|calls| - 1])
    && match kind
       case Raising => Quiescing(read, calls)
       case Lifting =>
         m.breadcrumb == read.breadcrumb != 0 && |calls| >= 2 && Verified(calls) && calls[1] == AofOn(true)
       case LiftingFailed => m.breadcrumb == read.breadcrumb != 0 && Remove in calls
  }

  /** What the broadcast did to `done`: all of them were told, and all took it exactly if `clean`. */
  ghost predicate Reported(kind: Kind, m: Status, done: set<Addr>, calls: seq<Call>, clean: bool) {
    && (forall a :: a in done ==> Telling(kind, m, a, true) in calls || Telling(kind, m, a, false) in calls)
    && (clean ==> forall a :: a in done ==> Telling(kind, m, a, true) in calls)
    && (if kind == Raising then clean <==> forall a :: Raise(a, false) !in calls
        else clean <==> forall a, v :: PutBack(a, v, false) !in calls)
  }

  lemma TellingOn(c: Config, kind: Kind, m: Status, read: Status, addrs: set<Addr>, calls: seq<Call>, a: Addr, ok: bool)
    requires Ready(kind, m, read, calls) && a in addrs
    ensures May(c, read, addrs, calls, Telling(kind, m, a, ok))
    ensures Ready(kind, m, read, calls + [Telling(kind, m, a, ok)])
  {
  }

  lemma ReportedOn(kind: Kind, m: Status, done: set<Addr>, calls: seq<Call>, clean: bool, a: Addr, ok: bool)
    requires Reported(kind, m, done, calls, clean)
    ensures Reported(kind, m, done + {a}, calls + [Telling(kind, m, a, ok)], clean && ok)
  {
    var more := calls + [Telling(kind, m, a, ok)];
    assert forall x :: x in more <==> x in calls || x == Telling(kind, m, a, ok);
  }

  /** The last step of the pass tells no sentinel anything. */
  lemma ToldAtTheEnd(kind: Kind, m: Status, read: Status, addrs: set<Addr>, told: seq<Call>,
                     calls: seq<Call>, clean: bool)
    requires Ready(kind, m, read, told) && Reported(kind, m, addrs, told, clean)
    requires calls == told || (calls != [] && calls == told + [calls[|calls| - 1]] && Last(calls[|calls| - 1]))
    ensures calls == told ==> !Last(calls[|calls| - 1])
    ensures kind == Raising ==> (clean <==> forall a :: Raise(a, false) !in calls)
    ensures kind != Raising ==> (clean <==> forall a, v :: PutBack(a, v, false) !in calls)
  {
    assert forall x :: x in calls && !Last(x) <==> x in told && !Last(x);
    assert forall a :: Raise(a, false) in calls <==> Raise(a, false) in told;
    assert forall a, v :: PutBack(a, v, false) in calls <==> PutBack(a, v, false) in told;
  }

  /** A broadcast that is not clean had a refusal. */
  lemma UncleanWasRefused(kind: Kind, m: Status, done: set<Addr>, calls: seq<Call>)
    requires Reported(kind, m, done, calls, false)
    ensures exists k :: 0 <= k < |calls| && Refused(calls[k])
  {
    if kind == Raising {
      var a :| Raise(a, false) in calls;
      assert Refused(Raise(a, false));
    } else {
      var a, v :| PutBack(a, v, false) in calls;
      assert Refused(PutBack(a, v, false));
    }
  }

  /** A clean quiesce allows the shutdown. */
  lemma RaisedEverywhere(c: Config, m: Status, read: Status, addrs: set<Addr>, calls: seq<Call>)
    requires Ready(Raising, m, read, calls) && Reported(Raising, m, addrs, calls, true)
    ensures May(c, read, addrs, calls, ShutDownMaster)
  {
    forall a | a in addrs ensures Raise(a, true) in calls {
      assert Telling(Raising, m, a, true) == Raise(a, true);
    }
  }

  // ------------------------------------------------------------------ failing

  ghost predicate NonePutBack(calls: seq<Call>) { forall a, v, ok :: PutBack(a, v, ok) !in calls }

  /** The volume was swept, and AOF asked for. */
  ghost predicate Disarmed(calls: seq<Call>, aof: bool) {
    && Remove in calls && calls != [] && !Last(calls[|calls| - 1])
    && (aof ==> AofOn(true) in calls || AofOn(false) in calls)
  }

  ghost predicate FailureWritten(calls: seq<Call>) {
    calls != [] && calls[|calls| - 1].Update? && calls[|calls| - 1].m.phase == Failed
  }

  ghost predicate CompletionWritten(calls: seq<Call>) {
    calls != [] && calls[|calls| - 1].Update? && calls[|calls| - 1].m.phase == Completed
  }

  lemma DisarmedFor(calls: seq<Call>, cluster: bool, replaced: bool)
    requires Disarmed(calls, cluster && replaced) && cluster
    ensures Disarmed(calls, replaced)
  {
  }

  lemma LiftingMayBegin(m: Status, read: Status, calls: seq<Call>, addrs: set<Addr>, c: Config)
    requires Disarmed(calls, read.replaced) && NonePutBack(calls) && m.breadcrumb == read.breadcrumb != 0
    ensures Ready(LiftingFailed, m, read, calls) && Reported(LiftingFailed, m, {}, calls, true)
    ensures Setting(LiftingFailed, m, addrs, true) == FailLift(m, addrs, true)
  {
  }

  lemma FailureWithoutLifting(c: Config, m: Status, read: Status, addrs: set<Addr>, calls: seq<Call>)
    requires Disarmed(calls, c.clusterExists && read.replaced) && m.breadcrumb == read.breadcrumb &&
      !Terminal(read.phase)
    requires !c.clusterExists || !c.allowed || read.breadcrumb == 0
    ensures May(c, read, addrs, calls, Update(m.(phase := Failed), true))
  {
  }

  /** The failure written after a broadcast clears the breadcrumb exactly if the broadcast was clean. */
  lemma FailureAfterLifting(c: Config, m: Status, read: Status, addrs: set<Addr>, before: seq<Call>, calls: seq<Call>,
      clean: bool)
    requires c.allowed && c.clusterExists && Disarmed(before, read.replaced) && before <= calls
    requires m.breadcrumb == read.breadcrumb && !Terminal(read.phase)
    requires Ready(LiftingFailed, m, read, calls) && Reported(LiftingFailed, m, addrs, calls, clean)
    ensures May(c, read, addrs, calls,
      Update(m.(phase := Failed, breadcrumb := if clean then 0 else m.breadcrumb), true))
  {
    assert forall x :: x in before ==> x in calls;
    forall a | a in addrs
      ensures PutBack(a, read.breadcrumb, true) in calls || PutBack(a, read.breadcrumb, false) in calls
      ensures clean ==> PutBack(a, read.breadcrumb, true) in calls
    {
      assert Telling(LiftingFailed, m, a, true) == PutBack(a, m.breadcrumb, true);
      assert Telling(LiftingFailed, m, a, false) == PutBack(a, m.breadcrumb, false);
    }
  }

  lemma CompletionMayBeWritten(c: Config, m: Status, read: Status, addrs: set<Addr>, calls: seq<Call>)
    requires Ready(Lifting, m, read, calls) && Reported(Lifting, m, addrs, calls, true)
    requires calls[0].Check? && m.keys == calls[0].keys
    ensures May(c, read, addrs, calls, Update(m.(phase := Completed, breadcrumb := 0), true))
  {
    forall a | a in addrs ensures PutBack(a, read.breadcrumb, true) in calls {
      assert Telling(Lifting, m, a, true) == PutBack(a, m.breadcrumb, true);
    }
  }
}
