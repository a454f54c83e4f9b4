/** What each effect of a pass does outside the reconciler, and which effect comes next. */
module RestoreEffects {
  import opened Basics
  import opened Restore
  import opened RestoreCalls

  /** The world outside the reconciler: the object, the clock, the volume and the sentinels. */
  datatype Outside = Outside(
    present: bool, deleting: bool, generation: nat, status: Status, current: bool, run: nat, now: nat,
    payload: Option<nat>, marker: Option<nat>, aofOn: bool, sentinels: map<Addr, int>, drift: Drift)

  ghost function Seen(w: World): Outside {
    Outside(w.present, w.deleting, w.generation, w.status, w.current, w.run, w.now, w.payload, w.marker, w.aofOn,
            w.sentinels, w.drift)
  }

  lemma BeginEffect(c: Config, w: World, o: Outcome)
    requires w.pc == Idle
    ensures Seen(Continue(c, w, o)) == Seen(w).(current := true)
    ensures Continue(c, w, o).pc == FirstEffect(c, w, o)
  {
    hide FirstEffect;
  }

  lemma StagingBegins(c: Config, w: World, o: Outcome)
    ensures FirstEffect(c, w, o).StageMarker? <==>
      w.present && !w.deleting && w.status.phase == Downloading && c.allowed && c.clusterExists && o.ok
    ensures !FirstEffect(c, w, o).StageMove?
  {
  }

  lemma WriteEffect(c: Config, w: World, m: Status, o: Outcome)
    requires w.pc == Write(m)
    ensures
      var took := w.current && (o.ok || o.effect);
      Seen(Continue(c, w, o)) == Seen(w).(
        status := if took then m.(observed := w.generation) else w.status,
        run := if took && m.phase == Pending then w.run + 1 else w.run)
    ensures Continue(c, w, o).pc == Idle
  {
    if w.current {
    } else {
    }
  }

  lemma MarkerEffect(c: Config, w: World, m: Status, at: nat, o: Outcome)
    requires w.pc == StageMarker(m, at)
    ensures Seen(Continue(c, w, o)) == Seen(w).(marker := if o.ok || o.effect then Some(Deadline(at)) else w.marker)
    ensures Continue(c, w, o).pc == if o.ok then StageMove(m) else Idle
  {
  }

  lemma PayloadEffect(c: Config, w: World, m: Status, o: Outcome)
    requires w.pc == StageMove(m)
    ensures Seen(Continue(c, w, o)) == Seen(w).(payload := if o.ok || o.effect then Some(w.run) else w.payload)
    ensures Continue(c, w, o).pc == if o.ok then Write(m.(phase := Phase.Restoring)) else Idle
  {
  }

  /** What the pass does next is its own affair. */
  lemma PcIsUnseen(w: World, pc: Pc)
    ensures Seen(w.(pc := pc)) == Seen(w)
  {
  }

  /** Where the look for the payload leads. */
  function Looked(m: Status, ok: bool, there: bool, enough: bool, addrs: set<Addr>): Pc {
    if !ok then Idle
    else if !there then
      if m.breadcrumb == 0 then Write(m.(phase := Downloading)) else Write(m.(phase := Verifying, replaced := true))
    else if m.breadcrumb == 0 then Breadcrumb(m)
    else if enough then Quiesce(m, addrs, true)
    else Idle
  }

  lemma LookEffect(c: Config, w: World, m: Status, o: Outcome)
    requires w.pc == Probe(m)
    ensures Seen(Continue(c, w, o)) == Seen(w)
    ensures Continue(c, w, o).pc == Looked(m, o.ok, w.payload.Some?, |w.sentinels| >= c.replicas, w.sentinels.Keys)
  {
    var pc := Looked(m, o.ok, w.payload.Some?, |w.sentinels| >= c.replicas, w.sentinels.Keys);
    PcIsUnseen(w, pc);
    if !o.ok {
      assert Continue(c, w, o) == w.(pc := Idle);
    } else if w.payload.None? {
      if m.breadcrumb == 0 {
        assert Continue(c, w, o) == w.(pc := Write(m.(phase := Downloading)));
      } else {
        assert Continue(c, w, o) == w.(pc := Write(m.(phase := Verifying, replaced := true)));
      }
    } else if m.breadcrumb == 0 {
      assert Continue(c, w, o) == w.(pc := Breadcrumb(m));
    } else if |w.sentinels| >= c.replicas {
      assert Continue(c, w, o) == w.(pc := Quiesce(m, w.sentinels.Keys, true));
    } else {
      assert Continue(c, w, o) == w.(pc := Idle);
    }
    assert Continue(c, w, o) == w.(pc := pc);
    hide Continue, Seen, Looked;
  }

  function Marked(c: Config, m: Status): Status {
    m.(breadcrumb := if c.downAfter == 0 then DEFAULT_DOWN_AFTER else c.downAfter)
  }

  /** The write of the breadcrumb goes on to the quiesce when it is acknowledged, based on the
      latest version, and enough sentinels run. */
  lemma RecordEffect(c: Config, w: World, m: Status, o: Outcome)
    requires w.pc == Breadcrumb(m)
    ensures
      var took := w.current && (o.ok || o.effect);
      Seen(Continue(c, w, o)) == Seen(w).(status := if took then Marked(c, m) else w.status)
    ensures Continue(c, w, o).pc ==
      if w.current && o.ok && |w.sentinels| >= c.replicas then Quiesce(Marked(c, m), w.sentinels.Keys, true) else Idle
  {
    if !w.current {
    } else if o.ok {
    } else {
    }
  }

  lemma SetEffect(c: Config, w: World, kind: Kind, m: Status, todo: set<Addr>, clean: bool, o: Outcome)
    requires w.pc == Setting(kind, m, todo, clean) && o.addr in todo
    ensures Seen(Continue(c, w, o)) == Seen(w).(sentinels := SetOne(w, ValueOf(kind, m), o))
    ensures Continue(c, w, o).pc == Setting(kind, m, todo - {o.addr}, clean && o.ok)
  {
    hide SetOne;
    match kind
    case Raising =>
    case Lifting =>
    case LiftingFailed =>
  }

  /** What follows a broadcast. */
  function Following(kind: Kind, m: Status, clean: bool): Pc {
    match kind
    case Raising => if clean then ShutDown(m) else Idle
    case Lifting => if clean then Write(m.(phase := Completed, breadcrumb := 0)) else Idle
    case LiftingFailed => Write(m.(phase := Failed, breadcrumb := if clean then 0 else m.breadcrumb))
  }

  lemma ConcludeEffect(c: Config, w: World, kind: Kind, m: Status, clean: bool, o: Outcome)
    requires w.pc == Setting(kind, m, {}, clean)
    ensures Seen(Continue(c, w, o)) == Seen(w)
    ensures Continue(c, w, o).pc == Following(kind, m, clean)
  {
    match kind
    case Raising =>
    case Lifting =>
    case LiftingFailed =>
  }

  lemma ShutDownEffect(c: Config, w: World, m: Status, o: Outcome)
    requires w.pc == ShutDown(m)
    ensures Seen(Continue(c, w, o)) == Seen(w)
    ensures Continue(c, w, o).pc == Idle
  {
  }

  /** Where the check of the dataset leads. */
  function Checked(m: Status, ok: bool, lost: bool, keys: nat): Pc {
    if ok && keys > 0 then EnableAof(m.(keys := keys))
    else if ok then FailFrom(m.(keys := 0))
    else if lost then FailFrom(m)
    else Idle
  }

  lemma CheckEffect(c: Config, w: World, m: Status, o: Outcome)
    requires w.pc == Verify(m)
    ensures Seen(Continue(c, w, o)) == Seen(w)
    ensures Continue(c, w, o).pc == Checked(m, o.ok, o.effect, o.keys)
  {
    var pc := Checked(m, o.ok, o.effect, o.keys);
    PcIsUnseen(w, pc);
    hide FailFrom;
    if o.ok && o.keys > 0 {
      assert Continue(c, w, o) == w.(pc := EnableAof(m.(keys := o.keys)));
    } else if o.ok {
      assert Continue(c, w, o) == w.(pc := FailFrom(m.(keys := 0)));
    } else if o.effect {
      assert Continue(c, w, o) == w.(pc := FailFrom(m));
    } else {
      assert Continue(c, w, o) == w.(pc := Idle);
    }
    assert Continue(c, w, o) == w.(pc := pc);
    hide Continue, Seen, Checked;
  }

  lemma AofEffect(c: Config, w: World, m: Status, o: Outcome)
    requires w.pc == EnableAof(m)
    ensures Seen(Continue(c, w, o)) == Seen(w).(aofOn := w.aofOn || o.ok || o.effect)
    ensures Continue(c, w, o).pc == if o.ok then Lift(m, w.sentinels.Keys, true) else Idle
  {
    if o.ok {
    } else {
    }
  }

  /** The rest of a failure, once the volume is swept and AOF is back where it can be. */
  function FailingPc(m: Status, lift: bool, addrs: set<Addr>): Pc {
    if lift then FailLift(m, addrs, true) else Write(m.(phase := Failed))
  }

  lemma FailAofEffect(c: Config, w: World, m: Status, lift: bool, o: Outcome)
    requires w.pc == FailAof(m, lift)
    ensures Seen(Continue(c, w, o)) == Seen(w).(aofOn := w.aofOn || o.ok || o.effect)
    ensures Continue(c, w, o).pc == FailingPc(m, lift, w.sentinels.Keys)
  {
    if lift {
    } else {
    }
  }

  function SweptPc(m: Status, aof: bool, lift: bool, addrs: set<Addr>): Pc {
    if aof then FailAof(m, lift) else FailingPc(m, lift, addrs)
  }

  lemma FailingIsNotStaging(m: Status, aof: bool, lift: bool, addrs: set<Addr>)
    ensures !SweptPc(m, aof, lift, addrs).StageMarker? && !SweptPc(m, aof, lift, addrs).StageMove?
    ensures !FailingPc(m, lift, addrs).StageMarker? && !FailingPc(m, lift, addrs).StageMove?
  {
  }

  ghost function SweptSeen(v: Outside, o: Outcome): Outside {
    if o.ok then v.(payload := None, marker := None) else if o.effect then v.(payload := None) else v
  }

  lemma SweptIsSeen(w: World, o: Outcome)
    ensures Seen(Swept(w, o)) == SweptSeen(Seen(w), o)
  {
    if o.ok {
    } else if o.effect {
    }
  }

  lemma FailNextSeen(w: World, m: Status, lift: bool)
    ensures Seen(FailNext(w, m, lift)) == Seen(w)
    ensures FailNext(w, m, lift).pc == FailingPc(m, lift, w.sentinels.Keys)
  {
    if lift {
    } else {
    }
  }

  lemma SweepEffect(c: Config, w: World, m: Status, aof: bool, lift: bool, o: Outcome)
    requires w.pc == Sweep(m, aof, lift)
    ensures Seen(Continue(c, w, o)) == SweptSeen(Seen(w), o)
    ensures Continue(c, w, o).pc == SweptPc(m, aof, lift, w.sentinels.Keys)
  {
    SweptIsSeen(w, o);
    FailNextSeen(Swept(w, o), m, lift);
    hide Swept, FailNext;
    if aof {
    } else {
    }
  }

  lemma SweepLeads(c: Config, w: World, m: Status, aof: bool, lift: bool, o: Outcome)
    requires w.pc == Sweep(m, aof, lift)
    ensures Continue(c, w, o).pc == SweptPc(m, aof, lift, w.sentinels.Keys)
    ensures !Continue(c, w, o).pc.StageMarker? && !Continue(c, w, o).pc.StageMove?
  {
    SweepEffect(c, w, m, aof, lift, o);
    FailingIsNotStaging(m, aof, lift, w.sentinels.Keys);
    hide Continue, SweptPc, SweptSeen;
  }

  lemma DeleteLeads(c: Config, w: World, o: Outcome)
    requires w.pc == DeleteSweep
    ensures Continue(c, w, o).pc == Idle
  {
    DeleteEffect(c, w, o);
    hide Continue, SweptSeen;
  }

  lemma DeleteEffect(c: Config, w: World, o: Outcome)
    requires w.pc == DeleteSweep
    ensures Seen(Continue(c, w, o)) == SweptSeen(Seen(w), o).(present := w.present && !(w.current && o.finalized))
    ensures Continue(c, w, o).pc == Idle
  {
    SweptIsSeen(w, o);
    hide Swept;
    if w.current && o.finalized {
    } else {
    }
  }

  // ------------------------------------------------------------------ moves of the world

  /** What a move of the world leaves of a pass. */
  lemma EnvironmentOnPass(c: Config, w: World, a: Action)
    requires !a.Go?
    ensures Environment(c, w, a).pc == if a == Crash then Idle else if a == Boot then Interrupted(w.pc) else w.pc
  {
    hide HoldsQuiesce, BootStep;
    if a == Boot { BootOnPass(w); }
  }

  lemma BootOnPass(w: World)
    ensures BootStep(w).pc == Interrupted(w.pc)
  {
    BootEffect(w);
    hide BootStep, Interrupted, Seconds;
  }

  lemma BootEffect(w: World)
    ensures
      var live := w.payload.Some? && w.marker.Some? && Seconds(w.now) <= w.marker.value;
      BootStep(w) == w.(pc := Interrupted(w.pc), payload := None, marker := if w.payload.Some? then None else w.marker,
        aofOn := !live, loaded := if live then w.payload else w.loaded,
        late := w.late || (!live && w.payload == Some(w.run)))
  {
    hide Interrupted, Seconds;
  }

  /** Where a failing run or a deletion got through to the pod, no payload is left for a boot to load,
      whatever became of the answer; acknowledged, the marker is gone too. */
  lemma SweptVolumeIsEmpty(c: Config, w: World, o: Outcome)
    requires (w.pc.Sweep? || w.pc.DeleteSweep?) && (o.ok || o.effect)
    ensures Continue(c, w, o).payload == None && (o.ok ==> Continue(c, w, o).marker == None)
  {
    if w.pc.Sweep? {
      SweepEffect(c, w, w.pc.mem, w.pc.aof, w.pc.lift, o);
    } else {
      DeleteEffect(c, w, o);
    }
    hide Continue, SweptPc;
    assert Seen(Continue(c, w, o)).payload == None;
    assert o.ok ==> Seen(Continue(c, w, o)).marker == None;
  }
}
