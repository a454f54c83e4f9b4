/** The values the restore protocol leaves on the sentinels: what is recorded before the quiesce is
    the spec's down-after, and a run that says it was put back has put it back on all of them.
 */
module RestoreSettings {
  import opened Basics
  import opened Restore
  import opened RestoreCalls
  import opened RestoreEffects

  ghost predicate Copied(c: Config, s: Status) { s.breadcrumb == 0 || Ordinary(c, s.breadcrumb) }

  /** These sentinels are back at their ordinary value, or at what drift repair sets. */
  ghost predicate Back(c: Config, sentinels: map<Addr, int>, addrs: set<Addr>) {
    forall a :: a in addrs && a in sentinels ==> Ordinary(c, sentinels[a]) || sentinels[a] == c.downAfter
  }

  /** The write that takes the breadcrumb off a run's status. */
  ghost predicate Clears(pc: Pc, s: Status) {
    pc.Write? && Terminal(pc.mem.phase) && pc.mem.breadcrumb == 0 && s.breadcrumb != 0
  }

  ghost predicate Settled(c: Config, s: Status, pc: Pc, sentinels: map<Addr, int>) {
    && Copied(c, s) && (pc.Write? ==> Copied(c, pc.mem))
    && (pc.Lift? && pc.clean ==> Back(c, sentinels, sentinels.Keys - pc.todo))
    && (pc.FailLift? && pc.clean ==> Back(c, sentinels, sentinels.Keys - pc.todo))
    && (Clears(pc, s) ==> Back(c, sentinels, sentinels.Keys))
    && (s.phase == Completed ==> Back(c, sentinels, sentinels.Keys))
  }

  ghost predicate SettledIn(c: Config, w: World) { Settled(c, w.status, w.pc, w.sentinels) }

  /** What the invariant says about the pass's own copy. */
  ghost predicate Copy(w: World) {
    StatusOk(w.status) && PcOk(w.pc, w.status, w.generation, w.deleting)
  }

  lemma BeginsSettled(c: Config, w: World, o: Outcome)
    requires w.pc == Idle && SettledIn(c, w)
    ensures SettledIn(c, Continue(c, w, o))
  {
    BeginEffect(c, w, o);
    FirstEffectSets(c, w, o);
    hide Continue, FirstEffect;
  }

  lemma FirstEffectSets(c: Config, w: World, o: Outcome)
    ensures
      var pc := FirstEffect(c, w, o);
      && !pc.Lift? && !pc.FailLift?
      && (pc.Write? ==> !Terminal(pc.mem.phase) && (pc.mem.breadcrumb == 0 || pc.mem.breadcrumb == w.status.breadcrumb))
  {
    hide Seconds, Expired;
  }

  lemma WriteSettles(c: Config, w: World, o: Outcome)
    requires Copy(w) && SettledIn(c, w) && w.pc.Write?
    ensures SettledIn(c, Continue(c, w, o))
  {
    WriteEffect(c, w, w.pc.mem, o);
    hide Continue;
  }

  lemma RecordSettles(c: Config, w: World, o: Outcome)
    requires Copy(w) && SettledIn(c, w) && w.pc.Breadcrumb?
    ensures SettledIn(c, Continue(c, w, o))
  {
    RecordEffect(c, w, w.pc.mem, o);
    hide Continue;
  }

  function KindOf(pc: Pc): Kind
    requires pc.Quiesce? || pc.Lift? || pc.FailLift?
  {
    if pc.Quiesce? then Raising else if pc.Lift? then Lifting else LiftingFailed
  }

  /** One more sentinel took its value, or the broadcast is not clean any more. */
  lemma BackGrows(c: Config, w: World, value: int, todo: set<Addr>, o: Outcome)
    requires Back(c, w.sentinels, w.sentinels.Keys - todo) && Ordinary(c, value) && o.ok
    ensures
      var sentinels := SetOne(w, value, o);
      Back(c, sentinels, sentinels.Keys - (todo - {o.addr}))
  {
  }

  lemma SetSettles(c: Config, w: World, o: Outcome)
    requires Copy(w) && SettledIn(c, w) && (w.pc.Quiesce? || w.pc.Lift? || w.pc.FailLift?) && o.addr in w.pc.todo
    ensures SettledIn(c, Continue(c, w, o))
  {
    var kind, m, todo, clean := KindOf(w.pc), w.pc.mem, w.pc.todo, w.pc.clean;
    SetEffect(c, w, kind, m, todo, clean, o);
    hide Continue, SetOne;
    if kind != Raising && clean && o.ok {
      BackGrows(c, w, m.breadcrumb, todo, o);
    }
    hide Back;
  }

  lemma ConcludeSettles(c: Config, w: World, o: Outcome)
    requires Copy(w) && SettledIn(c, w) && (w.pc.Quiesce? || w.pc.Lift? || w.pc.FailLift?) && w.pc.todo == {}
    ensures SettledIn(c, Continue(c, w, o))
  {
    ConcludeEffect(c, w, KindOf(w.pc), w.pc.mem, w.pc.clean, o);
    hide Continue;
    assert w.sentinels.Keys - {} == w.sentinels.Keys;
    hide Back;
  }

  lemma NothingSet(c: Config, w: World, o: Outcome)
    requires w.pc.Quiesce? || w.pc.Lift? || w.pc.FailLift?
    requires w.pc.todo != {} && o.addr !in w.pc.todo
    ensures Continue(c, w, o) == w
  {
  }

  /** A broadcast yet to begin has reached nobody. */
  lemma NobodyYet(c: Config, sentinels: map<Addr, int>)
    ensures Back(c, sentinels, sentinels.Keys - sentinels.Keys)
  {
  }

  lemma CheckSettles(c: Config, w: World, o: Outcome)
    requires Copy(w) && SettledIn(c, w) && (w.pc.Verify? || w.pc.EnableAof? || w.pc.ShutDown?)
    ensures SettledIn(c, Continue(c, w, o))
  {
    NobodyYet(c, w.sentinels);
    match w.pc {
      case Verify(m) => CheckEffect(c, w, m, o);
      case EnableAof(m) => AofEffect(c, w, m, o);
      case ShutDown(m) => ShutDownEffect(c, w, m, o);
    }
    hide Continue, Back;
  }

  lemma SweepSettles(c: Config, w: World, o: Outcome)
    requires Copy(w) && SettledIn(c, w) && w.pc.Sweep?
    ensures SettledIn(c, Continue(c, w, o))
  {
    NobodyYet(c, w.sentinels);
    SweepEffect(c, w, w.pc.mem, w.pc.aof, w.pc.lift, o);
    hide Continue, Back;
  }

  lemma FailSettles(c: Config, w: World, o: Outcome)
    requires Copy(w) && SettledIn(c, w) && (w.pc.FailAof? || w.pc.DeleteSweep?)
    ensures SettledIn(c, Continue(c, w, o))
  {
    NobodyYet(c, w.sentinels);
    match w.pc {
      case FailAof(m, lift) => FailAofEffect(c, w, m, lift, o);
      case DeleteSweep => DeleteEffect(c, w, o);
    }
    hide Continue, Back;
  }

  lemma StageSettles(c: Config, w: World, o: Outcome)
    requires Copy(w) && SettledIn(c, w) && (w.pc.StageMarker? || w.pc.StageMove? || w.pc.Probe?)
    ensures SettledIn(c, Continue(c, w, o))
  {
    match w.pc {
      case StageMarker(m, at) => MarkerEffect(c, w, m, at, o);
      case StageMove(m) => PayloadEffect(c, w, m, o);
      case Probe(m) => LookEffect(c, w, m, o);
    }
    hide Continue, Back;
  }

  lemma GoSettles(c: Config, w: World, o: Outcome)
    requires Copy(w) && SettledIn(c, w)
    ensures SettledIn(c, Continue(c, w, o))
  {
    hide Copy, SettledIn, Continue;
    match w.pc {
      case Idle => BeginsSettled(c, w, o);
      case Write(_) => WriteSettles(c, w, o);
      case StageMarker(_, _) => StageSettles(c, w, o);
      case StageMove(_) => StageSettles(c, w, o);
      case Probe(_) => StageSettles(c, w, o);
      case Breadcrumb(_) => RecordSettles(c, w, o);
      case ShutDown(_) => CheckSettles(c, w, o);
      case Verify(_) => CheckSettles(c, w, o);
      case EnableAof(_) => CheckSettles(c, w, o);
      case Sweep(_, _, _) => SweepSettles(c, w, o);
      case FailAof(_, _) => FailSettles(c, w, o);
      case DeleteSweep => FailSettles(c, w, o);
      case _ =>
        if o.addr in w.pc.todo {
          SetSettles(c, w, o);
        } else if w.pc.todo == {} {
          ConcludeSettles(c, w, o);
        } else {
          NothingSet(c, w, o);
        }
    }
  }

  lemma BootSets(w: World)
    ensures BootStep(w).status == w.status && BootStep(w).sentinels == w.sentinels
  {
    BootEffect(w);
    hide BootStep, Seconds, Interrupted;
  }

  lemma DriftSets(c: Config, w: World, x: Addr, effect: bool)
    ensures Environment(c, w, DriftSet(x, effect)).status == w.status
    ensures Environment(c, w, DriftSet(x, effect)).sentinels == w.sentinels ||
      (x in w.sentinels && Environment(c, w, DriftSet(x, effect)).sentinels == w.sentinels[x := c.downAfter])
  {
    hide HoldsQuiesce;
    if w.drift.Repairing? && !w.drift.quiesced && effect && x in w.sentinels {
    } else {
      assert Environment(c, w, DriftSet(x, effect)) == w;
    }
  }

  /** What a move of the world does to the settings. */
  lemma EnvironmentSets(c: Config, w: World, a: Action)
    requires !a.Go?
    ensures Environment(c, w, a).status == w.status
    ensures Environment(c, w, a).sentinels == w.sentinels ||
      (a.DriftSet? && a.addr in w.sentinels &&
       Environment(c, w, a).sentinels == w.sentinels[a.addr := c.downAfter])
  {
    match a {
      case Boot => BootSets(w);
      case DriftSet(x, effect) =>
        DriftSets(c, w, x, effect);
        hide Environment;
      case _ =>
    }
    hide HoldsQuiesce, BootStep;
  }

  lemma EnvironmentSettles(c: Config, w: World, a: Action)
    requires SettledIn(c, w) && !a.Go?
    ensures SettledIn(c, Environment(c, w, a))
  {
    EnvironmentSets(c, w, a);
    EnvironmentOnPass(c, w, a);
    hide Environment;
  }

  lemma {:induction false} RunSettles(c: Config, w: World, acts: seq<Action>)
    requires Inv(c, w) && SettledIn(c, w)
    ensures SettledIn(c, Run(c, w, acts))
    decreases |acts|
  {
    if acts != [] {
      var before, a := Run(c, w, acts[..|acts| - 1]), acts[|acts| - 1];
      RunKeepsInv(c, w, acts[..|acts| - 1]);
      assert Copy(before) by { hide VolumeInv, QuiesceInv, PassInv, Run; }
      hide Inv, Copy, SettledIn, Continue, Environment;
      RunSettles(c, w, acts[..|acts| - 1]);
      if a.Go? {
        GoSettles(c, before, a.o);
      } else {
        EnvironmentSettles(c, before, a);
      }
    }
  }

  lemma ReachableSettled(c: Config, w0: World, w: World)
    requires Initial(w0) && Reaches(c, w0, w)
    ensures SettledIn(c, w)
  {
    var acts :| Run(c, w0, acts) == w;
    InitialInv(c, w0);
    assert SettledIn(c, w0);
    RunSettles(c, w0, acts);
  }

  // ------------------------------------------------------------------ the main results

  /** In every reachable state the value recorded to be put back is the spec's, or 5000 where the
      spec has none. */
  lemma BreadcrumbIsTheSpecs(c: Config, w0: World, w: World)
    requires Initial(w0) && Reaches(c, w0, w) && w.status.breadcrumb != 0
    ensures c.downAfter != 0 ==> w.status.breadcrumb == c.downAfter
    ensures c.downAfter == 0 ==> w.status.breadcrumb == 5000
  {
    ReachableSettled(c, w0, w);
  }

  /** When a restore is completed, every sentinel is back at the spec's value, and so it is when a
      failing run is about to take the breadcrumb off its status. Where the spec has no value they
      are at 5000, or at the zero drift repair would set. */
  lemma SentinelsAreBack(c: Config, w0: World, w: World)
    requires Initial(w0) && Reaches(c, w0, w)
    requires w.status.phase == Completed ||
      (w.pc.Write? && w.pc.mem.phase == Failed && w.pc.mem.breadcrumb == 0 && w.status.breadcrumb != 0)
    ensures c.downAfter != 0 ==> forall a :: a in w.sentinels ==> w.sentinels[a] == c.downAfter
    ensures c.downAfter == 0 ==> forall a :: a in w.sentinels ==> w.sentinels[a] == 5000 || w.sentinels[a] == 0
  {
    ReachableSettled(c, w0, w);
  }
}
