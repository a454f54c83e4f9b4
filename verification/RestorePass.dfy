/** A pass of the restore reconciler as the code writes it. The reconciler keeps its own copy of
    the status, updates fields of it, and issues one call after the other against the API server,
    the master's volume and the sentinels, each of which carries out its own part. Between two
    calls the rest of the world moves as it pleases, and the operator may die.

    `model` is a state of the transition system of Restore; every call and every move is shown to
    have there exactly the effect it had here, so the theorems of Restore hold at every instant.
 */
module RestorePass {
  import opened Basics
  import opened Restore
  import opened RestoreCalls
  import opened RestoreEffects
  import opened RestoreSettings

  // ------------------------------------------------------------------ histories

  /** The history of these outcomes, each followed by the moves of the world. */
  ghost function Unroll(moves: nat -> seq<Action>, gos: seq<Outcome>): seq<Action> {
    if gos == [] then []
    else Unroll(moves, gos[..|gos| - 1]) + [Go(gos[|gos| - 1])] + moves(|gos| - 1)
  }

  ghost predicate Moves(moves: nat -> seq<Action>) {
    forall k: nat, i :: 0 <= i < |moves(k)| ==> !moves(k)[i].Go?
  }

  /** The effects turned out as the world decided; only the address was the reconciler's choice. */
  ghost predicate Answered(outs: nat -> Outcome, gos: seq<Outcome>) {
    forall k :: 0 <= k < |gos| ==> gos[k] == outs(k).(addr := gos[k].addr)
  }

  lemma AnsweredOn(outs: nat -> Outcome, gos: seq<Outcome>, o: Outcome)
    requires Answered(outs, gos) && o == outs(|gos|).(addr := o.addr)
    ensures Answered(outs, gos + [o])
  {
  }

  /** Between the a-th and the b-th effect the operator died, or the master's container restarted. */
  ghost predicate Killed(moves: nat -> seq<Action>, a: nat, b: nat) {
    exists k :: a <= k < b && (Crash in moves(k) || Boot in moves(k))
  }

  class Reconciler {
    const c: Config
    const outs: nat -> Outcome         // how the effects turn out
    const moves: nat -> seq<Action>    // what others do after each of them
    ghost const start: World
    // the object
    var present: bool
    var deleting: bool
    var generation: nat
    var status: Status
    var current: bool
    var run: nat
    // the clock, the master's volume, the sentinels
    var now: nat
    var payload: Option<nat>
    var marker: Option<nat>
    var aofOn: bool
    var sentinels: map<Addr, int>
    var drift: Drift
    // the pass
    var read: Status
    var calls: seq<Call>
    var n: nat
    // history
    ghost var model: World
    ghost var gos: seq<Outcome>
    ghost var acts: seq<Action>

    constructor (c: Config, outs: nat -> Outcome, moves: nat -> seq<Action>, w: World)
      requires Initial(w) && Moves(moves)
      ensures Valid() && model == w && start == w && this.c == c && this.outs == outs && this.moves == moves
      ensures gos == [] && calls == []
    {
      this.c, this.outs, this.moves, start := c, outs, moves, w;
      present, deleting, generation := w.present, w.deleting, w.generation;
      status, current, run := w.status, w.current, w.run;
      now, payload, marker, aofOn, sentinels, drift := w.now, w.payload, w.marker, w.aofOn, w.sentinels, w.drift;
      read, calls, n, model, gos, acts := w.status, [], 0, w, [], [];
    }

    ghost function Here(): Outside
      reads this`present, this`deleting, this`generation, this`status, this`current, this`run, this`now, this`payload,
        this`marker, this`aofOn, this`sentinels, this`drift
    {
      Outside(present, deleting, generation, status, current, run, now, payload, marker, aofOn, sentinels, drift)
    }

    /** What is out there is what the model says. */
    ghost predicate Agrees(w: World)
      reads this`present, this`deleting, this`generation, this`status, this`current, this`run, this`now, this`payload,
        this`marker, this`aofOn, this`sentinels, this`drift
    {
      Seen(w) == Here()
    }

    ghost predicate Past()
      reads this`model, this`acts, this`gos, this`n
    {
      && Initial(start) && Moves(moves) && model == Run(c, start, acts)
      && acts == Unroll(moves, gos) && |gos| == n
      && Answered(outs, gos)
    }

    ghost predicate Valid()
      reads this
    {
      Past() && Agrees(model)
    }

    /** The restore branch of the init script. */
    method BootContainer()
      modifies this`payload, this`marker, this`aofOn
      ensures payload == None
      ensures old(payload).None? ==> marker == old(marker) && aofOn
      ensures old(payload).Some? ==> marker == None
      ensures old(payload).Some? ==> (aofOn <==> !(old(marker).Some? && Seconds(now) <= old(marker).value))
    {
      aofOn := true;
      if payload.Some? {
        if marker.Some? && Seconds(now) <= marker.value {
          payload := None;
          marker := None;
          aofOn := false;
        } else {
          payload, marker := None, None;
        }
      }
    }

    /** The container starts. */
    method MoveBoot()
      requires Agrees(model)
      modifies this`payload, this`marker, this`aofOn
      ensures Agrees(Environment(c, model, Boot))
    {
      hide Interrupted, Seconds;
      BootEffect(model);
      BootContainer();
      hide BootStep;
    }

    /** Drift repair begins, sets a value back, or ends. */
    method MoveDrift(a: Action)
      requires Agrees(model) && (a.DriftBegin? || a.DriftSet? || a.DriftEnd?)
      modifies this`sentinels, this`drift
      ensures Agrees(Environment(c, model, a)) && sentinels.Keys == old(sentinels).Keys
    {
      hide BootStep;
      match a {
        case DriftBegin => drift := Repairing(present && status.breadcrumb != 0 && !Terminal(status.phase));
        case DriftSet(x, effect) =>
          if drift == Repairing(false) && effect && x in sentinels {
            sentinels := sentinels[x := c.downAfter];
          }
        case DriftEnd => drift := NoPass;
      }
    }

    /** Time passes, or the object is edited. */
    method MoveObject(a: Action)
      requires Agrees(model) && (a.Tick? || a.SpecEdit? || a.DeleteRequest?)
      modifies this`deleting, this`generation, this`current, this`now
      ensures Agrees(Environment(c, model, a))
    {
      hide BootStep, HoldsQuiesce;
      match a {
        case Tick(ms) => now := now + ms;
        case SpecEdit => generation, current := generation + 1, false;
        case DeleteRequest => deleting, current := true, false;
      }
    }

    lemma CrashAgrees()
      requires Agrees(model)
      ensures Agrees(Environment(c, model, Crash))
    {
    }

    method MoveFields(a: Action)
      requires Agrees(model) && !a.Go?
      modifies this`deleting, this`generation, this`current, this`now, this`payload, this`marker, this`aofOn,
        this`sentinels, this`drift
      ensures Agrees(Environment(c, model, a)) && sentinels.Keys == old(sentinels).Keys
    {
      if a == Crash { CrashAgrees(); }
      hide Environment, Agrees;
      if a == Boot {
        MoveBoot();
      } else if a.DriftBegin? || a.DriftSet? || a.DriftEnd? {
        MoveDrift(a);
      } else if a != Crash {
        MoveObject(a);
      }
    }

    /** One move of the world. */
    method Move(a: Action, staging: bool) returns (alive: bool)
      requires Agrees(model) && model == Run(c, start, acts) && !a.Go?
      requires staging ==> model.pc == Idle || model.pc.StageMarker? || model.pc.StageMove?
      requires !staging ==> !model.pc.StageMarker? && !model.pc.StageMove?
      modifies this`model, this`acts, this`deleting, this`generation, this`current, this`now, this`payload, this`marker,
        this`aofOn, this`sentinels, this`drift
      ensures Agrees(model) && acts == old(acts) + [a] && model == Run(c, start, acts)
      ensures model.pc == if alive then old(model).pc else Idle
      ensures !alive ==> a == Crash || a == Boot
      ensures sentinels.Keys == old(sentinels).Keys
    {
      EnvironmentOnPass(c, model, a);
      RunOnMove(c, start, acts, a);
      hide Run, Environment, Agrees;
      MoveFields(a);
      model := Environment(c, model, a);
      acts := acts + [a];
      alive := a != Crash && !(a == Boot && staging);
    }

    /** The moves of the others after the n-th effect. */
    method Others(staging: bool) returns (alive: bool)
      requires Moves(moves) && Agrees(model) && model == Run(c, start, acts)
      requires staging <==> model.pc.StageMarker? || model.pc.StageMove?
      modifies this`model, this`acts, this`deleting, this`generation, this`current, this`now, this`payload, this`marker,
        this`aofOn, this`sentinels, this`drift
      ensures Agrees(model) && model == Run(c, start, acts) && acts == old(acts) + moves(n)
      ensures sentinels.Keys == old(sentinels).Keys
      ensures model.pc == if alive then old(model).pc else Idle
      ensures !alive ==> Killed(moves, n, n + 1)
    {
      hide Run, Environment, Agrees;
      ghost var effect := model.pc;
      alive := true;
      var others := moves(n);
      for i := 0 to |others|
        invariant Agrees(model) && model == Run(c, start, acts) && acts == old(acts) + others[..i]
        invariant sentinels.Keys == old(sentinels).Keys
        invariant model.pc == if alive then effect else Idle
        invariant !alive ==> Crash in others[..i] || Boot in others[..i]
      {
        var still := Move(others[i], staging);
        alive := alive && still;
        assert others[..i + 1] == others[..i] + [others[i]];
        assert acts == old(acts) + others[..i + 1];
      }
      assert others[..|others|] == others;
    }

    /** An effect has happened, and nobody has moved since. */
    ghost predicate Midway(o: Outcome)
      reads this`model, this`acts, this`gos, this`n
    {
      && Initial(start) && Moves(moves) && model == Run(c, start, acts)
      && acts == Unroll(moves, gos) + [Go(o)] && |gos| == n
      && Answered(outs, gos) && o == outs(n).(addr := o.addr)
    }

    /** The effect in the model. */
    ghost method Follow(o: Outcome)
      requires Past() && o == outs(n).(addr := o.addr)
      modifies this`model, this`acts
      ensures Midway(o) && model == old(Continue(c, model, o))
    {
      hide Initial, Moves, Answered;
      RunOnEffect(c, start, acts, o);
      hide Run, Continue;
      model := Continue(c, model, o);
      acts := acts + [Go(o)];
    }

    /** The effect is over: `o` is how it turned out, and what it did is in the fields. Now the
        others move. `staging` is whether the pass goes on inside the staging script, which a boot
        of its container takes down with it. */
    method Settle(o: Outcome, staging: bool) returns (alive: bool)
      requires Midway(o) && Agrees(model)
      requires staging <==> model.pc.StageMarker? || model.pc.StageMove?
      modifies this`model, this`gos, this`acts, this`n, this`deleting, this`generation, this`current, this`now,
        this`payload, this`marker, this`aofOn, this`sentinels, this`drift
      ensures Valid() && n == old(n) + 1 && sentinels.Keys == old(sentinels).Keys
      ensures model.pc == if alive then old(model).pc else Idle
      ensures !alive ==> Killed(moves, old(n), n)
    {
      hide Run, Agrees, Killed, Moves, Initial, Answered, Unroll;
      alive := Others(staging);
      Book(o);
    }

    method Book(o: Outcome)
      requires Initial(start) && Moves(moves) && model == Run(c, start, acts)
      requires |gos| == n && acts == Unroll(moves, gos) + [Go(o)] + moves(n)
      requires Answered(outs, gos) && o == outs(n).(addr := o.addr)
      modifies this`gos, this`n
      ensures Past() && n == old(n) + 1
    {
      AnsweredOn(outs, gos, o);
      UnrollOn(moves, gos, o);
      hide Run, Moves, Initial, Answered, Unroll;
      gos := gos + [o];
      n := n + 1;
    }

    // ---------------------------------------------------------------- the calls

    ghost predicate Orderly()
      reads this
    {
      InOrder(c, read, sentinels.Keys, calls)
    }

    ghost predicate Permits(x: Call)
      reads this
    {
      May(c, read, sentinels.Keys, calls, x)
    }

    /** One more call of the same pass. */
    twostate predicate Issued(x: Call)
      reads this
    {
      && Valid() && Orderly() && calls == old(calls) + [x] && read == old(read)
      && sentinels.Keys == old(sentinels).Keys && n == old(n) + 1
    }

    lemma OrderlyOn(x: Call)
      requires Orderly() && Permits(x)
      ensures InOrder(c, read, sentinels.Keys, calls + [x])
    {
      InOrderGrows(c, read, sentinels.Keys, calls, x);
    }

    method Note(x: Call)
      requires Orderly() && Permits(x)
      modifies this`calls
      ensures Orderly() && calls == old(calls) + [x]
    {
      OrderlyOn(x);
      hide InOrder, Permits;
      calls := calls + [x];
    }

    /** An effect that is in the fields already, and the moves of the others after it. */
    method Turn(o: Outcome, staging: bool) returns (alive: bool)
      requires Past() && o == outs(n).(addr := o.addr) && Agrees(Continue(c, model, o))
      requires staging <==> Continue(c, model, o).pc.StageMarker? || Continue(c, model, o).pc.StageMove?
      modifies this`model, this`gos, this`acts, this`n, this`deleting, this`generation, this`current, this`now,
        this`payload, this`marker, this`aofOn, this`sentinels, this`drift
      ensures Valid() && n == old(n) + 1 && sentinels.Keys == old(sentinels).Keys
      ensures model.pc == if alive then old(Continue(c, model, o).pc) else Idle
      ensures !alive ==> Killed(moves, old(n), n)
    {
      hide Continue, Agrees, Killed;
      Follow(o);
      hide Past, Midway;
      alive := Settle(o, staging);
    }

    /** Enters the call; what it did is in the fields. Then the others move. */
    method Enter(x: Call, o: Outcome, staging: bool) returns (alive: bool)
      requires Past() && o == outs(n).(addr := o.addr) && Agrees(Continue(c, model, o))
      requires staging <==> Continue(c, model, o).pc.StageMarker? || Continue(c, model, o).pc.StageMove?
      requires Orderly() && Permits(x)
      modifies this`calls, this`model, this`gos, this`acts, this`n, this`deleting, this`generation, this`current,
        this`now, this`payload, this`marker, this`aofOn, this`sentinels, this`drift
      ensures Issued(x)
      ensures model.pc == if alive then old(Continue(c, model, o).pc) else Idle
      ensures !alive ==> Killed(moves, old(n), n)
    {
      hide Past, InOrder, Permits, Continue, Agrees, Killed;
      Note(x);
      alive := Turn(o, staging);
    }

    method WriteFields(m: Status, o: Outcome)
      requires Agrees(model) && model.pc == Write(m)
      modifies this`status, this`run
      ensures Agrees(Continue(c, model, o)) && status ==
        if current && (o.ok || o.effect) then m.(observed := generation) else old(status)
    {
      hide Continue;
      WriteEffect(c, model, m, o);
      if current && (o.ok || o.effect) {
        status := m.(observed := generation);
        if m.phase == Pending {
          run := run + 1;
        }
      }
    }

    /** updateStatus: the write a pass ends with. A write based on a stale version is refused. */
    method UpdateStatus(m: Status) returns (ok: bool)
      requires Valid() && Orderly() && model.pc == Write(m) && Permits(Update(m, true))
      modifies this
      ensures Issued(Update(m, ok)) && model.pc == Idle
      ensures status == old(status) || status == m.(observed := old(generation))
      ensures ok ==> status == m.(observed := old(generation))
    {
      var o := outs(n);
      hide Continue;
      WriteEffect(c, model, m, o);
      assert Permits(Update(m, false));
      hide Past, InOrder, Permits, Agrees;
      ok := current && o.ok;
      WriteFields(m, o);
      var alive := Enter(Update(m, ok), o, false);
    }

    method MarkerFields(m: Status, at: nat, o: Outcome)
      requires Agrees(model) && model.pc == StageMarker(m, at)
      modifies this`marker
      ensures Agrees(Continue(c, model, o))
    {
      hide Continue;
      MarkerEffect(c, model, m, at, o);
      if o.ok || o.effect {
        marker := Some(Deadline(at));
      }
    }

    /** The staging script writes the marker. */
    method WriteMarker(m: Status, at: nat) returns (ok: bool, alive: bool)
      requires Valid() && Orderly() && model.pc == StageMarker(m, at) && Permits(PutMarker(Deadline(at), true))
      modifies this
      ensures Issued(PutMarker(Deadline(at), ok)) && status == old(status)
      ensures model.pc == if alive && ok then StageMove(m) else Idle
      ensures !alive ==> Killed(moves, old(n), n)
    {
      var o := outs(n);
      hide Continue;
      MarkerEffect(c, model, m, at, o);
      assert Permits(PutMarker(Deadline(at), false));
      hide Past, InOrder, Permits, Agrees, Killed;
      ok := o.ok;
      MarkerFields(m, at, o);
      alive := Enter(PutMarker(Deadline(at), ok), o, ok);
    }

    method PayloadFields(m: Status, o: Outcome)
      requires Agrees(model) && model.pc == StageMove(m)
      modifies this`payload
      ensures Agrees(Continue(c, model, o))
    {
      hide Continue;
      PayloadEffect(c, model, m, o);
      if o.ok || o.effect {
        payload := Some(run);
      }
    }

    /** The staging script renames the payload into place. */
    method WritePayload(m: Status) returns (ok: bool, alive: bool)
      requires Valid() && Orderly() && model.pc == StageMove(m) && Permits(PutPayload(true))
      modifies this
      ensures Issued(PutPayload(ok)) && status == old(status)
      ensures model.pc == if alive && ok then Write(m.(phase := Phase.Restoring)) else Idle
      ensures !alive ==> Killed(moves, old(n), n)
    {
      var o := outs(n);
      hide Continue;
      PayloadEffect(c, model, m, o);
      assert Permits(PutPayload(false));
      hide Past, InOrder, Permits, Agrees, Killed;
      ok := o.ok;
      PayloadFields(m, o);
      alive := Enter(PutPayload(ok), o, false);
    }

    /** restorePayloadPresent */
    method LookForIt(m: Status) returns (ok: bool, there: bool, alive: bool)
      requires Valid() && Orderly() && model.pc == Probe(m) && Permits(Look(true, true))
      modifies this
      ensures Issued(Look(ok, there)) && status == old(status) && there == old(payload).Some?
      ensures model.pc == if alive then Looked(m, ok, there, |sentinels| >= c.replicas, sentinels.Keys) else Idle
      ensures !alive ==> Killed(moves, old(n), n)
    {
      var o := outs(n);
      hide Continue;
      LookEffect(c, model, m, o);
      ok, there := o.ok, payload.Some?;
      assert Permits(Look(ok, there));
      hide Past, InOrder, Permits, Killed, Looked;
      SameSize(model.sentinels, sentinels);
      ghost var before := sentinels;
      alive := Enter(Look(ok, there), o, false);
      SameSize(before, sentinels);
    }

    method RecordFields(m: Status, o: Outcome)
      requires Agrees(model) && model.pc == Breadcrumb(m)
      modifies this`status
      ensures Agrees(Continue(c, model, o)) && status ==
        if current && (o.ok || o.effect) then Marked(c, m) else old(status)
    {
      hide Continue;
      RecordEffect(c, model, m, o);
      hide Marked;
      if current && (o.ok || o.effect) {
        status := Marked(c, m);
      }
    }

    /** The value to put back later is persisted before any sentinel is touched. */
    method RecordQuiesce(m: Status) returns (ok: bool, alive: bool)
      requires Valid() && Orderly() && model.pc == Breadcrumb(m) && Permits(Record(Marked(c, m).breadcrumb, true))
      modifies this
      ensures Issued(Record(Marked(c, m).breadcrumb, ok))
      ensures status == old(status) || status == Marked(c, m)
      ensures model.pc == if alive && ok && |sentinels| >= c.replicas then Quiesce(Marked(c, m), sentinels.Keys, true)
        else Idle
      ensures !alive ==> Killed(moves, old(n), n)
    {
      var o := outs(n);
      hide Continue;
      RecordEffect(c, model, m, o);
      assert Permits(Record(Marked(c, m).breadcrumb, false));
      ok := current && o.ok;
      hide Past, InOrder, Permits, Agrees, Killed, Marked;
      RecordFields(m, o);
      ghost var before := sentinels;
      alive := Enter(Record(Marked(c, m).breadcrumb, ok), o, false);
      SameSize(before, sentinels);
    }

    method SetFields(kind: Kind, m: Status, todo: set<Addr>, clean: bool, o: Outcome)
      requires Agrees(model) && model.pc == Setting(kind, m, todo, clean) && o.addr in todo
      modifies this`sentinels
      ensures Agrees(Continue(c, model, o)) && sentinels.Keys == old(sentinels).Keys
    {
      hide Continue;
      SetEffect(c, model, kind, m, todo, clean, o);
      hide Setting;
      if (o.ok || o.effect) && o.addr in sentinels {
        sentinels := sentinels[o.addr := ValueOf(kind, m)];
      }
    }

    /** SENTINEL SET on one sentinel. */
    method Tell(kind: Kind, m: Status, todo: set<Addr>, clean: bool, a: Addr) returns (ok: bool, alive: bool)
      requires Valid() && Orderly() && model.pc == Setting(kind, m, todo, clean) && a in todo
      requires Permits(Telling(kind, m, a, true)) && Permits(Telling(kind, m, a, false))
      modifies this
      ensures Issued(Telling(kind, m, a, ok)) && status == old(status)
      ensures model.pc == if alive then Setting(kind, m, todo - {a}, clean && ok) else Idle
      ensures !alive ==> Killed(moves, old(n), n)
    {
      var o := outs(n).(addr := a);
      hide Continue;
      SetEffect(c, model, kind, m, todo, clean, o);
      SettingIsNotStaging(kind, m, todo - {a}, clean && o.ok);
      hide Past, InOrder, Permits, Agrees, Killed, Setting;
      ok := o.ok;
      SetFields(kind, m, todo, clean, o);
      alive := Enter(Telling(kind, m, a, ok), o, false);
    }

    /** The broadcast is over. */
    method Conclude(kind: Kind, m: Status, clean: bool) returns (alive: bool)
      requires Valid() && Orderly() && model.pc == Setting(kind, m, {}, clean)
      modifies this
      ensures Valid() && Orderly() && calls == old(calls) && read == old(read) && sentinels.Keys == old(sentinels).Keys
      ensures status == old(status) && n == old(n) + 1
      ensures model.pc == if alive then Following(kind, m, clean) else Idle
      ensures !alive ==> Killed(moves, old(n), n)
    {
      var o := outs(n);
      hide Continue;
      ConcludeEffect(c, model, kind, m, clean, o);
      hide Past, InOrder, Killed, Setting;
      alive := Turn(o, false);
    }

    /** SHUTDOWN NOSAVE */
    method ShutItDown(m: Status)
      requires Valid() && Orderly() && model.pc == ShutDown(m) && Permits(ShutDownMaster)
      modifies this
      ensures Issued(ShutDownMaster) && status == old(status) && model.pc == Idle
    {
      var o := outs(n);
      hide Continue;
      ShutDownEffect(c, model, m, o);
      hide Past, InOrder, Permits, Killed;
      var alive := Enter(ShutDownMaster, o, false);
    }

    /** Ping, role and keyspace of the restarted master. */
    method CheckMaster(m: Status) returns (ok: bool, lost: bool, keys: nat, alive: bool)
      requires Valid() && Orderly() && model.pc == Verify(m) && Permits(Check(true, true, 0))
      modifies this
      ensures Issued(Check(ok, lost, keys)) && status == old(status)
      ensures model.pc == if alive then Checked(m, ok, lost, keys) else Idle
      ensures !alive ==> Killed(moves, old(n), n)
    {
      var o := outs(n);
      hide Continue;
      CheckEffect(c, model, m, o);
      ok, lost, keys := o.ok, o.effect, o.keys;
      assert Permits(Check(ok, lost, keys));
      assert !Checked(m, ok, lost, keys).StageMarker? && !Checked(m, ok, lost, keys).StageMove?;
      hide Past, InOrder, Permits, Killed, Checked;
      alive := Enter(Check(ok, lost, keys), o, false);
    }

    method AofFields(o: Outcome)
      requires Agrees(model) && (model.pc.EnableAof? || model.pc.FailAof?)
      modifies this`aofOn
      ensures Agrees(Continue(c, model, o))
    {
      if model.pc.EnableAof? {
        hide Continue;
        AofEffect(c, model, model.pc.mem, o);
      } else {
        hide Continue;
        FailAofEffect(c, model, model.pc.mem, model.pc.lift, o);
      }
      aofOn := aofOn || o.ok || o.effect;
    }

    /** CONFIG SET appendonly yes, once the dataset is verified. */
    method EnableAppendonly(m: Status) returns (ok: bool, alive: bool)
      requires Valid() && Orderly() && model.pc == EnableAof(m) && Permits(AofOn(true))
      modifies this
      ensures Issued(AofOn(ok)) && status == old(status)
      ensures model.pc == if alive && ok then Lift(m, sentinels.Keys, true) else Idle
      ensures !alive ==> Killed(moves, old(n), n)
    {
      var o := outs(n);
      hide Continue;
      AofEffect(c, model, m, o);
      assert Permits(AofOn(false)) && model.sentinels == sentinels;
      hide Past, InOrder, Permits, Agrees, Killed;
      ok := o.ok;
      AofFields(o);
      alive := Enter(AofOn(ok), o, false);
    }

    /** reenableAppendonly, on the way to a failure. */
    method ReenableAppendonly(m: Status, lift: bool) returns (ok: bool, alive: bool)
      requires Valid() && Orderly() && model.pc == FailAof(m, lift) && Permits(AofOn(true))
      modifies this
      ensures Issued(AofOn(ok)) && status == old(status)
      ensures model.pc == if alive then FailingPc(m, lift, sentinels.Keys) else Idle
      ensures !alive ==> Killed(moves, old(n), n)
    {
      var o := outs(n);
      hide Continue;
      FailAofEffect(c, model, m, lift, o);
      assert Permits(AofOn(false)) && model.sentinels == sentinels;
      FailingIsNotStaging(m, false, lift, sentinels.Keys);
      hide Past, InOrder, Permits, Agrees, Killed, FailingPc;
      ok := o.ok;
      AofFields(o);
      alive := Enter(AofOn(ok), o, false);
    }

    /** rm -f of payload and marker, in that order. */
    method RemoveFiles(o: Outcome)
      modifies this`payload, this`marker
      ensures payload == if o.ok || o.effect then None else old(payload)
      ensures marker == if o.ok then None else old(marker)
    {
      if o.ok {
        payload, marker := None, None;
      } else if o.effect {
        payload := None;
      }
    }

    method SweepFields(m: Status, aof: bool, lift: bool, o: Outcome)
      requires Agrees(model) && model.pc == Sweep(m, aof, lift)
      modifies this`payload, this`marker
      ensures Agrees(Continue(c, model, o))
    {
      hide Continue;
      SweepEffect(c, model, m, aof, lift, o);
      RemoveFiles(o);
    }

    method DeleteFields(o: Outcome)
      requires Agrees(model) && model.pc == DeleteSweep
      modifies this`payload, this`marker, this`present
      ensures Agrees(Continue(c, model, o))
    {
      hide Continue;
      DeleteEffect(c, model, o);
      RemoveFiles(o);
      present := present && !(current && o.finalized);
    }

    /** sweepStagedPayload, best effort. */
    method SweepStaged(m: Status, aof: bool, lift: bool) returns (alive: bool)
      requires Valid() && Orderly() && model.pc == Sweep(m, aof, lift) && Permits(Remove)
      modifies this
      ensures Issued(Remove) && status == old(status)
      ensures model.pc == if alive then SweptPc(m, aof, lift, sentinels.Keys) else Idle
      ensures !alive ==> Killed(moves, old(n), n)
    {
      var o := outs(n);
      hide Continue;
      SweepLeads(c, model, m, aof, lift, o);
      hide Past, InOrder, Permits, Agrees, Killed, SweptPc;
      SweepFields(m, aof, lift, o);
      alive := Enter(Remove, o, false);
    }

    // ---------------------------------------------------------------- the handlers

    /** The pass goes on from here on: nothing is lost of what it did and read. */
    twostate predicate Onwards()
      reads this
    {
      && Valid() && Orderly() && read == old(read) && old(calls) <= calls
      && sentinels.Keys == old(sentinels).Keys && old(n) <= n
    }

    /** The pass is over: it got through, or was killed. */
    twostate predicate Ended(alive: bool)
      reads this
    {
      && Onwards() && model.pc == Idle && Edge(old(status).phase, status.phase)
      && if alive then Through(c, sentinels.Keys, calls) else Killed(moves, old(n), n)
    }

    /** SENTINEL SET on every address in turn; one failure does not stop the others. */
    method Broadcast(kind: Kind, m: Status) returns (clean: bool, alive: bool)
      requires Valid() && Orderly() && model.pc == Setting(kind, m, sentinels.Keys, true)
      requires Ready(kind, m, read, calls) && Reported(kind, m, {}, calls, true)
      modifies this
      ensures Onwards() && status == old(status)
      ensures alive ==> model.pc == Setting(kind, m, {}, clean)
      ensures alive ==> Ready(kind, m, read, calls) && Reported(kind, m, sentinels.Keys, calls, clean)
      ensures !alive ==> model.pc == Idle && Killed(moves, old(n), n)
    {
      hide Past, InOrder, May, Setting, Ready, Reported, Agrees, Continue;
      var todo, addrs := sentinels.Keys, sentinels.Keys;
      clean, alive := true, true;
      assert addrs - todo == {};
      while todo != {}
        invariant alive && todo <= addrs && Onwards() && status == old(status)
        invariant model.pc == Setting(kind, m, todo, clean)
        invariant Ready(kind, m, read, calls) && Reported(kind, m, addrs - todo, calls, clean)
      {
        var a :| a in todo;
        ghost var before, from := calls, n;
        TellingOn(c, kind, m, read, sentinels.Keys, calls, a, true);
        TellingOn(c, kind, m, read, sentinels.Keys, calls, a, false);
        var ok;
        ok, alive := Tell(kind, m, todo, clean, a);
        ReportedOn(kind, m, addrs - todo, before, clean, a, ok);
        if !alive {
          KilledWithin(moves, from, n, old(n));
          return;
        }
        assert addrs - (todo - {a}) == addrs - todo + {a};
        todo, clean := todo - {a}, clean && ok;
      }
      assert addrs - todo == addrs;
    }

    /** The quiesce: every sentinel raised, and only then the master shut down. */
    method QuiesceAndShutDown(m: Status) returns (alive: bool)
      requires Valid() && Orderly() && model.pc == Quiesce(m, sentinels.Keys, true)
      requires Ready(Raising, m, read, calls) && Reported(Raising, m, {}, calls, true)
      modifies this
      ensures Ended(alive) && status == old(status)
      ensures alive ==> (calls[|calls| - 1] == ShutDownMaster <==> forall a :: Raise(a, false) !in calls)
    {
      hide Past, InOrder, Ready, Agrees, Continue, Run;
      assert Setting(Raising, m, sentinels.Keys, true) == Quiesce(m, sentinels.Keys, true);
      hide Setting;
      ghost var from := n;
      var clean;
      clean, alive := Broadcast(Raising, m);
      if !alive { return; }
      ghost var told := calls;
      from := n;
      alive := Conclude(Raising, m, clean);
      if !alive {
        KilledWithin(moves, from, n, old(n));
        return;
      }
      if clean {
        RaisedEverywhere(c, m, read, sentinels.Keys, calls);
        ShutItDown(m);
      } else {
        UncleanWasRefused(Raising, m, sentinels.Keys, calls);
      }
      ToldAtTheEnd(Raising, m, read, sentinels.Keys, told, calls, clean);
    }

    /** The start of every failure: the volume swept, and AOF back on if the dataset was replaced. */
    method Disarm(m: Status, aof: bool, lift: bool) returns (alive: bool)
      requires Valid() && Orderly() && model.pc == Sweep(m, aof, lift) && Permits(Remove)
      requires (aof ==> read.replaced) && NonePutBack(calls)
      modifies this
      ensures Onwards() && status == old(status) && NonePutBack(calls)
      ensures alive ==> Disarmed(calls, aof) && model.pc == FailingPc(m, lift, sentinels.Keys)
      ensures !alive ==> model.pc == Idle && Killed(moves, old(n), n)
    {
      hide Past, InOrder, Agrees, Continue, Run, FailingPc;
      alive := SweepStaged(m, aof, lift);
      if alive && aof {
        ghost var from := n;
        var ok;
        ok, alive := ReenableAppendonly(m, lift);
        if !alive {
          KilledWithin(moves, from, n, old(n));
        }
      }
    }

    /** restoreSentinelDownAfter on the way to a failure: the breadcrumb is cleared when every
        sentinel took its value back. */
    method LiftForFailure(m: Status) returns (failed: Status, alive: bool)
      requires Valid() && Orderly() && model.pc == FailLift(m, sentinels.Keys, true)
      requires c.allowed && c.clusterExists && Disarmed(calls, read.replaced) && NonePutBack(calls)
      requires m.breadcrumb == read.breadcrumb && read.breadcrumb != 0 && !Terminal(read.phase)
      modifies this
      ensures Onwards() && status == old(status) && failed.phase == Failed
      ensures if alive then model.pc == Write(failed) && Permits(Update(failed, true))
        else model.pc == Idle && Killed(moves, old(n), n)
    {
      hide Past, InOrder, Agrees, Continue, Run, Setting, Ready, Reported, Disarmed;
      LiftingMayBegin(m, read, calls, sentinels.Keys, c);
      ghost var from, before := n, calls;
      var clean;
      clean, alive := Broadcast(LiftingFailed, m);
      failed := m.(phase := Failed, breadcrumb := if clean then 0 else m.breadcrumb);
      if !alive { return; }
      FailureAfterLifting(c, m, read, sentinels.Keys, before, calls, clean);
      from := n;
      alive := Conclude(LiftingFailed, m, clean);
      if !alive {
        KilledWithin(moves, from, n, old(n));
      }
    }

    /** failRestore: after the sweep and AOF the quiesce is lifted, if there is one, and the failure
        written. Without the cluster there is only the sweep. */
    method FailRestore(m: Status, cluster: bool) returns (alive: bool)
      requires Valid() && Orderly() && model.pc == Sweep(m, cluster && m.replaced, cluster && m.breadcrumb != 0)
      requires Permits(Remove) && NonePutBack(calls) && c.allowed && cluster == c.clusterExists
      requires m.breadcrumb == read.breadcrumb && m.replaced == read.replaced
      requires status.phase == read.phase && !Terminal(read.phase)
      modifies this
      ensures Ended(alive)
      ensures alive ==> FailureWritten(calls)
    {
      hide Past, InOrder, Agrees, Continue, Run, Disarmed;
      alive := Disarm(m, cluster && m.replaced, cluster && m.breadcrumb != 0);
      if !alive { return; }
      ghost var from := n;
      var failed := m.(phase := Failed);
      if cluster && m.breadcrumb != 0 {
        DisarmedFor(calls, cluster, m.replaced);
        failed, alive := LiftForFailure(m);
        if !alive {
          KilledWithin(moves, from, n, old(n));
          return;
        }
      } else {
        FailureWithoutLifting(c, m, read, sentinels.Keys, calls);
      }
      var ok := UpdateStatus(failed);
    }

    /** markDestinationRejected: as failRestore, but the quiesce is left to drift repair. */
    method RejectDestination(m: Status) returns (alive: bool)
      requires Valid() && Orderly() && model.pc == Sweep(m, c.clusterExists && m.replaced, false)
      requires Permits(Remove) && NonePutBack(calls) && !c.allowed
      requires m.breadcrumb == read.breadcrumb && m.replaced == read.replaced
      requires status.phase == read.phase && !Terminal(read.phase)
      modifies this
      ensures Ended(alive)
      ensures alive ==> FailureWritten(calls) && NonePutBack(calls)
    {
      hide Past, InOrder, Agrees, Continue, Run;
      alive := Disarm(m, c.clusterExists && m.replaced, false);
      if !alive { return; }
      FailureWithoutLifting(c, m, read, sentinels.Keys, calls);
      var ok := UpdateStatus(m.(phase := Failed));
    }

    /** The value to put back recorded, then the quiesce. */
    method RecordAndQuiesce(m: Status) returns (alive: bool)
      requires Valid() && Orderly() && model.pc == Breadcrumb(m)
      requires m == read == status && m.phase == Phase.Restoring && m.breadcrumb == 0 && calls == [Look(true, true)]
      modifies this
      ensures Ended(alive)
    {
      hide Past, InOrder, Agrees, Continue, Run;
      var marked := Marked(c, m);
      ghost var from := n;
      var ok;
      ok, alive := RecordQuiesce(m);
      if !alive { return; }
      assert calls == [Look(true, true), Record(marked.breadcrumb, ok)];
      if !ok {
        assert Refused(calls[1]);
      } else if |sentinels| >= c.replicas {
        from := n;
        alive := QuiesceAndShutDown(marked);
        if !alive {
          KilledWithin(moves, from, n, old(n));
        }
      } else {
        assert |sentinels| == |sentinels.Keys|;
      }
    }

    /** handleRestoringPhase from the look for the payload on. Gone without a quiesce: stage again.
        Gone after one: the dataset is replaced. Still there: quiesce and shut down. */
    method LookForPayload(m: Status) returns (alive: bool)
      requires Valid() && Orderly() && model.pc == Probe(m)
      requires m == read == status && m.phase == Phase.Restoring && calls == []
      modifies this
      ensures Ended(alive)
      ensures calls != [] && calls[0].Look? && calls[0].there == old(payload).Some?
      ensures alive && calls[0] == Look(true, false) ==> |calls| == 2 && calls[1].Update?
    {
      hide Past, InOrder, Agrees, Continue, Run;
      ghost var from := n;
      var ok, there;
      ok, there, alive := LookForIt(m);
      if !alive { return; }
      assert calls == [Look(ok, there)];
      if !ok {
        assert Refused(calls[0]);
        return;
      }
      from := n;
      if !there {
        var next := if m.breadcrumb == 0 then m.(phase := Downloading) else m.(phase := Verifying, replaced := true);
        var written := UpdateStatus(next);
      } else if m.breadcrumb == 0 {
        alive := RecordAndQuiesce(m);
        if !alive {
          KilledWithin(moves, from, n, old(n));
        }
      } else if |sentinels| >= c.replicas {
        alive := QuiesceAndShutDown(m);
        if !alive {
          KilledWithin(moves, from, n, old(n));
        }
      } else {
        assert |sentinels| == |sentinels.Keys|;
      }
    }

    /** Durability back on, the sentinels back to their value, and only then Completed. */
    method Complete(m: Status) returns (alive: bool)
      requires Valid() && Orderly() && model.pc == EnableAof(m)
      requires |calls| == 1 && Verified(calls) && m.keys == calls[0].keys
      requires m.breadcrumb == read.breadcrumb != 0 && status.phase == read.phase == Verifying
      modifies this
      ensures Ended(alive)
    {
      hide Past, InOrder, Agrees, Continue, Run;
      ghost var check, from := calls[0], n;
      var ok;
      ok, alive := EnableAppendonly(m);
      if !alive { return; }
      assert calls == [check, AofOn(ok)];
      if !ok {
        assert Refused(calls[1]);
        return;
      }
      from := n;
      alive := LiftAndComplete(m);
      if !alive {
        KilledWithin(moves, from, n, old(n));
      }
    }

    /** Completing while the sentinels cannot detect failures would hide a degraded cluster. */
    method LiftAndComplete(m: Status) returns (alive: bool)
      requires Valid() && Orderly() && model.pc == Lift(m, sentinels.Keys, true)
      requires calls != [] && calls[0].Check? && m.keys == calls[0].keys && status.phase == read.phase == Verifying
      requires Ready(Lifting, m, read, calls) && Reported(Lifting, m, {}, calls, true)
      modifies this
      ensures Ended(alive)
      ensures alive ==> (CompletionWritten(calls) <==> forall a, v :: PutBack(a, v, false) !in calls)
    {
      hide Past, InOrder, Agrees, Continue, Run, Setting, Ready, Reported, May;
      LiftIsSetting(m, sentinels.Keys);
      ghost var from := n;
      var clean;
      clean, alive := Broadcast(Lifting, m);
      if !alive { return; }
      if clean {
        CompletionMayBeWritten(c, m, read, sentinels.Keys, calls);
      } else {
        UncleanWasRefused(Lifting, m, sentinels.Keys, calls);
      }
      ghost var told := calls;
      from := n;
      alive := Conclude(Lifting, m, clean);
      if !alive {
        KilledWithin(moves, from, n, old(n));
        return;
      }
      if clean {
        var written := UpdateStatus(m.(phase := Completed, breadcrumb := 0));
      }
      ToldAtTheEnd(Lifting, m, read, sentinels.Keys, told, calls, clean);
    }

    /** handleVerifyingPhase from its reads of the master on: a pod that lost the role, or an empty
        dataset, fails the restore; keys lead on. */
    method CheckDataset(m0: Status) returns (alive: bool)
      requires Valid() && Orderly() && model.pc == Verify(m0)
      requires m0 == read == status && m0.phase == Verifying && m0.breadcrumb != 0 && calls == []
      requires c.allowed && c.clusterExists
      modifies this
      ensures Ended(alive)
      ensures calls != [] && calls[0].Check?
      ensures alive && (if calls[0].ok then calls[0].keys == 0 else calls[0].lost) ==> FailureWritten(calls)
    {
      hide Past, InOrder, Agrees, Continue, Run;
      var m := m0;
      ghost var from := n;
      var ok, lost, keys;
      ok, lost, keys, alive := CheckMaster(m);
      if !alive { return; }
      assert calls == [Check(ok, lost, keys)];
      from := n;
      if ok {
        m := m.(keys := keys);
        if keys == 0 {
          alive := FailRestore(m, true);
        } else {
          alive := Complete(m);
        }
      } else if lost {
        alive := FailRestore(m, true);
      } else {
        assert Refused(calls[0]);
      }
      if !alive {
        KilledWithin(moves, from, n, old(n));
      }
    }

    /** More than half an hour after the run began. */
    predicate Late(m: Status, at: nat) { m.start.Some? && at > m.start.value + 1_800_000 }

    /** What a handler can find that fails the run before anything else is issued. */
    predicate Doomed(m: Status, o: Outcome, at: nat) {
      match m.phase
      case Pending => !o.ok && o.effect      // the cluster or the backup cannot be used
      case Downloading => !o.ok && o.effect  // what was downloaded is not a dump
      case Restoring => Late(m, at)
      case Verifying => Late(m, at)
      case _ => false
    }

    /** The pass is over, or its reads failed before it issued anything. */
    twostate predicate EndedOrRetried(alive: bool, o: Outcome)
      reads this
    {
      && Onwards() && model.pc == Idle && Edge(old(status).phase, status.phase)
      && if alive then Through(c, sentinels.Keys, calls) || (calls == [] && !o.ok) else Killed(moves, old(n), n)
    }

    /** handlePendingPhase; `o` says how the checks of the cluster and the backup object went. */
    method HandlePending(ghost w: World, m: Status, o: Outcome) returns (alive: bool)
      requires Valid() && Orderly() && model.pc == Handler(w, m, o)
      requires m == read == status && m.phase == Pending && calls == [] && c.allowed && c.clusterExists
      modifies this
      ensures EndedOrRetried(alive, o)
      ensures o.ok ==>
        calls == [Update(m.(phase := Downloading), true)] || calls == [Update(m.(phase := Downloading), false)]
      ensures !o.ok && !o.effect ==> calls == []
      ensures alive && !o.ok && o.effect ==> FailureWritten(calls)
    {
      hide Past, InOrder, Agrees, Continue, Run;
      alive := true;
      if o.ok {
        var written := UpdateStatus(m.(phase := Downloading));
      } else if o.effect {
        alive := FailRestore(m, true);
      }
    }

    /** stageRestorePayload; the staging began at `at`. */
    method StagePayload(m: Status, at: nat) returns (ok: bool, alive: bool)
      requires Valid() && Orderly() && model.pc == StageMarker(m, at)
      requires m == read == status && m.phase == Downloading && calls == []
      modifies this
      ensures Onwards() && status == old(status)
      ensures calls != [] && calls[0].PutMarker? && calls[0].deadline == Deadline(at)
      ensures model.pc == if alive && ok then Write(m.(phase := Phase.Restoring)) else Idle
      ensures alive ==>
        if ok then calls == [PutMarker(Deadline(at), true), PutPayload(true)] else Through(c, sentinels.Keys, calls)
      ensures !alive ==> Killed(moves, old(n), n)
    {
      hide Past, InOrder, Agrees, Continue, Run, Deadline;
      ok, alive := WriteMarker(m, at);
      if !alive { return; }
      assert calls == [PutMarker(Deadline(at), ok)];
      if !ok {
        assert Refused(calls[0]);
        return;
      }
      ghost var from := n;
      ok, alive := WritePayload(m);
      if !alive {
        KilledWithin(moves, from, n, old(n));
        return;
      }
      assert calls == [PutMarker(Deadline(at), true), PutPayload(ok)];
      assert !ok ==> Refused(calls[1]);
    }

    /** handleDownloadingPhase; `o` says how the download and its checks went, `at` is when the
        staging began. */
    method HandleDownloading(ghost w: World, m: Status, o: Outcome, at: nat) returns (alive: bool)
      requires Valid() && Orderly() && model.pc == Handler(w, m, o) && w.now == at
      requires m == read == status && m.phase == Downloading && calls == [] && c.allowed && c.clusterExists
      modifies this
      ensures EndedOrRetried(alive, o)
      ensures o.ok ==> calls != [] && calls[0].PutMarker? && calls[0].deadline == Deadline(at)
      ensures !o.ok && !o.effect ==> calls == []
      ensures alive && !o.ok && o.effect ==> FailureWritten(calls)
    {
      hide Past, InOrder, Agrees, Continue, Run, Deadline, Killed;
      alive := true;
      if o.ok {
        var ok;
        ok, alive := StagePayload(m, at);
        if alive && ok {
          var written := UpdateStatus(m.(phase := Phase.Restoring));
        }
      } else if o.effect {
        alive := FailRestore(m, true);
      }
    }

    /** handleRestoringPhase; `o` says whether the master pod could be found. */
    method HandleRestoring(ghost w: World, m: Status, o: Outcome, at: nat) returns (alive: bool)
      requires Valid() && Orderly() && model.pc == Handler(w, m, o) && w.now == at
      requires m == read == status && m.phase == Phase.Restoring && calls == [] && c.allowed && c.clusterExists
      modifies this
      ensures EndedOrRetried(alive, o)
      ensures Late(m, at) ==> alive ==> FailureWritten(calls)
      ensures !Late(m, at) ==> if o.ok then calls != [] && calls[0].Look? else calls == []
    {
      hide Past, InOrder, Agrees, Continue, Run;
      alive := true;
      if m.start.Some? && at > m.start.value + TIMEOUT {
        alive := FailRestore(m, true);
      } else if o.ok {
        alive := LookForPayload(m);
      }
    }

    /** handleVerifyingPhase; `o` says whether the master pod could be found. */
    method HandleVerifying(ghost w: World, m: Status, o: Outcome, at: nat) returns (alive: bool)
      requires Valid() && Orderly() && model.pc == Handler(w, m, o) && w.now == at
      requires m == read == status && m.phase == Verifying && calls == [] && c.allowed && c.clusterExists
      requires m.breadcrumb != 0
      modifies this
      ensures EndedOrRetried(alive, o)
      ensures Late(m, at) ==> alive ==> FailureWritten(calls)
      ensures !Late(m, at) ==> if o.ok then calls != [] && calls[0].Check? else calls == []
    {
      hide Past, InOrder, Agrees, Continue, Run;
      alive := true;
      if m.start.Some? && at > m.start.value + TIMEOUT {
        alive := FailRestore(m, true);
      } else if o.ok {
        alive := CheckDataset(m);
      }
    }

    method BeginFields(o: Outcome) returns (staging: bool)
      requires Agrees(model) && model.pc == Idle
      modifies this`current, this`read, this`calls
      ensures Agrees(Continue(c, model, o)) && Orderly() && read == status && calls == []
      ensures staging <==> Continue(c, model, o).pc.StageMarker? || Continue(c, model, o).pc.StageMove?
    {
      hide Continue, FirstEffect;
      BeginEffect(c, model, o);
      StagingBegins(c, model, o);
      staging := present && !deleting && status.phase == Downloading && c.allowed && c.clusterExists && o.ok;
      current, read, calls := true, status, [];
    }

    /** The pass reads the object, and what the phase at hand needs to know. */
    method Begin() returns (o: Outcome, alive: bool)
      requires Valid() && model.pc == Idle
      modifies this
      ensures Valid() && Orderly() && read == status == old(status) && calls == [] && n == old(n) + 1
      ensures sentinels.Keys == old(sentinels).Keys && o == outs(old(n)).(addr := o.addr)
      ensures model.pc == if alive then old(FirstEffect(c, model, o)) else Idle
      ensures !alive ==> Killed(moves, old(n), n)
    {
      o := outs(n);
      hide Continue, FirstEffect;
      BeginEffect(c, model, o);
      hide Past, Agrees, InOrder, Killed;
      var staging := BeginFields(o);
      alive := Turn(o, staging);
    }

    /** The status of a run that begins at this instant, and of one that follows another. */
    function FirstRun(m: Status, at: nat): Status { m.(phase := Pending, start := Some(at / 1000 * 1000)) }

    function NextRun(m: Status, at: nat): Status {
      Status(Pending, Some(at / 1000 * 1000), 0, false, 0, m.observed)
    }

    /** One write, of the status a run begins with. */
    predicate Began(m: Status)
      reads this`calls
    {
      calls == [Update(m, true)] || calls == [Update(m, false)]
    }

    /** The run has ended, and the spec was not edited since. */
    predicate Over()
      reads this
    {
      Terminal(status.phase) && status.observed == generation
    }

    /** What Reconcile does with an object that is there; `gone`, `version` and `at` are what it read of
        its deletion, its generation and the clock. */
    method Act(ghost w: World, m: Status, o: Outcome, gone: bool, version: nat, at: nat) returns (alive: bool)
      requires Valid() && Orderly() && model.pc == FirstEffect(c, w, o) && calls == []
      requires w.present && w.deleting == gone && w.generation == version && w.now == at && w.status == m
      requires m == read == status && (m.phase == Verifying ==> m.breadcrumb != 0)
      modifies this
      ensures Onwards() && model.pc == Idle && Edge(m.phase, status.phase)
      ensures !alive ==> Killed(moves, old(n), n)
      ensures !gone && Terminal(m.phase) && m.observed == version ==> calls == []
      ensures gone && alive ==> calls == [Remove]
      ensures alive && !gone && !(Terminal(m.phase) && m.observed == version) ==>
        Through(c, sentinels.Keys, calls) || (calls == [] && !o.ok)
      ensures calls != [] && calls[0] == Remove ==> gone || !c.allowed || !c.clusterExists || Doomed(m, o, at)
      ensures alive && !gone && !Terminal(m.phase) ==>
        !c.allowed || !c.clusterExists || Doomed(m, o, at) ==> FailureWritten(calls)
      ensures !gone && Terminal(m.phase) && m.observed != version ==> Began(NextRun(m, at))
      ensures !gone && m.phase == NoPhase && c.allowed && c.clusterExists ==> Began(FirstRun(m, at))
    {
      hide Past, InOrder, Agrees, Continue, Run, Doomed, FailureWritten, Through, NextRun, FirstRun, Killed;
      alive := true;
      if gone {
        alive := HandleDeletion();
      } else if Terminal(m.phase) {
        if m.observed != version {
          StartOver(m, at);
        }
      } else if !c.allowed {
        alive := RejectDestination(m);
      } else if !c.clusterExists {
        alive := FailRestore(m, false);
      } else {
        alive := Handle(w, m, o, at);
      }
    }

    /** Reconcile. Every pass extends a run of the protocol, issues its calls in order, moves the
        persisted phase along one edge at most, and stops early only if the operator dies, a read
        or a call fails, or too few sentinels run. A finished run issues nothing. A run begins with
        the time it is read at, and is failed from the start exactly for the reasons there are. What
        is recorded and put back is the spec's down-after, and Completed is only written once every
        sentinel took it. */
    method Reconcile() returns (alive: bool)
      requires Valid() && model.pc == Idle
      modifies this
      ensures Valid() && model.pc == Idle && Orderly() && read == old(status)
      ensures Edge(old(status).phase, status.phase)
      ensures !alive ==> Killed(moves, old(n), n)
      ensures !old(present) || (!old(deleting) && old(Over())) ==> calls == []
      ensures old(present) && old(deleting) && alive ==> calls == [Remove]
      ensures alive && old(present) && !old(deleting) && !old(Over()) ==>
        Through(c, sentinels.Keys, calls) || (calls == [] && !outs(old(n)).ok)
      ensures calls != [] && calls[0] == Remove ==>
        old(deleting) || !c.allowed || !c.clusterExists || Doomed(old(status), outs(old(n)), old(now))
      ensures alive && old(present) && !old(deleting) && !Terminal(old(status).phase) ==>
        !c.allowed || !c.clusterExists || Doomed(old(status), outs(old(n)), old(now)) ==> FailureWritten(calls)
      ensures alive && old(present) && !old(deleting) && Terminal(old(status).phase) && !old(Over()) ==>
        Began(NextRun(old(status), old(now)))
      ensures alive && old(present) && !old(deleting) && old(status).phase == NoPhase ==>
        c.allowed && c.clusterExists ==> Began(FirstRun(old(status), old(now)))
      ensures forall v, ok :: Record(v, ok) in calls ==> if c.downAfter == 0 then v == 5000 else v == c.downAfter
      ensures forall a, v, ok :: PutBack(a, v, ok) in calls ==> if c.downAfter == 0 then v == 5000 else v == c.downAfter
      ensures CompletionWritten(calls) ==> forall a :: a in sentinels.Keys ==>
        PutBack(a, if c.downAfter == 0 then 5000 else c.downAfter, true) in calls
    {
      assert Seen(model) == Here();
      StatusHolds();
      hide Past, InOrder, Agrees, Continue, Run, FailureWritten, CompletionWritten, Through, Killed;
      hide NextRun, FirstRun, FirstEffect, Edge;
      var here, gone, version, at := present, deleting, generation, now;
      ghost var w, from := model, n;
      assert w.present == here && w.deleting == gone && w.generation == version;
      assert w.now == at && w.status == status;
      var o;
      o, alive := Begin();
      if alive && here {
        from := n;
        alive := Act(w, read, o, gone, version, at);
        if !alive {
          KilledWithin(moves, from, n, old(n));
        }
      } else {
        SamePhase(status.phase);
        assert alive ==> model.pc == FirstEffect(c, w, o);
        NothingToDo(c, w, o);
      }
      SettingsAreTheSpecs(c, read, sentinels.Keys, calls);
    }

    /** What the persisted status says in every history. */
    lemma StatusHolds()
      requires Valid()
      ensures status.phase == Verifying ==> status.breadcrumb != 0
      ensures status.breadcrumb != 0 ==> Ordinary(c, status.breadcrumb)
    {
      assert Reaches(c, start, model);
      assert model.status == status;
      hide Past, Agrees, Run, Reaches, Initial;
      ReachableInv(c, start, model);
      if status.breadcrumb != 0 {
        BreadcrumbIsTheSpecs(c, start, model);
      }
      hide VolumeInv, QuiesceInv, PassInv, PcOk;
    }

    /** handleDeletion: the sweep, and the finalizer removed whether or not it reached every pod. */
    method HandleDeletion() returns (alive: bool)
      requires Valid() && Orderly() && model.pc == DeleteSweep && calls == []
      modifies this
      ensures Issued(Remove) && status == old(status) && model.pc == Idle
      ensures !alive ==> Killed(moves, old(n), n)
    {
      hide Continue;
      var o := outs(n);
      DeleteLeads(c, model, o);
      assert Permits(Remove);
      hide Past, InOrder, Permits, Agrees, Killed;
      DeleteFields(o);
      alive := Enter(Remove, o, false);
    }

    /** The spec was edited after the run ended: a new run, with nothing left over from the old. */
    method StartOver(m0: Status, at: nat)
      requires Valid() && Orderly() && Terminal(m0.phase) && m0 == read == status && calls == []
      requires model.pc == Write(Status(Pending, Some(Seconds(at) * 1000), 0, false, 0, m0.observed))
      modifies this
      ensures Ended(true) && Began(NextRun(m0, at))
    {
      assert Seconds(at) == at / 1000;
      hide Past, InOrder, Agrees, Continue, Run, Seconds;
      var m := m0.(start := Some(Seconds(at) * 1000));
      m := m.(breadcrumb := 0);
      m := m.(replaced := false);
      m := m.(keys := 0);
      var written := UpdateStatus(m.(phase := Pending));
    }

    /** The first pass over a new object. */
    method StartRun(m: Status, at: nat)
      requires Valid() && Orderly() && m == read == status && m.phase == NoPhase && calls == []
      requires model.pc == Write(m.(phase := Pending, start := Some(Seconds(at) * 1000)))
      modifies this
      ensures Ended(true) && Began(FirstRun(m, at))
    {
      assert Seconds(at) == at / 1000;
      hide Past, InOrder, Agrees, Continue, Run, Seconds;
      var written := UpdateStatus(m.(phase := Pending, start := Some(Seconds(at) * 1000)));
    }

    /** The handler of the phase. */
    method Handle(ghost w: World, m: Status, o: Outcome, at: nat) returns (alive: bool)
      requires Valid() && Orderly() && model.pc == Handler(w, m, o) && w.now == at
      requires m == read == status && !Terminal(m.phase) && calls == [] && c.allowed && c.clusterExists
      requires m.phase == Verifying ==> m.breadcrumb != 0
      modifies this
      ensures EndedOrRetried(alive, o)
      ensures calls != [] && calls[0] == Remove ==> Doomed(m, o, at)
      ensures m.phase == NoPhase ==> Began(FirstRun(m, at))
      ensures Doomed(m, o, at) && alive ==> FailureWritten(calls)
    {
      hide Past, InOrder, Agrees, Continue, Run, Seconds, Through, Killed, Edge, FailureWritten, Late, Expired;
      alive := true;
      match m.phase {
        case NoPhase => StartRun(m, at);
        case Pending => alive := HandlePending(w, m, o);
        case Downloading => alive := HandleDownloading(w, m, o, at);
        case Restoring => alive := HandleRestoring(w, m, o, at);
        case Verifying => alive := HandleVerifying(w, m, o, at);
      }
    }

    /** Whatever the history, every instant of it is a reachable state of the protocol. */
    lemma EveryInstantIsReachable(k: nat)
      requires Valid() && k <= |acts|
      ensures Reaches(c, start, Run(c, start, acts[..k])) && Inv(c, Run(c, start, acts[..k]))
    {
      ReachableInv(c, start, Run(c, start, acts[..k]));
    }
  }

  lemma SamePhase(p: Phase)
    ensures Edge(p, p)
  {
  }

  lemma NothingToDo(c: Config, w: World, o: Outcome)
    ensures !w.present ==> FirstEffect(c, w, o) == Idle
  {
  }

  lemma KilledWithin(moves: nat -> seq<Action>, a: nat, b: nat, earlier: nat)
    requires Killed(moves, a, b) && earlier <= a
    ensures Killed(moves, earlier, b)
  {
  }

  lemma SameSize(a: map<Addr, int>, b: map<Addr, int>)
    ensures a.Keys == b.Keys ==> |a| == |b|
  {
    assert |a| == |a.Keys| && |b| == |b.Keys|;
  }

  lemma SettingIsNotStaging(kind: Kind, m: Status, todo: set<Addr>, clean: bool)
    ensures !Setting(kind, m, todo, clean).StageMarker? && !Setting(kind, m, todo, clean).StageMove?
  {
  }

  lemma UnrollOn(moves: nat -> seq<Action>, gos: seq<Outcome>, o: Outcome)
    ensures Unroll(moves, gos + [o]) == Unroll(moves, gos) + [Go(o)] + moves(|gos|)
  {
    assert (gos + [o])[..|gos|] == gos;
  }

  lemma RunOnEffect(c: Config, w: World, acts: seq<Action>, o: Outcome)
    ensures Run(c, w, acts + [Go(o)]) == Continue(c, Run(c, w, acts), o)
  {
    RunOn(c, w, acts, Go(o));
    hide Run, Environment, Continue;
  }

  lemma RunOnMove(c: Config, w: World, acts: seq<Action>, a: Action)
    requires !a.Go?
    ensures Run(c, w, acts + [a]) == Environment(c, Run(c, w, acts), a)
  {
    RunOn(c, w, acts, a);
    hide Run, Environment, Continue;
  }

  lemma RunOn(c: Config, w: World, acts: seq<Action>, a: Action)
    ensures Run(c, w, acts + [a]) == Step(c, Run(c, w, acts), a)
  {
    assert (acts + [a])[..|acts|] == acts;
  }

}
