/** syncSentinelMonitorConfig: converging the live monitor options of every running sentinel
    towards the spec, one member and one option at a time, and ceding down-after to a restore
    that holds the quiesce.
 */
module DriftRepair {
  import opened Basics
  import Protocol = Restore

  datatype Opt = FailoverTimeout | ParallelSyncs | Quorum | DownAfter

  /** What one sentinel applies. */
  datatype Monitor = Monitor(failoverTimeout: int, parallelSyncs: int, quorum: int, downAfter: int) {
    function Get(o: Opt): int {
      match o
      case FailoverTimeout => failoverTimeout
      case ParallelSyncs => parallelSyncs
      case Quorum => quorum
      case DownAfter => downAfter
    }

    function With(o: Opt, value: int): Monitor {
      match o
      case FailoverTimeout => this.(failoverTimeout := value)
      case ParallelSyncs => this.(parallelSyncs := value)
      case Quorum => this.(quorum := value)
      case DownAfter => this.(downAfter := value)
    }
  }

  datatype Restore = Restore(name: string, cluster: string, breadcrumb: int, phase: Protocol.Phase)

  datatype Condition = InSync | RestoreQuiesced(holder: string) | RestoreLookupFailed | DriftRepairFailed

  predicate Holds(r: Restore, cluster: string) {
    r.cluster == cluster && r.breadcrumb != 0 && !Protocol.Terminal(r.phase)
  }

  /** restoreHoldingQuiesce: the name of a restore holding this cluster's quiesce, or "". */
  method RestoreHoldingQuiesce(restores: seq<Restore>, cluster: string) returns (name: string)
    requires forall i :: 0 <= i < |restores| ==> restores[i].name != ""
    ensures name == "" <==> forall i :: 0 <= i < |restores| ==> !Holds(restores[i], cluster)
    ensures name != "" ==> exists i :: 0 <= i < |restores| && Holds(restores[i], cluster) && restores[i].name == name
  {
    for i := 0 to |restores|
      invariant forall j :: 0 <= j < i ==> !Holds(restores[j], cluster)
    {
      if Holds(restores[i], cluster) {
        return restores[i].name;
      }
    }
    return "";
  }

  function Desired(quiescedBy: string): seq<Opt> {
    [FailoverTimeout, ParallelSyncs, Quorum] + if quiescedBy == "" then [DownAfter] else []
  }

  /** Each option is as it was, or desired and at the spec. */
  predicate Towards(now: Monitor, was: Monitor, spec: Monitor, desired: seq<Opt>) {
    forall o: Opt :: now.Get(o) == was.Get(o) || (o in desired && now.Get(o) == spec.Get(o))
  }

  /** Setting a desired option to the spec moves only it, and there. */
  lemma SetTowards(now: Monitor, was: Monitor, spec: Monitor, desired: seq<Opt>, o: Opt)
    requires Towards(now, was, spec, desired) && o in desired
    ensures Towards(now.With(o, spec.Get(o)), was, spec, desired)
    ensures forall p :: now.With(o, spec.Get(o)).Get(p) == if p == o then spec.Get(o) else now.Get(p)
  {
  }

  /** The pass so far: it has begun, and issued what it issued for down-after. */
  ghost predicate OfDrift(acts: seq<Protocol.Action>, from: nat) {
    forall i :: from <= i < |acts| ==> acts[i].DriftBegin? || acts[i].DriftSet? || acts[i].DriftEnd?
  }

  ghost function DownAfters(monitors: map<Addr, Monitor>): map<Addr, int> {
    map a | a in monitors :: monitors[a].downAfter
  }

  /** One more move of the restore protocol. */
  lemma Moved(c: Protocol.Config, start: Protocol.World, acts: seq<Protocol.Action>, a: Protocol.Action)
    requires !a.Go?
    ensures Protocol.Run(c, start, acts + [a]) == Protocol.Environment(c, Protocol.Run(c, start, acts), a)
  {
    assert (acts + [a])[..|acts|] == acts;
  }

  lemma OneMoved(c: Protocol.Config, start: Protocol.World, acts: seq<Protocol.Action>, a: Addr, effect: bool)
    requires Protocol.Run(c, start, acts).drift == Protocol.Repairing(false)
    ensures
      var w, w' := Protocol.Run(c, start, acts), Protocol.Run(c, start, acts + [Protocol.DriftSet(a, effect)]);
      w'.drift == w.drift && w'.sentinels ==
        if effect && a in w.sentinels then w.sentinels[a := c.downAfter] else w.sentinels
  {
    Moved(c, start, acts, Protocol.DriftSet(a, effect));
  }

  lemma SetDownAfters(monitors: map<Addr, Monitor>, a: Addr, o: Opt, value: int)
    requires a in monitors
    ensures DownAfters(monitors[a := monitors[a].With(o, value)]) ==
      if o == DownAfter then DownAfters(monitors)[a := value] else DownAfters(monitors)
    ensures a in DownAfters(monitors)
  {
  }

  class Sentinels {
    var monitors: map<Addr, Monitor>
    // the restore protocol these sentinels are part of, and its history
    ghost const c: Protocol.Config
    ghost const start: Protocol.World
    ghost var acts: seq<Protocol.Action>

    ghost function Model(): Protocol.World
      reads this`acts
    {
      Protocol.Run(c, start, acts)
    }

    /** The down-after values here are those of the protocol. */
    ghost predicate Linked()
      reads this`acts, this`monitors
    {
      Model().sentinels == DownAfters(monitors)
    }

    constructor (monitors: map<Addr, Monitor>, c: Protocol.Config, start: Protocol.World)
      requires start.sentinels == DownAfters(monitors)
      ensures Linked() && this.monitors == monitors && this.c == c && this.start == start && acts == []
    {
      this.monitors, this.c, this.start, acts := monitors, c, start, [];
    }

    /** SENTINEL SET on one sentinel, acknowledged or failed with or without effect. In the
        protocol a down-after command is a step of a pass that saw nobody holding the quiesce. */
    method Set(a: Addr, o: Opt, value: int) returns (ok: bool)
      requires Linked() && a in monitors
      requires o == DownAfter ==> value == c.downAfter && Model().drift == Protocol.Repairing(false)
      modifies this
      ensures Linked() && old(acts) <= acts && OfDrift(acts, |old(acts)|) && Model().drift == old(Model()).drift
      ensures monitors.Keys == old(monitors.Keys)
      ensures ok ==> monitors == old(monitors)[a := old(monitors)[a].With(o, value)]
      ensures !ok ==> monitors == old(monitors) || monitors == old(monitors)[a := old(monitors)[a].With(o, value)]
    {
      SetDownAfters(monitors, a, o, value);
      hide DownAfters, Protocol.Run;
      ok := *;
      var effect: bool := *;
      effect := effect || ok;
      if o == DownAfter {
        OneMoved(c, start, acts, a, effect);
        acts := acts + [Protocol.DriftSet(a, effect)];
      }
      if effect {
        monitors := monitors[a := monitors[a].With(o, value)];
      }
    }

    /** One sentinel: every desired option that is off is set. */
    method Repair(a: Addr, spec: Monitor, desired: seq<Opt>) returns (clean: bool)
      requires Linked() && a in monitors
      requires DownAfter in desired ==> spec.downAfter == c.downAfter && Model().drift == Protocol.Repairing(false)
      modifies this
      ensures Linked() && old(acts) <= acts && OfDrift(acts, |old(acts)|) && Model().drift == old(Model()).drift
      ensures monitors.Keys == old(monitors.Keys)
      ensures forall b :: b in monitors && b != a ==> monitors[b] == old(monitors)[b]
      ensures Towards(monitors[a], old(monitors)[a], spec, desired)
      ensures clean ==> forall o :: o in desired ==> monitors[a].Get(o) == spec.Get(o)
    {
      assert Towards(monitors[a], monitors[a], spec, desired);
      hide DownAfters, Protocol.Run, Towards, Monitor.With;
      clean := *;  // the read may fail
      if !clean {
        return;
      }
      var reported := monitors[a];
      for i := 0 to |desired|
        invariant Linked() && old(acts) <= acts && OfDrift(acts, |old(acts)|) && Model().drift == old(Model()).drift
        invariant monitors.Keys == old(monitors.Keys)
        invariant forall b :: b in monitors && b != a ==> monitors[b] == old(monitors)[b]
        invariant Towards(monitors[a], reported, spec, desired)
        invariant clean ==> forall j :: 0 <= j < i ==> monitors[a].Get(desired[j]) == spec.Get(desired[j])
      {
        if reported.Get(desired[i]) != spec.Get(desired[i]) {
          SetTowards(monitors[a], reported, spec, desired, desired[i]);
          var ok := Set(a, desired[i], spec.Get(desired[i]));
          clean := clean && ok;
        }
      }
    }

    /** A pass over the running sentinels. While a restore holds the quiesce no down-after value
        changes; a pass that reports success has every other option of every sentinel at the
        spec, and down-after too when nobody holds the quiesce. What it does to down-after is a
        drift-repair pass of the restore protocol, so Restore.QuiesceIsHeld covers it. */
    method SyncMonitorConfig(addrs: seq<Addr>, spec: Monitor, restores: seq<Restore>, cluster: string)
      returns (r: Condition)
      requires Linked() && spec.downAfter == c.downAfter
      requires Protocol.HoldsQuiesce(Model()) <==> exists i :: 0 <= i < |restores| && Holds(restores[i], cluster)
      requires forall i :: 0 <= i < |addrs| ==> addrs[i] in monitors
      requires forall i :: 0 <= i < |restores| ==> restores[i].name != ""
      modifies this
      ensures Linked() && old(acts) <= acts && OfDrift(acts, |old(acts)|)
      ensures monitors.Keys == old(monitors.Keys)
      ensures (exists i :: 0 <= i < |restores| && Holds(restores[i], cluster)) || r == RestoreLookupFailed ==>
        forall a :: a in monitors ==> monitors[a].Get(DownAfter) == old(monitors)[a].Get(DownAfter)
      ensures r == InSync ==> forall a, o :: a in addrs ==> monitors[a].Get(o) == spec.Get(o)
      ensures r.RestoreQuiesced? ==> forall a, o :: a in addrs && o != DownAfter ==> monitors[a].Get(o) == spec.Get(o)
      ensures forall a :: a in monitors ==>
        Towards(monitors[a], old(monitors)[a], spec, Desired("")) && (monitors[a] == old(monitors)[a] || a in addrs)
    {
      hide DownAfters, Protocol.Run, Protocol.HoldsQuiesce;
      var readable: bool := *;
      if !readable {
        return RestoreLookupFailed;
      }
      var quiescedBy := RestoreHoldingQuiesce(restores, cluster);
      Open(quiescedBy != "");
      var clean := RepairAll(addrs, spec, Desired(quiescedBy));
      Shut();
      assert forall o: Opt :: o in Desired(quiescedBy) <==> o != DownAfter || quiescedBy == "";
      assert Desired("")[0..3] == [FailoverTimeout, ParallelSyncs, Quorum] && Desired("")[3] == DownAfter;
      assert forall o: Opt :: o in Desired(quiescedBy) ==> o in Desired("");
      if !clean {
        return DriftRepairFailed;
      }
      return if quiescedBy == "" then InSync else RestoreQuiesced(quiescedBy);
    }

    ghost method Open(quiesced: bool)
      requires Linked() && quiesced == Protocol.HoldsQuiesce(Model())
      modifies this`acts
      ensures Linked() && Model().drift == Protocol.Repairing(quiesced) && acts == old(acts) + [Protocol.DriftBegin]
    {
      Moved(c, start, acts, Protocol.DriftBegin);
      acts := acts + [Protocol.DriftBegin];
    }

    ghost method Shut()
      requires Linked()
      modifies this`acts
      ensures Linked() && acts == old(acts) + [Protocol.DriftEnd]
    {
      Moved(c, start, acts, Protocol.DriftEnd);
      acts := acts + [Protocol.DriftEnd];
    }

    /** Every running sentinel in turn, whatever became of the others. */
    method RepairAll(addrs: seq<Addr>, spec: Monitor, desired: seq<Opt>) returns (clean: bool)
      requires Linked() && forall i :: 0 <= i < |addrs| ==> addrs[i] in monitors
      requires DownAfter in desired ==> spec.downAfter == c.downAfter && Model().drift == Protocol.Repairing(false)
      modifies this
      ensures Linked() && old(acts) <= acts && OfDrift(acts, |old(acts)|)
      ensures monitors.Keys == old(monitors.Keys)
      ensures forall a :: a in monitors ==>
        Towards(monitors[a], old(monitors)[a], spec, desired) && (monitors[a] == old(monitors)[a] || a in addrs)
      ensures clean ==> forall a, o :: a in addrs && o in desired ==> monitors[a].Get(o) == spec.Get(o)
    {
      hide DownAfters;
      clean := true;
      for i := 0 to |addrs|
        invariant Linked() && old(acts) <= acts && OfDrift(acts, |old(acts)|) && Model().drift == old(Model()).drift
        invariant monitors.Keys == old(monitors.Keys)
        invariant forall a :: a in monitors ==>
          Towards(monitors[a], old(monitors)[a], spec, desired) && (monitors[a] == old(monitors)[a] || a in addrs)
        invariant clean ==> forall j, o :: 0 <= j < i && o in desired ==> monitors[addrs[j]].Get(o) == spec.Get(o)
      {
        ghost var before := monitors;
        var done := Repair(addrs[i], spec, desired);
        assert forall a :: a in monitors && a != addrs[i] ==> monitors[a] == before[a];
        clean := clean && done;
      }
    }
  }
}
