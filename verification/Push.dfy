/** pushCredentials as the operator runs it: loops over the running nodes, one command at a
    time, over connections authenticated with whichever password a node answers to. Its
    history is a run of the transition system of module Rotation.
 */
module CredentialPush {
  import opened Basics
  import opened Rotation

  datatype Dial = Refused | Connected(credential: Password)

  predicate Distinct(xs: seq<Addr>) {
    forall i, j :: 0 <= i < j < |xs| ==> xs[i] != xs[j]
  }

  function UserOf(f: Fleet, c: Command): User
    requires Addressed(f, c)
  {
    if c.WidenRedis? || c.SetMasterauth? || c.NarrowRedis? then f.redis[c.addr].user
    else f.sentinels[c.addr].user
  }

  predicate Answers(u: User, d: Password, p: Password) { u.Accepts(d) || u.Accepts(p) }

  /** A connection that outlives widening: its password is listed, or it is the new one. */
  predicate Lasts(u: User, credential: Password, desired: Password) {
    credential in u.passwords || (u.nopass && credential == desired)
  }

  ghost predicate DialsLast(f: Fleet, dials: map<Addr, Password>, desired: Password) {
    forall a :: a in f.redis && a in dials ==> Lasts(f.redis[a].user, dials[a], desired)
  }

  ghost predicate SentinelsAnswer(f: Fleet, d: Password, p: Password) {
    forall a :: a in f.sentinels ==> Answers(f.sentinels[a].user, d, p)
  }

  /** The phases before ph are acknowledged everywhere. */
  ghost predicate Opened(f: Fleet, acked: set<Command>, ph: Phase) {
    && (ph != Widen ==> PhaseAcked(f, acked, Widen))
    && (ph == Narrow ==> PhaseAcked(f, acked, Switch))
  }

  ghost predicate SameKeys(f: Fleet, g: Fleet) {
    f.redis.Keys == g.redis.Keys && f.sentinels.Keys == g.sentinels.Keys
  }

  lemma OpenedGrows(f: Fleet, acked: set<Command>, g: Fleet, more: set<Command>, ph: Phase)
    requires Opened(f, acked, ph) && SameKeys(f, g) && acked <= more
    ensures Opened(g, more, ph)
  {
  }

  lemma ApplyFacts(f: Fleet, d: Password, c: Command)
    ensures SameKeys(f, Apply(f, d, c))
    ensures c.WidenRedis? || c.SetMasterauth? || c.NarrowRedis? ==> Apply(f, d, c).sentinels == f.sentinels
    ensures !(c.WidenRedis? || c.SetMasterauth? || c.NarrowRedis?) ==> Apply(f, d, c).redis == f.redis
    ensures forall a :: a in f.redis && a != c.addr ==> Apply(f, d, c).redis[a] == f.redis[a]
    ensures forall a :: a in f.sentinels && a != c.addr ==> Apply(f, d, c).sentinels[a] == f.sentinels[a]
    ensures c.SetMasterauth? && c.addr in f.redis ==> Apply(f, d, c).redis[c.addr].user == f.redis[c.addr].user
    ensures c.WidenRedis? && c.addr in f.redis ==> Apply(f, d, c).redis[c.addr].user == f.redis[c.addr].user.Add(d)
    ensures c.SetAuthPass? && c.addr in f.sentinels ==>
      Apply(f, d, c).sentinels[c.addr].user == f.sentinels[c.addr].user
  {
  }

  /** The history goes on without another push. */
  ghost predicate Proceeds(before: seq<Action>, after: seq<Action>) {
    before <= after && forall i :: |before| <= i < |after| ==> !after[i].Begin?
  }

  lemma OnePushTowards(before: seq<Action>, after: seq<Action>, d: Password)
    requires Proceeds(before + [Begin(d)], after)
    ensures before <= after + [Stop] && (AllTowards(before, d) ==> AllTowards(after + [Stop], d))
  {
    assert forall i :: 0 <= i <= |before| ==> after[i] == (before + [Begin(d)])[i];
  }

  class Operator {
    var fleet: Fleet
    ghost var state: State
    ghost var start: State
    ghost var acts: seq<Action>

    /** The operator's history is a run of the transition system. */
    ghost predicate Valid()
      reads this
    {
      && state.fleet == fleet
      && state == Run(start, acts)
      && Tracked(state)
    }

    constructor (f: Fleet)
      ensures Valid() && fleet == f && state == start == State(f, Idle, []) && acts == []
    {
      fleet, state, start, acts := f, State(f, Idle, []), State(f, Idle, []), [];
    }

    /** The ghost bookkeeping of one step. */
    ghost method Record(a: Action)
      requires state == Run(start, acts) && Tracked(state) && Step(state, a).fleet == fleet
      modifies this`state, this`acts
      ensures Valid() && state == Step(old(state), a) && acts == old(acts) + [a]
    {
      hide Run, Step, Tracked;
      RunExtend(start, acts, a);
      StepKeepsTracked(state, a);
      state, acts := Step(state, a), acts + [a];
    }

    /** One command over a connection that presents `credential`. A node that does not accept
        it refuses; otherwise the command may fail with or without effect, unless the network
        is reliable. */
    method Transmit(c: Command, credential: Password, reliable: bool, desired: Password)
      returns (ok: bool)
      requires Valid() && state.controller.Pushing? && state.controller.desired == desired
      requires Addressed(fleet, c) && MaySend(fleet, state.controller.acked, c)
      modifies this
      ensures Valid() && start == old(start) && Proceeds(old(acts), acts)
      ensures state.controller == old(state.controller).(acked :=
        if ok then old(state.controller.acked) + {c} else old(state.controller.acked))
      ensures ok ==> UserOf(old(fleet), c).Accepts(credential) && fleet == Apply(old(fleet), desired, c)
      ensures !ok ==> fleet == old(fleet) || fleet == Apply(old(fleet), desired, c)
      ensures reliable ==> ok == UserOf(old(fleet), c).Accepts(credential)
      ensures reliable && !ok ==> fleet == old(fleet)
    {
      hide Run, Apply, Tracked, MaySend;
      var effect: bool := *;
      ok := *;
      if !UserOf(fleet, c).Accepts(credential) {
        effect, ok := false, false;
      } else if reliable || ok {
        effect, ok := true, true;
      }
      if effect {
        fleet := Apply(fleet, desired, c);
      }
      Record(Send(c, ok, effect));
    }

    method DialWithEither(a: Addr, desired: Password, previous: Password, reliable: bool) returns (r: Dial)
      requires a in fleet.redis
      ensures r.Connected? ==> fleet.redis[a].user.Accepts(r.credential)
      ensures reliable && r.Connected? ==> Lasts(fleet.redis[a].user, r.credential, desired)
      ensures reliable ==> (r.Connected? <==> Answers(fleet.redis[a].user, desired, previous))
    {
      var ping: bool := *;
      if fleet.redis[a].user.Accepts(desired) && (reliable || ping) {
        return Connected(desired);
      }
      ping := *;
      if fleet.redis[a].user.Accepts(previous) && (reliable || ping) {
        return Connected(previous);
      }
      return Refused;
    }

    /** Every redis node is dialled before anything is written anywhere. */
    method DialAll(rs: seq<Addr>, desired: Password, previous: Password, reliable: bool)
      returns (ok: bool, dials: map<Addr, Password>)
      requires forall a :: a in rs ==> a in fleet.redis
      ensures ok ==> forall a :: a in rs <==> a in dials
      ensures ok && reliable ==> DialsLast(fleet, dials, desired)
      ensures reliable ==> (ok <==> forall a :: a in rs ==> Answers(fleet.redis[a].user, desired, previous))
    {
      dials := map[];
      for i := 0 to |rs|
        invariant forall a :: a in dials <==> a in rs[..i]
        invariant reliable ==> DialsLast(fleet, dials, desired)
        invariant reliable ==> forall a :: a in rs[..i] ==> Answers(fleet.redis[a].user, desired, previous)
      {
        var r := DialWithEither(rs[i], desired, previous, reliable);
        if r.Refused? {
          return false, dials;
        }
        dials := dials[rs[i] := r.credential];
        assert rs[..i + 1] == rs[..i] + [rs[i]];
      }
      assert rs[..|rs|] == rs;
      return true, dials;
    }

    /** One phase on every redis node; stops at the first failure. */
    method RedisPhase(ph: Phase, rs: seq<Addr>, dials: map<Addr, Password>, desired: Password, reliable: bool)
      returns (ok: bool)
      requires Distinct(rs) && (forall a :: a in rs <==> a in dials) && (forall a :: a in rs ==> a in fleet.redis)
      requires Valid() && state.controller.Pushing? && state.controller.desired == desired
      requires Opened(fleet, state.controller.acked, ph)
      modifies this
      ensures Valid() && start == old(start) && Proceeds(old(acts), acts) && SameKeys(old(fleet), fleet)
      ensures state.controller.Pushing? && state.controller.desired == desired
      ensures old(state.controller.acked) <= state.controller.acked
      ensures ok ==> forall a :: a in rs ==> RedisCommand(ph, a) in state.controller.acked
      ensures fleet.sentinels == old(fleet.sentinels)
      ensures ph != Narrow && DialsLast(old(fleet), dials, desired) ==> DialsLast(fleet, dials, desired)
      ensures reliable && DialsLast(old(fleet), dials, desired) ==> ok
    {
      hide Run, Step, Apply, Tracked, PhaseAcked;
      for i := 0 to |rs|
        invariant Valid() && start == old(start) && Proceeds(old(acts), acts) && SameKeys(old(fleet), fleet)
        invariant state.controller.Pushing? && state.controller.desired == desired
        invariant old(state.controller.acked) <= state.controller.acked
        invariant forall j :: 0 <= j < i ==> RedisCommand(ph, rs[j]) in state.controller.acked
        invariant fleet.sentinels == old(fleet.sentinels)
        invariant forall j :: i <= j < |rs| ==> fleet.redis[rs[j]] == old(fleet).redis[rs[j]]
        invariant ph != Narrow && DialsLast(old(fleet), dials, desired) ==> DialsLast(fleet, dials, desired)
      {
        var c := RedisCommand(ph, rs[i]);
        OpenedGrows(old(fleet), old(state.controller.acked), fleet, state.controller.acked, ph);
        ApplyFacts(fleet, desired, c);
        ok := Transmit(c, dials[rs[i]], reliable, desired);
        if !ok {
          return;
        }
      }
      return true;
    }

    /** One broadcast to one sentinel: a single command, or the two of the switch. */
    method Broadcast(ph: Phase, a: Addr, credential: Password, desired: Password, reliable: bool)
      returns (ok: bool)
      requires a in fleet.sentinels
      requires Valid() && state.controller.Pushing? && state.controller.desired == desired
      requires Opened(fleet, state.controller.acked, ph)
      modifies this
      ensures Valid() && start == old(start) && Proceeds(old(acts), acts) && SameKeys(old(fleet), fleet)
      ensures state.controller.Pushing? && state.controller.desired == desired
      ensures old(state.controller.acked) <= state.controller.acked
      ensures ok ==> SentinelAcked(state.controller.acked, ph, a)
      ensures fleet.redis == old(fleet.redis)
      ensures forall b :: b in fleet.sentinels && b != a ==> fleet.sentinels[b] == old(fleet).sentinels[b]
      ensures reliable ==> ok == old(fleet).sentinels[a].user.Accepts(credential)
      ensures reliable && !ok ==> fleet == old(fleet)
    {
      hide Run, Step, Apply, Tracked;
      var c := match ph case Widen => WidenSentinel(a) case Switch => SetAuthPass(a) case Narrow => NarrowSentinel(a);
      ApplyFacts(fleet, desired, c);
      ok := Transmit(c, credential, reliable, desired);
      if ok && ph == Switch {
        OpenedGrows(old(fleet), old(state.controller.acked), fleet, state.controller.acked, ph);
        ApplyFacts(fleet, desired, SetSentinelPass(a));
        ok := Transmit(SetSentinelPass(a), credential, reliable, desired);
      }
    }

    /** One sentinel: with the new password first, and the previous one when that fails. */
    method BroadcastWithEither(ph: Phase, a: Addr, desired: Password, previous: Password, reliable: bool)
      returns (ok: bool)
      requires a in fleet.sentinels
      requires Valid() && state.controller.Pushing? && state.controller.desired == desired
      requires Opened(fleet, state.controller.acked, ph)
      modifies this
      ensures Valid() && start == old(start) && Proceeds(old(acts), acts) && SameKeys(old(fleet), fleet)
      ensures state.controller.Pushing? && state.controller.desired == desired
      ensures old(state.controller.acked) <= state.controller.acked
      ensures ok ==> SentinelAcked(state.controller.acked, ph, a)
      ensures fleet.redis == old(fleet.redis)
      ensures forall b :: b in fleet.sentinels && b != a ==> fleet.sentinels[b] == old(fleet).sentinels[b]
      ensures reliable ==> ok == Answers(old(fleet).sentinels[a].user, desired, previous)
    {
      hide Run, Step, Apply, Tracked, PhaseAcked;
      ok := Broadcast(ph, a, desired, desired, reliable);
      if !ok {
        OpenedGrows(old(fleet), old(state.controller.acked), fleet, state.controller.acked, ph);
        ok := Broadcast(ph, a, previous, desired, reliable);
      }
    }

    /** forEachSentinel: every sentinel in turn; stops at the first that takes neither password. */
    method SentinelPhase(ph: Phase, ss: seq<Addr>, desired: Password, previous: Password, reliable: bool)
      returns (ok: bool)
      requires Distinct(ss) && (forall a :: a in ss <==> a in fleet.sentinels)
      requires Valid() && state.controller.Pushing? && state.controller.desired == desired
      requires Opened(fleet, state.controller.acked, ph)
      modifies this
      ensures Valid() && start == old(start) && Proceeds(old(acts), acts) && SameKeys(old(fleet), fleet)
      ensures state.controller.Pushing? && state.controller.desired == desired
      ensures old(state.controller.acked) <= state.controller.acked
      ensures ok ==> forall a :: a in ss ==> SentinelAcked(state.controller.acked, ph, a)
      ensures fleet.redis == old(fleet.redis)
      ensures reliable ==> (ok <==> SentinelsAnswer(old(fleet), desired, previous))
    {
      hide Run, Step, Apply, Tracked, PhaseAcked;
      for i := 0 to |ss|
        invariant Valid() && start == old(start) && Proceeds(old(acts), acts) && SameKeys(old(fleet), fleet)
        invariant state.controller.Pushing? && state.controller.desired == desired
        invariant old(state.controller.acked) <= state.controller.acked
        invariant forall j :: 0 <= j < i ==> SentinelAcked(state.controller.acked, ph, ss[j])
        invariant fleet.redis == old(fleet.redis)
        invariant forall j :: i <= j < |ss| ==> fleet.sentinels[ss[j]] == old(fleet).sentinels[ss[j]]
        invariant reliable ==> forall j :: 0 <= j < i ==> Answers(old(fleet).sentinels[ss[j]].user, desired, previous)
      {
        OpenedGrows(old(fleet), old(state.controller.acked), fleet, state.controller.acked, ph);
        ok := BroadcastWithEither(ph, ss[i], desired, previous, reliable);
        if !ok {
          return;
        }
      }
      return true;
    }

    /** A phase acknowledged by both loops is acknowledged everywhere. */
    lemma PhaseComplete(ph: Phase, rs: seq<Addr>, ss: seq<Addr>)
      requires state.controller.Pushing?
      requires forall a :: a in fleet.redis ==> a in rs
      requires forall a :: a in fleet.sentinels ==> a in ss
      requires forall a :: a in rs ==> RedisCommand(ph, a) in state.controller.acked
      requires forall a :: a in ss ==> SentinelAcked(state.controller.acked, ph, a)
      ensures PhaseAcked(fleet, state.controller.acked, ph)
    {
    }

    method Phases(rs: seq<Addr>, ss: seq<Addr>, dials: map<Addr, Password>,
                  desired: Password, previous: Password, reliable: bool)
      returns (ok: bool)
      requires Distinct(rs) && Distinct(ss) && (forall a :: a in rs <==> a in dials)
      requires (forall a :: a in rs <==> a in fleet.redis) && (forall a :: a in ss <==> a in fleet.sentinels)
      requires Valid() && state.controller == Pushing(desired, {})
      modifies this
      ensures Valid() && start == old(start) && Proceeds(old(acts), acts) && SameKeys(old(fleet), fleet)
      ensures state.controller.Pushing? && state.controller.desired == desired
      ensures ok ==> Converged(fleet, desired)
      ensures reliable && DialsLast(old(fleet), dials, desired) ==>
        (ok <==> SentinelsAnswer(old(fleet), desired, previous))
    {
      hide Run, Step, Apply;
      ok := RedisPhase(Widen, rs, dials, desired, reliable);
      if !ok { return; }
      ok := SentinelPhase(Widen, ss, desired, previous, reliable);
      if !ok { return; }
      PhaseComplete(Widen, rs, ss);
      WidenedEverywhere(state);
      ok := Outward(rs, ss, dials, desired, previous, reliable);
    }

    /** The switch and narrow phases of a push whose widening is complete. */
    method Outward(rs: seq<Addr>, ss: seq<Addr>, dials: map<Addr, Password>,
                   desired: Password, previous: Password, reliable: bool)
      returns (ok: bool)
      requires Distinct(rs) && Distinct(ss) && (forall a :: a in rs <==> a in dials)
      requires (forall a :: a in rs <==> a in fleet.redis) && (forall a :: a in ss <==> a in fleet.sentinels)
      requires Valid() && state.controller.Pushing? && state.controller.desired == desired
      requires PhaseAcked(fleet, state.controller.acked, Widen)
      modifies this
      ensures Valid() && start == old(start) && Proceeds(old(acts), acts) && SameKeys(old(fleet), fleet)
      ensures state.controller.Pushing? && state.controller.desired == desired
      ensures ok ==> Converged(fleet, desired)
      ensures reliable && DialsLast(old(fleet), dials, desired) ==> ok
    {
      hide Run, Step, Apply;
      WidenedEverywhere(state);
      ok := RedisPhase(Switch, rs, dials, desired, reliable);
      if !ok { return; }
      OpenedGrows(old(fleet), old(state.controller.acked), fleet, state.controller.acked, Switch);
      ok := SentinelPhase(Switch, ss, desired, previous, reliable);
      if !ok { return; }
      OpenedGrows(old(fleet), old(state.controller.acked), fleet, state.controller.acked, Switch);
      PhaseComplete(Switch, rs, ss);
      WidenedEverywhere(state);
      ok := NarrowAll(rs, ss, dials, desired, previous, reliable);
    }

    method NarrowAll(rs: seq<Addr>, ss: seq<Addr>, dials: map<Addr, Password>,
                     desired: Password, previous: Password, reliable: bool)
      returns (ok: bool)
      requires Distinct(rs) && Distinct(ss) && (forall a :: a in rs <==> a in dials)
      requires (forall a :: a in rs <==> a in fleet.redis) && (forall a :: a in ss <==> a in fleet.sentinels)
      requires Valid() && state.controller.Pushing? && state.controller.desired == desired
      requires PhaseAcked(fleet, state.controller.acked, Widen) && PhaseAcked(fleet, state.controller.acked, Switch)
      modifies this
      ensures Valid() && start == old(start) && Proceeds(old(acts), acts) && SameKeys(old(fleet), fleet)
      ensures state.controller.Pushing? && state.controller.desired == desired
      ensures ok ==> Converged(fleet, desired)
      ensures reliable && DialsLast(old(fleet), dials, desired) ==> ok
    {
      hide Run, Step, Apply;
      WidenedEverywhere(state);
      ok := RedisPhase(Narrow, rs, dials, desired, reliable);
      if !ok { return; }
      OpenedGrows(old(fleet), old(state.controller.acked), fleet, state.controller.acked, Narrow);
      ok := SentinelPhase(Narrow, ss, desired, previous, reliable);
      if !ok { return; }
      OpenedGrows(old(fleet), old(state.controller.acked), fleet, state.controller.acked, Narrow);
      PhaseComplete(Narrow, rs, ss);
      CompletedPushConverges(state);
    }

    /** Moves the running nodes rs and ss from `previous` to `desired`. Its history is a run of
        the transition system, so RotationNeverBreaksALink covers every instant of it. A push
        reported complete has converged the fleet; over a reliable network it completes exactly
        when every node answers to one of the two passwords. */
    method PushCredentials(rs: seq<Addr>, ss: seq<Addr>, desired: Password, previous: Password, reliable: bool)
      returns (ok: bool)
      requires Distinct(rs) && Distinct(ss)
      requires (forall a :: a in rs <==> a in fleet.redis) && (forall a :: a in ss <==> a in fleet.sentinels)
      requires Valid() && state.controller == Idle
      modifies this
      ensures Valid() && state.controller == Idle && start == old(start) && old(acts) <= acts
      ensures SameKeys(old(fleet), fleet)
      ensures ok ==> Converged(fleet, desired)
      ensures reliable ==> (ok <==> Reachable(old(fleet), desired, previous))
      // a push that cannot finish on the redis nodes does not start
      ensures reliable && (exists a :: a in rs && !Answers(old(fleet).redis[a].user, desired, previous)) ==>
        !ok && fleet == old(fleet) && acts == old(acts)
      ensures AllTowards(old(acts), desired) ==> AllTowards(acts, desired)
    {
      hide Run, Apply, AllTowards, Proceeds;
      var dials;
      ok, dials := DialAll(rs, desired, previous, reliable);
      if !ok { return; }
      Record(Begin(desired));
      ok := Phases(rs, ss, dials, desired, previous, reliable);
      OnePushTowards(old(acts), acts, desired);
      Record(Stop);
    }

    /** One pass after another pushes the same pair, each failing anywhere in any way, and then
        one meets no failure: it is not locked out, and it converges the fleet. */
    method PushUntilDone(rs: seq<Addr>, ss: seq<Addr>, desired: Password, previous: Password, failing: nat)
      returns (ok: bool)
      requires Distinct(rs) && Distinct(ss)
      requires (forall a :: a in rs <==> a in fleet.redis) && (forall a :: a in ss <==> a in fleet.sentinels)
      requires Valid() && state.controller == Idle
      requires start == State(start.fleet, Idle, []) && Converged(start.fleet, previous) && AllTowards(acts, desired)
      modifies this
      ensures Valid() && state.controller == Idle && start == old(start) && old(acts) <= acts
      ensures ok && Converged(fleet, desired)
    {
      hide Run, Apply, AllTowards, Converged, Tracked, Reachable;
      for i := 0 to failing
        invariant Valid() && state.controller == Idle && start == old(start) && old(acts) <= acts
        invariant SameKeys(old(fleet), fleet) && AllTowards(acts, desired)
      {
        ok := PushCredentials(rs, ss, desired, previous, false);
      }
      AbortedPushStaysReachable(start.fleet, previous, desired, acts);
      ok := PushCredentials(rs, ss, desired, previous, true);
    }
  }
}
