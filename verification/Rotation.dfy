/** Online credential rotation: the three cluster-wide phases of pushCredentials
    (widen, switch outbound, narrow) as a transition system over single commands,
    each of which may fail with or without effect.

    The password list of a node's default user and the passwords the node presents
    when it dials are the only state that matters. A `nopass` user accepts every
    password and loses that flag with the first password it is given.
 */
module Rotation {
  import opened Basics

  type Password = string
  /** The default ACL user of a redis or sentinel node. */
  datatype User = User(nopass: bool, passwords: set<Password>) {
    predicate Accepts(p: Password) { nopass || p in passwords }

    /** ACL SETUSER default >p */
    function Add(p: Password): User { User(false, passwords + {p}) }

    /** CONFIG SET requirepass p, and ACL SETUSER default resetpass >p */
    function Only(p: Password): User { User(false, {p}) }
  }

  datatype RedisNode = RedisNode(user: User, masterauth: Password)
  datatype SentinelNode = SentinelNode(user: User, authPass: Password, sentinelPass: Password)
  datatype Fleet = Fleet(redis: map<Addr, RedisNode>, sentinels: map<Addr, SentinelNode>)

  /** Every credential a node would present is accepted by every node it can dial:
      redis dials redis (replication), sentinels dial redis and each other. */
  ghost predicate LinkSafe(f: Fleet) {
    && (forall r, t :: r in f.redis && t in f.redis ==> f.redis[t].user.Accepts(f.redis[r].masterauth))
    && (forall s, t :: s in f.sentinels && t in f.redis ==> f.redis[t].user.Accepts(f.sentinels[s].authPass))
    && (forall s, t :: s in f.sentinels && t in f.sentinels ==>
      f.sentinels[t].user.Accepts(f.sentinels[s].sentinelPass))
  }

  /** LinkSafe without the help of any nopass user. */
  ghost predicate LinkListed(f: Fleet) {
    && (forall r, t :: r in f.redis && t in f.redis ==> f.redis[r].masterauth in f.redis[t].user.passwords)
    && (forall s, t :: s in f.sentinels && t in f.redis ==> f.sentinels[s].authPass in f.redis[t].user.passwords)
    && (forall s, t :: s in f.sentinels && t in f.sentinels ==>
      f.sentinels[s].sentinelPass in f.sentinels[t].user.passwords)
  }

  /** Every node accepts exactly p and presents exactly p. */
  ghost predicate Converged(f: Fleet, p: Password) {
    && (forall a :: a in f.redis ==> f.redis[a] == RedisNode(User(false, {p}), p))
    && (forall a :: a in f.sentinels ==> f.sentinels[a] == SentinelNode(User(false, {p}), p, p))
  }

  datatype Phase = Widen | Switch | Narrow

  datatype Command =
    | WidenRedis(addr: Addr)
    | WidenSentinel(addr: Addr)
    | SetMasterauth(addr: Addr)
    | SetAuthPass(addr: Addr)
    | SetSentinelPass(addr: Addr)
    | NarrowRedis(addr: Addr)
    | NarrowSentinel(addr: Addr)
  {
    function Stage(): Phase {
      if WidenRedis? || WidenSentinel? then Widen
      else if NarrowRedis? || NarrowSentinel? then Narrow
      else Switch
    }
  }

  /** The effect of one command of a push towards password d. */
  function Apply(f: Fleet, d: Password, c: Command): Fleet {
    if c.WidenRedis? || c.SetMasterauth? || c.NarrowRedis? then
      if c.addr !in f.redis then f else
      var n := f.redis[c.addr];
      f.(redis := f.redis[c.addr :=
        if c.WidenRedis? then n.(user := n.user.Add(d))
        else if c.SetMasterauth? then n.(masterauth := d)
        else n.(user := n.user.Only(d))])
    else
      if c.addr !in f.sentinels then f else
      var n := f.sentinels[c.addr];
      f.(sentinels := f.sentinels[c.addr :=
        if c.WidenSentinel? then n.(user := n.user.Add(d))
        else if c.SetAuthPass? then n.(authPass := d)
        else if c.SetSentinelPass? then n.(sentinelPass := d)
        else n.(user := n.user.Only(d))])
  }

  /** What a command that took effect leaves behind. */
  ghost predicate Done(f: Fleet, d: Password, c: Command) {
    match c
    case WidenRedis(a) => a in f.redis && d in f.redis[a].user.passwords
    case WidenSentinel(a) => a in f.sentinels && d in f.sentinels[a].user.passwords
    case SetMasterauth(a) => a in f.redis && f.redis[a].masterauth == d
    case SetAuthPass(a) => a in f.sentinels && f.sentinels[a].authPass == d
    case SetSentinelPass(a) => a in f.sentinels && f.sentinels[a].sentinelPass == d
    case NarrowRedis(a) => a in f.redis && f.redis[a].user == User(false, {d})
    case NarrowSentinel(a) => a in f.sentinels && f.sentinels[a].user == User(false, {d})
  }

  // ------------------------------------------------------------------ the runs

  function RedisCommand(ph: Phase, a: Addr): Command {
    match ph
    case Widen => WidenRedis(a)
    case Switch => SetMasterauth(a)
    case Narrow => NarrowRedis(a)
  }

  /** Every command of one phase has been acknowledged, on every node. */
  ghost predicate PhaseAcked(f: Fleet, acked: set<Command>, ph: Phase) {
    && (forall a :: a in f.redis ==> RedisCommand(ph, a) in acked)
    && (forall a :: a in f.sentinels ==> SentinelAcked(acked, ph, a))
  }

  ghost predicate SentinelAcked(acked: set<Command>, ph: Phase, a: Addr) {
    match ph
    case Widen => WidenSentinel(a) in acked
    case Switch => SetAuthPass(a) in acked && SetSentinelPass(a) in acked
    case Narrow => NarrowSentinel(a) in acked
  }

  /** A phase starts only after the one before it was acknowledged everywhere. */
  ghost predicate MaySend(f: Fleet, acked: set<Command>, c: Command) {
    && (c.Stage() == Switch ==> PhaseAcked(f, acked, Widen))
    && (c.Stage() == Narrow ==> PhaseAcked(f, acked, Widen) && PhaseAcked(f, acked, Switch))
  }

  datatype Controller = Idle | Pushing(desired: Password, acked: set<Command>)

  /** `log` is the history of the commands that took effect. */
  datatype State = State(fleet: Fleet, controller: Controller, log: seq<Command>)

  datatype Action =
    | Begin(desired: Password)                     // a push towards desired starts
    | Send(c: Command, ack: bool, effect: bool)    // one command, acknowledged or failed
    | Stop                                         // the push is over, abandoned, or the operator dies

  predicate Addressed(f: Fleet, c: Command) {
    if c.WidenRedis? || c.SetMasterauth? || c.NarrowRedis? then c.addr in f.redis else c.addr in f.sentinels
  }

  /** One step of the operator. An action that is not possible in s changes nothing. A failed
      command may have taken effect, and may be sent again; an acknowledged one has taken effect. */
  ghost function Step(s: State, a: Action): State {
    match s.controller
    case Idle => if a.Begin? then s.(controller := Pushing(a.desired, {})) else s
    case Pushing(d, acked) =>
      match a
      case Begin(_) => s
      case Stop => s.(controller := Idle)
      case Send(c, ack, effect) =>
        if !Addressed(s.fleet, c) || !MaySend(s.fleet, acked, c) || !(effect || ack) then s
        else State(Apply(s.fleet, d, c), Pushing(d, if ack then acked + {c} else acked), s.log + [c])
  }

  ghost function Run(s: State, acts: seq<Action>): State
    decreases |acts|
  {
    if acts == [] then s else Step(Run(s, acts[..|acts| - 1]), acts[|acts| - 1])
  }

  lemma RunExtend(s: State, acts: seq<Action>, a: Action)
    ensures Run(s, acts + [a]) == Step(Run(s, acts), a)
  {
    assert (acts + [a])[..|acts|] == acts;
  }

  /** The operator's own bookkeeping: what was acknowledged is in place. */
  ghost predicate Tracked(s: State) {
    s.controller.Pushing? ==>
      forall c :: c in s.controller.acked ==> Done(s.fleet, s.controller.desired, c)
  }

  /** Every node lists p among its passwords. */
  ghost predicate Listed(f: Fleet, p: Password) {
    && (forall a :: a in f.redis ==> p in f.redis[a].user.passwords)
    && (forall a :: a in f.sentinels ==> p in f.sentinels[a].user.passwords)
  }

  /** Every node dials with p and nothing else. */
  ghost predicate Presents(f: Fleet, p: Password) {
    && (forall a :: a in f.redis ==> f.redis[a].masterauth == p)
    && (forall a :: a in f.sentinels ==> f.sentinels[a].authPass == p && f.sentinels[a].sentinelPass == p)
  }

  lemma WidenedEverywhere(s: State)
    requires Tracked(s) && s.controller.Pushing? && PhaseAcked(s.fleet, s.controller.acked, Widen)
    ensures Listed(s.fleet, s.controller.desired)
  {
    var d := s.controller.desired;
    forall a | a in s.fleet.redis ensures d in s.fleet.redis[a].user.passwords {
      assert RedisCommand(Widen, a) in s.controller.acked;
      assert Done(s.fleet, d, WidenRedis(a));
    }
    forall a | a in s.fleet.sentinels ensures d in s.fleet.sentinels[a].user.passwords {
      assert SentinelAcked(s.controller.acked, Widen, a);
      assert Done(s.fleet, d, WidenSentinel(a));
    }
  }

  lemma SwitchedEverywhere(s: State)
    requires Tracked(s) && s.controller.Pushing? && PhaseAcked(s.fleet, s.controller.acked, Switch)
    ensures Presents(s.fleet, s.controller.desired)
  {
    var d := s.controller.desired;
    forall a | a in s.fleet.redis ensures s.fleet.redis[a].masterauth == d {
      assert RedisCommand(Switch, a) in s.controller.acked;
      assert Done(s.fleet, d, SetMasterauth(a));
    }
    forall a | a in s.fleet.sentinels
      ensures s.fleet.sentinels[a].authPass == d && s.fleet.sentinels[a].sentinelPass == d
    {
      assert SentinelAcked(s.controller.acked, Switch, a);
      assert Done(s.fleet, d, SetAuthPass(a)) && Done(s.fleet, d, SetSentinelPass(a));
    }
  }

  lemma NarrowedEverywhere(s: State)
    requires Tracked(s) && s.controller.Pushing? && PhaseAcked(s.fleet, s.controller.acked, Narrow)
    ensures forall a :: a in s.fleet.redis ==> s.fleet.redis[a].user == User(false, {s.controller.desired})
    ensures forall a :: a in s.fleet.sentinels ==> s.fleet.sentinels[a].user == User(false, {s.controller.desired})
  {
    var d := s.controller.desired;
    forall a | a in s.fleet.redis ensures s.fleet.redis[a].user == User(false, {d}) {
      assert RedisCommand(Narrow, a) in s.controller.acked;
      assert Done(s.fleet, d, NarrowRedis(a));
    }
    forall a | a in s.fleet.sentinels ensures s.fleet.sentinels[a].user == User(false, {d}) {
      assert SentinelAcked(s.controller.acked, Narrow, a);
      assert Done(s.fleet, d, NarrowSentinel(a));
    }
  }

  lemma GatedCommandKeepsLinks(f: Fleet, d: Password, c: Command)
    requires LinkListed(f)
    requires c.Stage() != Widen ==> Listed(f, d)
    requires c.Stage() == Narrow ==> Presents(f, d)
    ensures LinkListed(Apply(f, d, c))
  {
  }

  lemma DoneIsStable(f: Fleet, d: Password, c: Command, earlier: Command)
    requires Done(f, d, earlier)
    ensures Done(Apply(f, d, c), d, earlier)
  {
  }

  lemma StepKeepsTracked(s: State, a: Action)
    requires Tracked(s)
    ensures Tracked(Step(s, a))
  {
    var s' := Step(s, a);
    if s.controller.Pushing? && a.Send? && s' != s {
      var d := s.controller.desired;
      forall c | c in s'.controller.acked ensures Done(s'.fleet, d, c) {
        if c in s.controller.acked {
          DoneIsStable(s.fleet, d, a.c, c);
        }
      }
    }
  }

  lemma StepKeepsLinks(s: State, a: Action)
    requires Tracked(s) && LinkListed(s.fleet)
    ensures LinkListed(Step(s, a).fleet)
  {
    if s.controller.Pushing? && a.Send? && MaySend(s.fleet, s.controller.acked, a.c) {
      if a.c.Stage() != Widen { WidenedEverywhere(s); }
      if a.c.Stage() == Narrow { SwitchedEverywhere(s); }
      GatedCommandKeepsLinks(s.fleet, s.controller.desired, a.c);
    }
  }

  lemma {:induction false} RunKeepsLinks(s: State, acts: seq<Action>)
    requires Tracked(s)
    ensures Tracked(Run(s, acts))
    ensures LinkListed(s.fleet) ==> LinkListed(Run(s, acts).fleet)
    decreases |acts|
  {
    if acts != [] {
      var before := Run(s, acts[..|acts| - 1]);
      RunKeepsLinks(s, acts[..|acts| - 1]);
      StepKeepsTracked(before, acts[|acts| - 1]);
      if LinkListed(before.fleet) {
        StepKeepsLinks(before, acts[|acts| - 1]);
      }
    }
  }

  /** Link safety: whatever pushes are started, towards whatever passwords, and wherever each
      of them stops, no node ever presents a credential that a node it dials would refuse. */
  lemma RotationNeverBreaksALink(f: Fleet, p: Password, acts: seq<Action>)
    requires Converged(f, p)
    ensures LinkSafe(Run(State(f, Idle, []), acts).fleet)
  {
    RunKeepsLinks(State(f, Idle, []), acts);
  }

  /** What a completed push leaves: every node accepts and presents the new password only. */
  lemma CompletedPushConverges(s: State)
    requires Tracked(s) && s.controller.Pushing?
    requires PhaseAcked(s.fleet, s.controller.acked, Switch) && PhaseAcked(s.fleet, s.controller.acked, Narrow)
    ensures Converged(s.fleet, s.controller.desired)
  {
    SwitchedEverywhere(s);
    NarrowedEverywhere(s);
  }

  // ------------------------------------------------- aborted pushes, one password pair

  ghost predicate HoldsPair(u: User, p: Password, d: Password) {
    !u.nopass && u.passwords <= {p, d} && (p in u.passwords || d in u.passwords)
  }

  /** Only the two passwords of the pair are in play, on every node. */
  ghost predicate Paired(f: Fleet, p: Password, d: Password) {
    && (forall a :: a in f.redis ==> HoldsPair(f.redis[a].user, p, d) && f.redis[a].masterauth in {p, d})
    && (forall a :: a in f.sentinels ==>
          && HoldsPair(f.sentinels[a].user, p, d)
          && f.sentinels[a].authPass in {p, d}
          && f.sentinels[a].sentinelPass in {p, d})
  }

  ghost predicate AllTowards(acts: seq<Action>, d: Password) {
    forall i :: 0 <= i < |acts| && acts[i].Begin? ==> acts[i].desired == d
  }

  ghost predicate Narrowed(log: seq<Command>) {
    exists i :: 0 <= i < |log| && log[i].Stage() == Narrow
  }

  ghost predicate PairInv(s: State, p: Password, d: Password) {
    && Paired(s.fleet, p, d)
    && Tracked(s)
    && (s.controller.Pushing? ==> s.controller.desired == d)
    && (p != d ==> (Listed(s.fleet, p) <==> !Narrowed(s.log)))
  }

  lemma ApplyKeepsPaired(f: Fleet, p: Password, d: Password, c: Command)
    requires Paired(f, p, d)
    ensures Paired(Apply(f, d, c), p, d)
  {
  }

  /** The old password leaves a node only through narrowing. */
  lemma OnlyNarrowingDropsThePassword(f: Fleet, p: Password, d: Password, c: Command)
    requires p != d && Addressed(f, c)
    ensures c.Stage() == Narrow ==> !Listed(Apply(f, d, c), p)
    ensures c.Stage() != Narrow ==> (Listed(Apply(f, d, c), p) <==> Listed(f, p))
  {
    var g := Apply(f, d, c);
    if c.NarrowRedis? {
      assert g.redis[c.addr].user.passwords == {d};
    } else if c.NarrowSentinel? {
      assert g.sentinels[c.addr].user.passwords == {d};
    } else {
      assert forall a :: a in f.redis ==> (p in g.redis[a].user.passwords <==> p in f.redis[a].user.passwords);
      assert forall a :: a in f.sentinels ==>
        (p in g.sentinels[a].user.passwords <==> p in f.sentinels[a].user.passwords);
    }
  }

  lemma NarrowedExtend(log: seq<Command>, c: Command)
    ensures Narrowed(log + [c]) <==> Narrowed(log) || c.Stage() == Narrow
  {
    if Narrowed(log) {
      var i :| 0 <= i < |log| && log[i].Stage() == Narrow;
      assert (log + [c])[i].Stage() == Narrow;
    }
    assert (log + [c])[|log|] == c;
  }

  lemma StepKeepsPair(s: State, p: Password, d: Password, a: Action)
    requires PairInv(s, p, d) && (a.Begin? ==> a.desired == d)
    ensures PairInv(Step(s, a), p, d)
  {
    StepKeepsTracked(s, a);
    if s.controller.Pushing? && a.Send? && Addressed(s.fleet, a.c) {
      ApplyKeepsPaired(s.fleet, p, d, a.c);
      NarrowedExtend(s.log, a.c);
      if p != d {
        OnlyNarrowingDropsThePassword(s.fleet, p, d, a.c);
      }
    }
  }

  lemma {:induction false} RunKeepsPair(s: State, p: Password, d: Password, acts: seq<Action>)
    requires PairInv(s, p, d) && AllTowards(acts, d)
    ensures PairInv(Run(s, acts), p, d)
    decreases |acts|
  {
    if acts != [] {
      RunKeepsPair(s, p, d, acts[..|acts| - 1]);
      StepKeepsPair(Run(s, acts[..|acts| - 1]), p, d, acts[|acts| - 1]);
    }
  }

  /** For one pair of passwords, however many pushes were aborted and wherever, every node
      still accepts one of the two; and the recorded password p is still accepted everywhere
      exactly as long as no narrowing command has taken effect. */
  lemma AbortedPushStaysReachable(f: Fleet, p: Password, d: Password, acts: seq<Action>)
    requires Converged(f, p) && AllTowards(acts, d)
    ensures
      var s := Run(State(f, Idle, []), acts);
      && Reachable(s.fleet, d, p)
      && (p != d ==> (Listed(s.fleet, p) <==> !Narrowed(s.log)))
  {
    RunKeepsPair(State(f, Idle, []), p, d, acts);
  }

  /** Every node answers to one of the two passwords a push may dial with. */
  ghost predicate Reachable(f: Fleet, d: Password, p: Password) {
    && (forall a :: a in f.redis ==> f.redis[a].user.Accepts(d) || f.redis[a].user.Accepts(p))
    && (forall a :: a in f.sentinels ==> f.sentinels[a].user.Accepts(d) || f.sentinels[a].user.Accepts(p))
  }

  /** Whether the operator still gets in after the Secret was edited once more, to a third password
      e: every node answers to e or to the recorded p exactly as long as no narrowing command of
      the earlier pushes took effect. */
  lemma NewerPasswordIsReachableExactlyWhen(f: Fleet, p: Password, d: Password, e: Password, acts: seq<Action>)
    requires Converged(f, p) && AllTowards(acts, d)
    requires p != d && e != p && e != d
    ensures
      var s := Run(State(f, Idle, []), acts);
      Reachable(s.fleet, e, p) <==> !Narrowed(s.log)
  {
    RunKeepsPair(State(f, Idle, []), p, d, acts);
  }

  /** A push aborted while narrowing, followed by a Secret edited once more, locks the operator
      out: the node narrowed to "b" accepts neither the newer password nor the recorded one. */
  lemma NewerPasswordAfterAbortedNarrowLocksOut() returns (f: Fleet, acts: seq<Action>)
    ensures Converged(f, "a") && AllTowards(acts, "b")
    ensures
      var g := Run(State(f, Idle, []), acts).fleet;
      LinkSafe(g) && !Reachable(g, "c", "a")
  {
    hide Run, LinkSafe;
    f, acts := LoneNarrowing();
    var g := Run(State(f, Idle, []), acts).fleet;
    assert g.redis["r"].user == User(false, {"b"});
    RotationNeverBreaksALink(f, "a", acts);
  }

  /** A push from "a" to "b" on a fleet of one node, which dies right after narrowing it. */
  lemma LoneNarrowing() returns (f: Fleet, acts: seq<Action>)
    ensures f == Lone({"a"}, "a") && AllTowards(acts, "b")
    ensures Run(State(f, Idle, []), acts).fleet == Lone({"b"}, "b")
  {
    f, acts := Lone({"a"}, "a"), [];
    var s0 := State(f, Idle, []);
    assert Run(s0, acts) == s0;
    hide Run, LinkSafe, Tracked;
    var c1, c2, c3 := WidenRedis("r"), SetMasterauth("r"), NarrowRedis("r");
    RunExtend(s0, acts, Begin("b"));
    acts := acts + [Begin("b")];
    RunExtend(s0, acts, Send(c1, true, true));
    acts := acts + [Send(c1, true, true)];
    var s1 := State(Lone({"a"} + {"b"}, "a"), Pushing("b", {c1}), [c1]);
    assert Run(s0, acts) == s1 by {
      LoneSend(s0.(controller := Pushing("b", {})), c1, true);
      assert {} + {c1} == {c1} && [] + [c1] == [c1];
    }
    RunExtend(s0, acts, Send(c2, true, true));
    acts := acts + [Send(c2, true, true)];
    var s2 := State(Lone({"a"} + {"b"}, "b"), Pushing("b", {c1, c2}), [c1, c2]);
    assert Run(s0, acts) == s2 by {
      LoneSend(s1, c2, true);
      assert {c1} + {c2} == {c1, c2} && [c1] + [c2] == [c1, c2];
    }
    RunExtend(s0, acts, Send(c3, false, true));
    acts := acts + [Send(c3, false, true)];
    LoneSend(s2, c3, false);
  }

  /** A fleet of one redis node. */
  ghost function Lone(passwords: set<Password>, masterauth: Password): Fleet {
    Fleet(map["r" := RedisNode(User(false, passwords), masterauth)], map[])
  }

  lemma LoneSend(s: State, c: Command, ack: bool)
    requires exists ps: set<Password>, m: Password :: s.fleet == Lone(ps, m)
    requires s.controller.Pushing? && Addressed(s.fleet, c) && MaySend(s.fleet, s.controller.acked, c)
    ensures Step(s, Send(c, ack, true)) ==
      State(Apply(s.fleet, s.controller.desired, c),
            Pushing(s.controller.desired, if ack then s.controller.acked + {c} else s.controller.acked), s.log + [c])
  {
  }

  /** First contact with a node that has no password: widening it is not additive. The links
      into the node survive exactly when each of them already presents a listed password or
      the new one. */
  lemma WideningIsSafeExactlyWhen(f: Fleet, t: Addr, d: Password)
    requires LinkSafe(f) && t in f.redis
    ensures LinkSafe(Apply(f, d, WidenRedis(t))) <==>
      (f.redis[t].user.nopass ==>
        && (forall r :: r in f.redis ==> f.redis[r].masterauth in f.redis[t].user.passwords + {d})
        && (forall s :: s in f.sentinels ==> f.sentinels[s].authPass in f.redis[t].user.passwords + {d}))
  {
    var g := Apply(f, d, WidenRedis(t));
    var u, v := f.redis[t].user, g.redis[t].user;
    assert forall p :: v.Accepts(p) <==> p in u.passwords + {d};
    assert forall r :: r in f.redis ==> g.redis[r].masterauth == f.redis[r].masterauth;
    if LinkSafe(g) {
      forall r | r in f.redis ensures f.redis[r].masterauth in u.passwords + {d} {
        assert v.Accepts(g.redis[r].masterauth);
      }
      forall s | s in f.sentinels ensures f.sentinels[s].authPass in u.passwords + {d} {
        assert v.Accepts(g.sentinels[s].authPass);
      }
    }
  }

  /** Two redis nodes without a password, and what the links between them are worth after the
      first contact with one of them. */
  lemma FirstContactBreaksALink() returns (f: Fleet)
    ensures LinkSafe(f) && forall a :: a in f.redis ==> f.redis[a].user == User(true, {})
    ensures "r" in f.redis && !LinkSafe(Apply(f, "a", WidenRedis("r")))
  {
    var open := RedisNode(User(true, {}), "");
    f := Fleet(map["q" := open, "r" := open], map[]);
    var g := Apply(f, "a", WidenRedis("r"));
    assert !g.redis["r"].user.Accepts(g.redis["q"].masterauth);
  }

  /** The same for a sentinel: its peers are the other sentinels, itself among them. */
  lemma WideningASentinelIsSafeExactlyWhen(f: Fleet, t: Addr, d: Password)
    requires LinkSafe(f) && t in f.sentinels
    ensures LinkSafe(Apply(f, d, WidenSentinel(t))) <==>
      (f.sentinels[t].user.nopass ==>
        forall s :: s in f.sentinels ==> f.sentinels[s].sentinelPass in f.sentinels[t].user.passwords + {d})
  {
    var g := Apply(f, d, WidenSentinel(t));
    var u, v := f.sentinels[t].user, g.sentinels[t].user;
    assert forall p :: v.Accepts(p) <==> p in u.passwords + {d};
    assert forall s :: s in f.sentinels ==> g.sentinels[s].sentinelPass == f.sentinels[s].sentinelPass;
    if LinkSafe(g) {
      forall s | s in f.sentinels ensures f.sentinels[s].sentinelPass in u.passwords + {d} {
        assert v.Accepts(g.sentinels[s].sentinelPass);
      }
    }
  }
}
