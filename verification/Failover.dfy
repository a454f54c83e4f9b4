/** Replication reconfigured after a failover, and stray replicas repointed. */
module Failover {
  import opened Basics
  import opened Commands
  import Text

  // ------------------------------------------------------------------ addresses

  /** parseHostPort */
  function ParseHostPort(addr: string): (string, string) {
    if addr == "" then ("", "")
    else if ':' !in addr then (addr, "6379")
    else
      var parts := Text.Split(addr, ':');
      if |parts| != 2 then (addr, "6379") else (parts[0], parts[1])
  }

  predicate HostPort(host: string, port: string) { ':' !in host && ':' !in port }

  /** host:port is taken apart into host and port exactly when neither has a colon in it; a
      longer address (an IPv6 host) stays whole, port and all. A host alone gets the default port. */
  lemma ParsesExactlyWhen(host: string, port: string)
    ensures ParseHostPort(host + ":" + port) == (host, port) <==> HostPort(host, port)
    ensures !HostPort(host, port) ==> ParseHostPort(host + ":" + port) == (host + ":" + port, "6379")
    ensures ':' !in host && host != "" ==> ParseHostPort(host) == (host, "6379")
  {
    var addr := host + ":" + port;
    assert addr[|host|] == ':';
    Text.SplitConcat(host, port, ':');
    assert addr == host + [':'] + port;
    if HostPort(host, port) {
      Text.SplitFree(host, ':');
      Text.SplitFree(port, ':');
    } else if ':' in host {
      SplitCuts(host, ':');
    } else {
      SplitCuts(port, ':');
    }
  }

  /** An IPv6 master: no host to exclude, and a default port. */
  lemma Ipv6AddressStaysWhole()
    ensures ParseHostPort("fd00::7:6379") == ("fd00::7:6379", "6379")
  {
    var host := "fd00::7";
    assert host[4] == ':' && host + ":" + "6379" == "fd00::7:6379";
    ParsesExactlyWhen(host, "6379");
  }

  lemma {:induction false} SplitCuts(s: string, sep: char)
    requires sep in s
    ensures |Text.Split(s, sep)| >= 2
  {
    if s[0] != sep { SplitCuts(s[1..], sep); }
  }

  /** The host a dialled address names: what stands before its last colon. */
  function DialHost(addr: string): string {
    if ':' !in addr then addr
    else if addr[|addr| - 1] == ':' then addr[..|addr| - 1]
    else DialHost(addr[..|addr| - 1])
  }

  lemma {:induction false} DialHostOf(host: string, port: string)
    requires ':' !in port
    ensures DialHost(host + ":" + port) == host
    decreases |port|
  {
    var addr := host + ":" + port;
    assert addr[|host|] == ':';
    if port == "" {
      assert addr == host + ":";
    } else {
      assert addr[|addr| - 1] == port[|port| - 1];
      assert addr[..|addr| - 1] == host + ":" + port[..|port| - 1];
      DialHostOf(host, port[..|port| - 1]);
    }
  }

  lemma {:induction false} DialHostKeepsColons(addr: string)
    requires |Text.Split(addr, ':')| > 2
    ensures ':' in DialHost(addr)
  {
    var n := |addr| - 1;
    if ':' !in addr {
      Text.SplitFree(addr, ':');
    } else {
      assert addr == addr[..n] + [addr[n]];
      if addr[n] == ':' {
        Text.SplitConcat(addr[..n], "", ':');
        assert addr == addr[..n] + [':'] + "";
        if ':' !in addr[..n] { Text.SplitFree(addr[..n], ':'); }
      } else {
        SplitSnoc(addr[..n], addr[n], ':');
        DialHostKeepsColons(addr[..n]);
      }
    }
  }

  lemma {:induction false} SplitSnoc(s: string, c: char, sep: char)
    requires c != sep
    ensures |Text.Split(s + [c], sep)| == |Text.Split(s, sep)|
  {
    if s != "" {
      assert (s + [c])[1..] == s[1..] + [c];
      SplitSnoc(s[1..], c, sep);
    } else {
      assert s + [c] == [c];
    }
  }

  // ------------------------------------------------------------------ nodes

  datatype Role = Master | Replica(host: string, port: string) | Unknown

  datatype Pod = Pod(ip: string, running: bool)

  datatype Command = SlaveOf(target: string, host: string, port: string)

  function PodAddr(p: Pod): string { p.ip + ":" + "6379" }

  /** A pod that may be told to follow host. */
  predicate Other(p: Pod, host: string) { p.running && p.ip != "" && p.ip != host }

  ghost predicate ToOthers(commands: seq<Command>, pods: seq<Pod>, host: string, port: string) {
    forall c :: c in commands ==>
      c.host == host && c.port == port && exists p :: p in pods && Other(p, host) && c.target == PodAddr(p)
  }

  /** Nothing but the pointed-at role changes anywhere. */
  ghost predicate OnlyRepointed(before: map<string, Role>, after: map<string, Role>, commands: seq<Command>,
      host: string, port: string) {
    && after.Keys == before.Keys
    && forall a :: a in after ==>
         || after[a] == before[a]
         || (after[a] == Replica(host, port) && exists c :: c in commands && c.target == a)
  }

  lemma NothingRepointed(roles: map<string, Role>, host: string, port: string)
    ensures OnlyRepointed(roles, roles, [], host, port) && Strays(roles, [], host, port)
    ensures forall pods :: ToOthers([], pods, host, port)
  {
  }

  lemma OneMoreRepointed(before: map<string, Role>, mid: map<string, Role>, after: map<string, Role>,
                         commands: seq<Command>, more: seq<Command>, target: string, host: string, port: string)
    requires OnlyRepointed(before, mid, commands, host, port) && after.Keys == mid.Keys && commands <= more
    requires forall a :: a in after && after[a] != mid[a] ==>
      a == target && after[a] == Replica(host, port) && more == commands + [SlaveOf(target, host, port)]
    ensures OnlyRepointed(before, after, more, host, port)
  {
    forall a | a in after && after[a] != before[a]
      ensures after[a] == Replica(host, port) && exists c :: c in more && c.target == a
    {
      if after[a] != mid[a] {
        assert SlaveOf(target, host, port) in more;
      } else {
        var c :| c in commands && c.target == a;
        assert c in more;
      }
    }
  }

  class Fleet {
    /** What runs behind each address, and every SLAVEOF issued so far. */
    var roles: map<string, Role>
    var log: seq<Command>

    method SendSlaveOf(target: string, host: string, port: string, out: string -> Outcome)
      modifies this
      ensures log == old(log) + [SlaveOf(target, host, port)]
      ensures roles == if target in old(roles) && out(target) != Refused then old(roles)[target := Replica(host, port)]
        else old(roles)
    {
      log := log + [SlaveOf(target, host, port)];
      if target in roles && out(target) != Refused {
        roles := roles[target := Replica(host, port)];
      }
    }

    /** One pod of ensureReplicasFollowMaster: a master, or a replica of something else, is told
        to follow. */
    method Follow(p: Pod, host: string, port: string, readable: string -> bool, out: string -> Outcome)
      modifies this
      ensures log == old(log) || log == old(log) + [SlaveOf(PodAddr(p), host, port)]
      ensures log != old(log) ==>
        Other(p, host) && PodAddr(p) in old(roles) && old(roles)[PodAddr(p)] != Replica(host, port)
      ensures roles.Keys == old(roles).Keys
      ensures forall a :: a in roles && roles[a] != old(roles)[a] ==>
        a == PodAddr(p) && roles[a] == Replica(host, port) && log != old(log)
      ensures p.running && p.ip != "" && p.ip != host && PodAddr(p) in roles && old(roles)[PodAddr(p)] != Unknown
        && readable(PodAddr(p)) && out(PodAddr(p)) == Done
        ==> roles[PodAddr(p)] == Replica(host, port)
    {
      if !p.running || p.ip == "" || p.ip == host {
        return;
      }
      var addr := PodAddr(p);
      if addr !in roles || !readable(addr) {
        return;
      }
      match roles[addr]
      case Master => SendSlaveOf(addr, host, port, out);
      case Replica(h, q) =>
        if h != host || q != port {
          SendSlaveOf(addr, host, port, out);
        }
      case Unknown =>
    }

    /** ensureReplicasFollowMaster: commands go to other running pods that do not follow yet,
        and carry the given master; every such pod that answers and takes the command ends up following it. */
    method EnsureReplicasFollow(pods: seq<Pod>, host: string, port: string, readable: string -> bool,
        out: string -> Outcome)
      modifies this
      ensures old(log) <= log && ToOthers(log[|old(log)|..], pods, host, port)
      ensures Needed(old(roles), log[|old(log)|..], host, port)
      ensures OnlyRepointed(old(roles), roles, log[|old(log)|..], host, port)
      ensures Followed(old(roles), pods, host, port, readable, out)
    {
      for i := 0 to |pods|
        invariant old(log) <= log && ToOthers(log[|old(log)|..], pods, host, port)
        invariant Needed(old(roles), log[|old(log)|..], host, port)
        invariant OnlyRepointed(old(roles), roles, log[|old(log)|..], host, port)
        invariant Followed(old(roles), pods[..i], host, port, readable, out)
      {
        hide Other, PodAddr, OnlyRepointed;
        ghost var logged, before := log, roles;
        Follow(pods[i], host, port, readable, out);
        assert pods[..i + 1] == pods[..i] + [pods[i]];
        assert pods[i] in pods;
        assert log[|old(log)|..] == logged[|old(log)|..] + log[|logged|..];
        OneMoreRepointed(old(roles), before, roles, logged[|old(log)|..], log[|old(log)|..], PodAddr(pods[i]), host,
          port);
      }
      assert pods[..|pods|] == pods;
    }

    ghost predicate Followed(before: map<string, Role>, pods: seq<Pod>, host: string, port: string,
                             readable: string -> bool, out: string -> Outcome)
      reads this
    {
      forall p :: p in pods && p.running && p.ip != "" && p.ip != host
        && PodAddr(p) in roles && PodAddr(p) in before && before[PodAddr(p)] != Unknown
        && readable(PodAddr(p)) && out(PodAddr(p)) == Done
        ==> roles[PodAddr(p)] == Replica(host, port)
    }

    /** repointStrayReplicas: only replicas of something else are sent anything; whatever claims
        to be a master is left alone. */
    method RepointStrays(pods: seq<Pod>, masterAddr: string, readable: string -> bool, out: string -> Outcome)
      modifies this
      ensures
        var (host, port) := ParseHostPort(masterAddr);
        && old(log) <= log && (host == "" ==> log == old(log))
        && ToOthers(log[|old(log)|..], pods, host, port) && Strays(old(roles), log[|old(log)|..], host, port)
        && OnlyRepointed(old(roles), roles, log[|old(log)|..], host, port)
        && (host != "" ==> ReplicasFollow(old(roles), pods, host, port, readable, out))
    {
      var (host, port) := ParseHostPort(masterAddr);
      hide ParseHostPort, ReplicasFollow, OnlyRepointed, Strays, ToOthers;
      NothingRepointed(roles, host, port);
      assert log[|log|..] == [];
      if host != "" {
        RepointAll(pods, host, port, readable, out);
      }
    }

    /** Every pod in turn. */
    method RepointAll(pods: seq<Pod>, host: string, port: string, readable: string -> bool, out: string -> Outcome)
      modifies this
      ensures old(log) <= log && ToOthers(log[|old(log)|..], pods, host, port)
      ensures Strays(old(roles), log[|old(log)|..], host, port)
      ensures OnlyRepointed(old(roles), roles, log[|old(log)|..], host, port)
      ensures ReplicasFollow(old(roles), pods, host, port, readable, out)
    {
      for i := 0 to |pods|
        invariant old(log) <= log && ToOthers(log[|old(log)|..], pods, host, port)
        invariant Strays(old(roles), log[|old(log)|..], host, port)
        invariant OnlyRepointed(old(roles), roles, log[|old(log)|..], host, port)
        invariant forall a :: a in roles ==> (roles[a].Replica? <==> old(roles)[a].Replica?)
        invariant ReplicasFollow(old(roles), pods[..i], host, port, readable, out)
      {
        hide Other, PodAddr, OnlyRepointed;
        ghost var logged, mid := log, roles;
        Repoint(pods[i], host, port, readable, out);
        assert pods[..i + 1] == pods[..i] + [pods[i]];
        assert pods[i] in pods;
        assert log[|old(log)|..] == logged[|old(log)|..] + log[|logged|..];
        OneMoreRepointed(old(roles), mid, roles, logged[|old(log)|..], log[|old(log)|..], PodAddr(pods[i]), host, port);
      }
      assert pods[..|pods|] == pods;
    }

    ghost predicate ReplicasFollow(before: map<string, Role>, pods: seq<Pod>, host: string, port: string,
                                   readable: string -> bool, out: string -> Outcome)
      reads this
    {
      forall p :: p in pods && p.running && p.ip != "" && p.ip != host
        && PodAddr(p) in roles && PodAddr(p) in before && before[PodAddr(p)].Replica?
        && readable(PodAddr(p)) && out(PodAddr(p)) == Done
        ==> roles[PodAddr(p)] == Replica(host, port)
    }

    /** One pod of repointStrayReplicas. */
    method Repoint(p: Pod, host: string, port: string, readable: string -> bool, out: string -> Outcome)
      modifies this
      ensures log == old(log) || log == old(log) + [SlaveOf(PodAddr(p), host, port)]
      ensures log != old(log) ==>
        Other(p, host) && PodAddr(p) in old(roles) && old(roles)[PodAddr(p)].Replica? &&
          old(roles)[PodAddr(p)] != Replica(host, port)
      ensures roles.Keys == old(roles).Keys
      ensures forall a :: a in roles && roles[a] != old(roles)[a] ==>
        a == PodAddr(p) && roles[a] == Replica(host, port) && log != old(log)
      ensures p.running && p.ip != "" && p.ip != host && PodAddr(p) in roles && old(roles)[PodAddr(p)].Replica?
        && readable(PodAddr(p)) && out(PodAddr(p)) == Done
        ==> roles[PodAddr(p)] == Replica(host, port)
    {
      if !p.running || p.ip == "" || p.ip == host {
        return;
      }
      var addr := PodAddr(p);
      if addr !in roles || !readable(addr) || !roles[addr].Replica? {
        return;
      }
      if roles[addr].host == host && roles[addr].port == port {
        return;
      }
      SendSlaveOf(addr, host, port, out);
    }

    /** There is a former master, and its address names another host. */
    predicate Demoted(oldMaster: string, host: string) {
      oldMaster != "" && ParseHostPort(oldMaster).0 != "" && ParseHostPort(oldMaster).0 != host
    }

    /** The former master, if it is another host, is told to follow first. */
    method DemoteFormer(oldMaster: string, host: string, port: string, out: string -> Outcome)
      modifies this
      ensures log == old(log) + if Demoted(oldMaster, host) then [SlaveOf(FormerAddr(oldMaster), host, port)] else []
      ensures Demoted(oldMaster, host) && FormerAddr(oldMaster) in roles && out(FormerAddr(oldMaster)) == Done ==>
        roles[FormerAddr(oldMaster)] == Replica(host, port)
      ensures OnlyRepointed(old(roles), roles, log[|old(log)|..], host, port)
      ensures forall a :: a in roles && roles[a] == Unknown ==> old(roles)[a] == Unknown
    {
      if oldMaster != "" {
        var (oldHost, _) := ParseHostPort(oldMaster);
        if oldHost != "" && oldHost != host {
          var addr := FormerAddr(oldMaster);
          SendSlaveOf(addr, host, port, out);
          assert log[|old(log)|..] == [SlaveOf(addr, host, port)];
          assert SlaveOf(addr, host, port) in log[|old(log)|..] && SlaveOf(addr, host, port).target == addr;
        }
      }
    }

    /** handleFailover. Nothing is sent unless the quorum was healthy and the master Sentinel
        names now is the one that was detected; for a host:port master nothing is ever sent to
        its host. The former master is told first, exactly if it is another host, and follows in the
        end if it took the command; and the handling settles only after every other running pod was
        visited, each of which follows that master if it answered and took the command. */
    method HandleFailover(quorum: Option<bool>, current: Option<string>, pods: Option<seq<Pod>>,
                          oldMaster: string, newMaster: string, readable: string -> bool, out: string -> Outcome)
      returns (settled: bool)
      modifies this
      ensures old(log) <= log
      ensures log != old(log) || settled ==>
        quorum == Some(true) && current == Some(newMaster) && ParseHostPort(newMaster).0 != ""
      ensures forall c :: c in log[|old(log)|..] ==> (c.host, c.port) == ParseHostPort(newMaster)
      ensures quorum == Some(true) && current == Some(newMaster) && ParseHostPort(newMaster).0 != "" ==>
        var (host, port) := ParseHostPort(newMaster);
        var former := if ':' in oldMaster then oldMaster else oldMaster + ":6379";
        oldMaster != "" && ParseHostPort(oldMaster).0 != "" && ParseHostPort(oldMaster).0 != host ==>
          && |log| > |old(log)| && log[|old(log)|] == SlaveOf(former, host, port)
          && (former in roles && out(former) == Done ==> roles[former] == Replica(host, port))
      ensures forall host, port :: HostPort(host, port) && newMaster == host + ":" + port ==>
        forall c :: c in log[|old(log)|..] ==> c.host == host && c.port == port && DialHost(c.target) != host
      ensures settled <==>
        quorum == Some(true) && current == Some(newMaster) && ParseHostPort(newMaster).0 != "" && pods.Some?
      ensures settled ==>
        Followed(old(roles), pods.value, ParseHostPort(newMaster).0, ParseHostPort(newMaster).1, readable, out)
    {
      settled := false;
      if quorum != Some(true) || current != Some(newMaster) {
        return;
      }
      var (host, port) := ParseHostPort(newMaster);
      if host == "" {
        return;
      }
      DemoteFormer(oldMaster, host, port, out);
      ghost var logged, before := log, roles;
      if pods.Some? {
        EnsureReplicasFollow(pods.value, host, port, readable, out);
        settled := true;
      }
      ghost var sent := log[|old(log)|..];
      assert sent == logged[|old(log)|..] + log[|logged|..];
      forall c | c in sent && ':' !in host ensures c.host == host && c.port == port && DialHost(c.target) != host {
        TargetsAreOthers(c.target, oldMaster, host);
      }
      forall h, p | HostPort(h, p) && newMaster == h + ":" + p ensures h == host && p == port {
        ParsesExactlyWhen(h, p);
      }
    }
  }

  /** The address the former master is dialled at. */
  function FormerAddr(oldMaster: string): string {
    if ':' in oldMaster then oldMaster else oldMaster + ":" + "6379"
  }

  /** Nobody that follows already is told again. */
  ghost predicate Needed(before: map<string, Role>, commands: seq<Command>, host: string, port: string) {
    forall c :: c in commands ==> c.target in before && before[c.target] != Replica(host, port)
  }

  ghost predicate Strays(before: map<string, Role>, commands: seq<Command>, host: string, port: string) {
    forall c :: c in commands ==>
      c.target in before && before[c.target].Replica? && before[c.target] != Replica(host, port)
  }

  lemma PodIsDialledByIp(p: Pod)
    ensures DialHost(PodAddr(p)) == p.ip
  {
    DialHostOf(p.ip, "6379");
  }

  /** However the former master's address is written, it is not dialled at the new master's host. */
  lemma FormerIsElsewhere(oldMaster: string, host: string)
    requires oldMaster != "" && ParseHostPort(oldMaster).0 != host && ':' !in host
    ensures DialHost(FormerAddr(oldMaster)) != host
  {
    if ':' !in oldMaster {
      DialHostOf(oldMaster, "6379");
    } else {
      var parts := Text.Split(oldMaster, ':');
      SplitCuts(oldMaster, ':');
      if |parts| == 2 {
        Text.JoinSplit(oldMaster, ':');
        Text.SplitIsFree(oldMaster, ':');
        assert parts[1..][0] == parts[1];
        assert Text.Join(parts[1..], ':') == parts[1];
        assert oldMaster == parts[0] + ":" + parts[1];
        DialHostOf(parts[0], parts[1]);
      } else {
        DialHostKeepsColons(oldMaster);
      }
    }
  }

  lemma TargetsAreOthers(target: string, oldMaster: string, host: string)
    requires ':' !in host
    requires (exists p :: Other(p, host) && target == PodAddr(p))
      || (target == FormerAddr(oldMaster) && oldMaster != "" && ParseHostPort(oldMaster).0 != host)
    ensures DialHost(target) != host
  {
    hide ParseHostPort, DialHost, FormerAddr, PodAddr;
    if p :| Other(p, host) && target == PodAddr(p) {
      PodIsDialledByIp(p);
    } else {
      FormerIsElsewhere(oldMaster, host);
    }
  }
}
