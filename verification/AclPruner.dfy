/** One prune pass, loop by loop, on nodes that may be unreachable or refuse a command. */
module AclPruner {
  import Text
  import opened AclPrune
  import opened Commands

  datatype Failure = NotDeleted(username: string, addr: string) | NotSaved(failedAddr: string)

  /** The pass issues ACL DELUSER u at addr. */
  predicate Target(held: map<string, set<string>>, orphans: seq<string>, addr: string, u: string) {
    addr in held && u in held[addr] && u in orphans
  }

  /** What the deletions leave of a node's accounts. */
  function Left(before: set<string>, held: map<string, set<string>>, orphans: seq<string>, addr: string,
                del: (string, string) -> Outcome): set<string> {
    set u | u in before && !(Target(held, orphans, addr, u) && del(addr, u) != Refused)
  }

  /** The accounts a pass saw leave the node. */
  function Removed(held: map<string, set<string>>, orphans: seq<string>, addr: string,
                   del: (string, string) -> Outcome): set<string> {
    if addr in held then set u | u in held[addr] && u in orphans && del(addr, u) == Done else {}
  }

  function After(before: map<string, set<string>>, addrs: seq<string>, held: map<string, set<string>>,
                 orphans: seq<string>, del: (string, string) -> Outcome, addr: string): set<string>
    requires addr in before
  {
    if addr in addrs then Left(before[addr], held, orphans, addr, del) else before[addr]
  }

  lemma LeftTwice(before: set<string>, held: map<string, set<string>>, orphans: seq<string>, addr: string,
                  del: (string, string) -> Outcome)
    ensures
      var left := Left(before, held, orphans, addr, del);
      Left(left, held, orphans, addr, del) == left
  {
  }

  lemma NothingToStrike(before: map<string, set<string>>, addrs: seq<string>, held: map<string, set<string>>,
                        del: (string, string) -> Outcome)
    ensures forall a :: a in before ==> After(before, addrs, held, [], del, a) == before[a]
  {
  }

  /** Every deletion on the node was done, and saved if there was one. */
  ghost predicate Clean(held: map<string, set<string>>, orphans: seq<string>, addr: string,
                        del: (string, string) -> Outcome, save: string -> bool) {
    && (forall u :: Target(held, orphans, addr, u) ==> del(addr, u) == Done)
    && (save(addr) || forall u :: !Target(held, orphans, addr, u))
  }

  /** The pass issues ACL DELUSER u at addr, if the node holds it. */
  predicate Strikes(addrs: seq<string>, reachable: set<string>, readable: bool, listable: bool, orphans: set<string>,
                    addr: string, u: string) {
    readable && listable && addr in addrs && addr in reachable && u in orphans
  }

  /** Every orphan the node held was deleted, and saved if there was one. */
  ghost predicate Settled(before: set<string>, orphans: set<string>, addr: string,
                          del: (string, string) -> Outcome, save: string -> bool) {
    && (forall u :: u in before && u in orphans ==> del(addr, u) == Done)
    && (save(addr) || before !! orphans)
  }

  /** What a pass leaves, in terms of what it was given. */
  ghost predicate Struck(before: map<string, set<string>>, after: map<string, set<string>>, addrs: seq<string>,
                         reachable: set<string>, readable: bool, listable: bool, orphans: set<string>,
                         del: (string, string) -> Outcome)
  {
    && after.Keys == before.Keys
    && forall a, u :: a in after ==>
         (u in after[a] <==>
           u in before[a] && !(Strikes(addrs, reachable, readable, listable, orphans, a, u) && del(a, u) != Refused))
  }

  lemma StruckAfter(before: map<string, set<string>>, after: map<string, set<string>>, addrs: seq<string>,
                    reachable: set<string>, held: map<string, set<string>>, names: seq<string>, orphans: set<string>,
                    del: (string, string) -> Outcome)
    requires after.Keys == before.Keys && forall a :: a in after ==>
      after[a] == After(before, addrs, held, names, del, a)
    requires forall a :: a in addrs ==> a in before
    requires forall a :: a in held <==> a in addrs && a in reachable
    requires forall a :: a in held ==> held[a] == before[a]
    requires forall u :: u in names <==> u in orphans
    ensures Struck(before, after, addrs, reachable, true, true, orphans, del)
  {
  }

  lemma NobodyIsLeft(before: map<string, set<string>>, after: map<string, set<string>>, addrs: seq<string>,
                     reachable: set<string>, orphans: set<string>, del: (string, string) -> Outcome,
                     save: string -> bool)
    requires Struck(before, after, addrs, reachable, true, true, orphans, del) && forall a :: a in addrs ==> a in before
    requires forall a :: a in addrs ==> a in reachable && Settled(before[a], orphans, a, del, save)
    ensures forall a :: a in addrs ==> after[a] !! orphans
  {
  }

  lemma CleanIsSettled(held: map<string, set<string>>, orphans: seq<string>, orphanSet: set<string>, addr: string,
                       del: (string, string) -> Outcome, save: string -> bool)
    requires addr in held && forall u :: u in orphans <==> u in orphanSet
    ensures Clean(held, orphans, addr, del, save) <==> Settled(held[addr], orphanSet, addr, del, save)
  {
    assert forall u :: Target(held, orphans, addr, u) <==> u in held[addr] && u in orphanSet;
  }

  /** Whatever happened on the others: the aclfile of every node a removal was done on restores
      what the node holds now, if it could be saved. */
  ghost predicate Saved(accounts: map<string, set<string>>, aclfiles: map<string, set<string>>, addrs: seq<string>,
                        pruned: map<string, set<string>>, save: string -> bool) {
    forall a :: a in addrs && a in pruned && pruned[a] != {} && save(a) ==>
      a in aclfiles && a in accounts && aclfiles[a] == accounts[a]
  }

  lemma NothingToSave(accounts: map<string, set<string>>, aclfiles: map<string, set<string>>,
                      pruned: map<string, set<string>>, save: string -> bool)
    ensures Saved(accounts, aclfiles, [], pruned, save)
  {
  }

  lemma OneMoreSaved(accounts: map<string, set<string>>, aclfiles: map<string, set<string>>,
                     accounts': map<string, set<string>>, aclfiles': map<string, set<string>>, addrs: seq<string>,
                     addr: string, pruned: map<string, set<string>>, gone: set<string>, save: string -> bool)
    requires Saved(accounts, aclfiles, addrs, pruned, save)
    requires forall a :: a != addr && a in accounts ==> a in accounts' && accounts'[a] == accounts[a]
    requires forall a :: a != addr && a in aclfiles ==> a in aclfiles' && aclfiles'[a] == aclfiles[a]
    requires gone != {} && save(addr) ==> addr in aclfiles' && addr in accounts' && aclfiles'[addr] == accounts'[addr]
    ensures Saved(accounts', aclfiles', addrs + [addr], pruned[addr := gone], save)
  {
  }

  lemma CompleteWhenSettled(addrs: seq<string>, reachable: set<string>, held: map<string, set<string>>,
                            before: map<string, set<string>>, orphans: seq<string>, orphanSet: set<string>,
                            del: (string, string) -> Outcome, save: string -> bool)
    requires forall a :: a in addrs ==> a in before
    requires forall a :: a in held <==> a in addrs && a in reachable
    requires forall a :: a in held ==> held[a] == before[a]
    requires forall u :: u in orphans <==> u in orphanSet
    ensures (forall a :: a in addrs ==> a in reachable && Clean(held, orphans, a, del, save)) <==>
      (forall a :: a in addrs ==> a in reachable && Settled(before[a], orphanSet, a, del, save))
  {
    forall a | a in addrs && a in reachable
      ensures Clean(held, orphans, a, del, save) <==> Settled(before[a], orphanSet, a, del, save)
    {
      CleanIsSettled(held, orphans, orphanSet, a, del, save);
    }
    hide Clean, Settled;
  }

  /** The steps of a pass in the protocol of AclPrune. */
  predicate OfPrune(a: Action) {
    a.PruneRead? || a.PruneEnumerate? || a.PruneList? || a.PruneDelete? || a.PruneForget? || a.PruneEnd?
  }

  ghost predicate OnlyPrune(acts: seq<Action>, from: nat) {
    forall i :: from <= i < |acts| ==> OfPrune(acts[i])
  }

  lemma OnlyPruneNow(acts: seq<Action>)
    ensures OnlyPrune(acts, |acts|)
  {
  }

  lemma OnlyPruneMore(mid: seq<Action>, acts: seq<Action>, from: nat)
    requires from <= |mid| && mid <= acts && OnlyPrune(mid, from) && OnlyPrune(acts, |mid|)
    ensures OnlyPrune(acts, from)
  {
    assert forall i :: 0 <= i < |mid| ==> mid[i] == acts[i];
  }

  /** What the history ends in. */
  ghost predicate EndsIn(ws: seq<World>, acts: seq<Action>, users: map<string, Declaration>,
                         record: map<string, string>, accounts: map<string, set<string>>, pass: PrunePass) {
    && |ws| == |acts| + 1 && IsRun(ws, acts)
    && ws[|acts|].users == users && ws[|acts|].record == record
    && ws[|acts|].accounts == accounts && ws[|acts|].prune == pass
  }

  lemma DeleteLogged(ws: seq<World>, acts: seq<Action>, users: map<string, Declaration>, record: map<string, string>,
                     accounts: map<string, set<string>>, owners: map<string, string>, held: map<string, set<string>>,
                     declared: set<string>, u: string, addr: string, effect: bool)
    returns (ws': seq<World>, acts': seq<Action>)
    requires EndsIn(ws, acts, users, record, accounts, Deleting(owners, held, declared))
    requires addr in held && addr in accounts && u in held[addr] && u in Orphans(owners, declared)
    ensures EndsIn(ws', acts', users, record, if effect then accounts[addr := accounts[addr] - {u}] else accounts,
                   Deleting(owners, held, declared))
    ensures acts' == acts + [PruneDelete(u, addr, effect)]
  {
    hide Orphans, DeclaredNames;
    ws', acts' := Extend(ws, acts, PruneDelete(u, addr, effect));
    hide IsRun;
  }

  lemma EnumerateLogged(ws: seq<World>, acts: seq<Action>, users: map<string, Declaration>, record: map<string, string>,
                        accounts: map<string, set<string>>, owners: map<string, string>,
                        held: map<string, set<string>>, addr: string)
    returns (ws': seq<World>, acts': seq<Action>)
    requires EndsIn(ws, acts, users, record, accounts, Enumerating(owners, held)) && addr in accounts
    ensures EndsIn(ws', acts', users, record, accounts, Enumerating(owners, held[addr := accounts[addr]]))
    ensures acts' == acts + [PruneEnumerate(addr)]
  {
    hide Orphans, DeclaredNames;
    ws', acts' := Extend(ws, acts, PruneEnumerate(addr));
    hide IsRun;
  }

  lemma ReadLogged(ws: seq<World>, acts: seq<Action>, users: map<string, Declaration>, record: map<string, string>,
                   accounts: map<string, set<string>>)
    returns (ws': seq<World>, acts': seq<Action>)
    requires EndsIn(ws, acts, users, record, accounts, Idle)
    ensures EndsIn(ws', acts', users, record, accounts, Enumerating(record, map[])) && acts' == acts + [PruneRead]
  {
    hide Orphans, DeclaredNames;
    ws', acts' := Extend(ws, acts, PruneRead);
    hide IsRun;
  }

  lemma ListLogged(ws: seq<World>, acts: seq<Action>, users: map<string, Declaration>, record: map<string, string>,
                   accounts: map<string, set<string>>, owners: map<string, string>, held: map<string, set<string>>)
    returns (ws': seq<World>, acts': seq<Action>)
    requires EndsIn(ws, acts, users, record, accounts, Enumerating(owners, held))
    ensures EndsIn(ws', acts', users, record, accounts, Deleting(owners, held, DeclaredNames(users))) &&
      acts' == acts + [PruneList]
  {
    hide Orphans, DeclaredNames;
    ws', acts' := Extend(ws, acts, PruneList);
    hide IsRun;
  }

  /** The end of a pass: the orphans leave the record, or the record stays. */
  lemma EndLogged(ws: seq<World>, acts: seq<Action>, users: map<string, Declaration>, record: map<string, string>,
                  accounts: map<string, set<string>>, pass: PrunePass, forget: bool)
    returns (ws': seq<World>, acts': seq<Action>)
    requires EndsIn(ws, acts, users, record, accounts, pass) && (forget ==> pass.Deleting?)
    ensures
      var left := if forget then record - Orphans(pass.record, pass.declared) else record;
      EndsIn(ws', acts', users, left, accounts, Idle)
    ensures acts' == acts + [if forget then PruneForget else PruneEnd]
  {
    hide Orphans, DeclaredNames;
    ws', acts' := Extend(ws, acts, if forget then PruneForget else PruneEnd);
    hide IsRun;
  }

  /** The pass in flight is about these nodes and these names. */
  ghost predicate Covers(pass: PrunePass, held: map<string, set<string>>, orphans: seq<string>) {
    pass.Deleting? && pass.held == held && forall u :: u in orphans ==> u in Orphans(pass.record, pass.declared)
  }

  class Cluster {
    /** The accounts each node holds, and the ones its aclfile would restore. */
    var accounts: map<string, set<string>>
    var aclfiles: map<string, set<string>>
    var record: map<string, string>
    var users: map<string, Declaration>
    ghost var ws: seq<World>
    ghost var acts: seq<Action>

    /** The history is a run of the protocol that has led to where things are, with a pass at
        this point. */
    ghost predicate At(pass: PrunePass)
      reads this`accounts, this`record, this`users, this`ws, this`acts
    {
      EndsIn(ws, acts, users, record, accounts, pass)
    }

    constructor (accounts: map<string, set<string>>, record: map<string, string>, users: map<string, Declaration>)
      ensures At(Idle) && acts == []
      ensures this.accounts == accounts && this.record == record && this.users == users
    {
      this.accounts, aclfiles, this.record, this.users := accounts, accounts, record, users;
      ws, acts := [World(users, record, accounts, map[], Idle)], [];
    }

    /** enumerateACLAccounts: a node that cannot be read is reported, not taken for empty. */
    method Enumerate(addrs: seq<string>, reachable: set<string>)
      returns (held: map<string, set<string>>, unreached: seq<string>)
      requires At(Enumerating(record, map[])) && forall a :: a in addrs ==> a in accounts
      modifies this`ws, this`acts
      ensures At(Enumerating(record, held)) && old(acts) <= acts && OnlyPrune(acts, |old(acts)|)
      ensures forall a :: a in held <==> a in addrs && a in reachable
      ensures forall a :: a in held ==> a in accounts && held[a] == accounts[a]
      ensures forall a :: a in unreached <==> a in addrs && a !in reachable
    {
      hide EndsIn;
      held, unreached := map[], [];
      for i := 0 to |addrs|
        invariant At(Enumerating(record, held)) && old(acts) <= acts && OnlyPrune(acts, |old(acts)|)
        invariant forall a :: a in held <==> a in addrs[..i] && a in reachable
        invariant forall a :: a in held ==> a in accounts && held[a] == accounts[a]
        invariant forall a :: a in unreached <==> a in addrs[..i] && a !in reachable
      {
        var addr := addrs[i];
        assert addrs[..i + 1] == addrs[..i] + [addr];
        if addr in reachable {
          ws, acts := EnumerateLogged(ws, acts, users, record, accounts, record, held, addr);
          held := held[addr := accounts[addr]];
        } else {
          unreached := unreached + [addr];
        }
      }
      assert addrs[..|addrs|] == addrs;
    }

    /** The recorded names the operator may remove and no RedisUser declares, in order. */
    method FindOrphans(owners: map<string, string>, declared: set<string>) returns (orphans: seq<string>)
      ensures Text.SortedBy(orphans, Text.Leq)
      ensures forall u :: u in orphans <==> u in Orphans(owners, declared)
      ensures forall i, j :: 0 <= i < j < |orphans| ==> orphans[i] != orphans[j]
    {
      var found: seq<string> := [];
      var todo := owners.Keys;
      while todo != {}
        invariant todo <= owners.Keys
        invariant forall u :: u in found <==> u in Orphans(owners, declared) && u !in todo
        invariant forall i, j :: 0 <= i < j < |found| ==> found[i] != found[j]
      {
        var u :| u in todo;
        if ValidUsername(u) && u !in declared {
          found := found + [u];
        }
        todo := todo - {u};
      }
      orphans := Text.Sort(found, Text.Leq);
      Text.LeqIsTotalOrder();
      Text.SortSorts(found, Text.Leq);
      SameElements(found, orphans);
    }

    /** The deletions on one node. */
    method DeleteOn(addr: string, held: map<string, set<string>>, orphans: seq<string>,
                    del: (string, string) -> Outcome, ghost pass: PrunePass)
      returns (gone: seq<string>, failures: seq<Failure>)
      requires addr in accounts && addr in held
      requires At(pass) && Covers(pass, held, orphans)
      modifies this`accounts, this`ws, this`acts
      ensures At(pass) && old(acts) <= acts && OnlyPrune(acts, |old(acts)|)
      ensures accounts == old(accounts)[addr := Left(old(accounts)[addr], held, orphans, addr, del)]
      ensures forall u :: u in gone <==> Target(held, orphans, addr, u) && del(addr, u) == Done
      ensures forall f :: f in failures <==>
        f.NotDeleted? && f.addr == addr && Target(held, orphans, addr, f.username) && del(addr, f.username) != Done
    {
      hide EndsIn;
      gone, failures := [], [];
      for i := 0 to |orphans|
        invariant At(pass) && old(acts) <= acts && OnlyPrune(acts, |old(acts)|)
        invariant addr in accounts
        invariant accounts == old(accounts)[addr := accounts[addr]]
        invariant accounts[addr] == Left(old(accounts)[addr], held, orphans[..i], addr, del)
        invariant forall u :: u in gone <==> Target(held, orphans[..i], addr, u) && del(addr, u) == Done
        invariant forall f :: f in failures <==>
          f.NotDeleted? && f.addr == addr && Target(held, orphans[..i], addr, f.username) &&
            del(addr, f.username) != Done
      {
        var u := orphans[i];
        assert orphans[..i + 1] == orphans[..i] + [u];
        if u in held[addr] {
          ws, acts := DeleteLogged(ws, acts, users, record, accounts, pass.record, held, pass.declared, u, addr,
            del(addr, u) != Refused);
          if del(addr, u) != Refused {
            accounts := accounts[addr := accounts[addr] - {u}];
          }
          if del(addr, u) == Done {
            gone := gone + [u];
          } else {
            failures := failures + [NotDeleted(u, addr)];
          }
        }
      }
      assert orphans[..|orphans|] == orphans;
    }

    /** One node: the deletions, and its aclfile saved if a removal was done. */
    method PruneNode(addr: string, held: map<string, set<string>>, orphans: seq<string>,
                     del: (string, string) -> Outcome, save: string -> bool, ghost pass: PrunePass)
      returns (gone: set<string>, failures: seq<Failure>)
      requires addr in accounts && At(pass) && Covers(pass, held, orphans)
      modifies this`accounts, this`aclfiles, this`ws, this`acts
      ensures At(pass) && old(acts) <= acts && OnlyPrune(acts, |old(acts)|)
      ensures accounts == old(accounts)[addr := Left(old(accounts)[addr], held, orphans, addr, del)]
      ensures gone == Removed(held, orphans, addr, del)
      ensures failures == [] <==> Clean(held, orphans, addr, del, save)
      ensures aclfiles == old(aclfiles) || aclfiles == old(aclfiles)[addr := accounts[addr]]
      ensures gone != {} && save(addr) ==> addr in aclfiles && aclfiles[addr] == accounts[addr]
    {
      gone, failures := {}, [];
      if addr in held {
        var names, failed := DeleteOn(addr, held, orphans, del, pass);
        gone, failures := (set u | u in names), failed;
        assert gone == Removed(held, orphans, addr, del);
        assert failed == [] <==> forall u :: Target(held, orphans, addr, u) ==> del(addr, u) == Done by {
          if u :| Target(held, orphans, addr, u) && del(addr, u) != Done {
            assert NotDeleted(u, addr) in failed;
          }
          if failed != [] {
            assert failed[0] in failed;
          }
        }
        if names != [] {
          assert names[0] in gone;
          if save(addr) {
            aclfiles := aclfiles[addr := accounts[addr]];
          } else {
            failures := failures + [NotSaved(addr)];
          }
        }
      } else {
        assert Left(accounts[addr], held, orphans, addr, del) == accounts[addr];
      }
    }

    /** deleteACLAccounts: the deletions on every enumerated node, each node's aclfile saved after
        the removals it took. */
    method DeleteAccounts(addrs: seq<string>, held: map<string, set<string>>, orphans: seq<string>,
                          del: (string, string) -> Outcome, save: string -> bool, ghost pass: PrunePass)
      returns (pruned: map<string, set<string>>, failures: seq<Failure>)
      requires At(pass) && Covers(pass, held, orphans) && forall a :: a in addrs ==> a in accounts
      modifies this`accounts, this`aclfiles, this`ws, this`acts
      ensures At(pass) && old(acts) <= acts && OnlyPrune(acts, |old(acts)|)
      ensures accounts.Keys == old(accounts).Keys
      ensures forall a :: a in accounts ==> accounts[a] == After(old(accounts), addrs, held, orphans, del, a)
      ensures forall a :: a in addrs ==> a in pruned && pruned[a] == Removed(held, orphans, a, del)
      ensures failures == [] <==> forall a :: a in addrs ==> Clean(held, orphans, a, del, save)
      ensures Saved(accounts, aclfiles, addrs, pruned, save)
    {
      hide Left, Removed, Clean, EndsIn, Covers, At, OnlyPrune, Saved;
      pruned, failures := map[], [];
      NothingToSave(accounts, aclfiles, pruned, save);
      OnlyPruneNow(acts);
      for i := 0 to |addrs|
        invariant accounts.Keys == old(accounts).Keys
        invariant forall a :: a in accounts ==> accounts[a] == After(old(accounts), addrs[..i], held, orphans, del, a)
        invariant forall a :: a in addrs[..i] ==> a in pruned && pruned[a] == Removed(held, orphans, a, del)
        invariant failures == [] <==> forall a :: a in addrs[..i] ==> Clean(held, orphans, a, del, save)
        invariant Saved(accounts, aclfiles, addrs[..i], pruned, save)
        invariant At(pass) && old(acts) <= acts && OnlyPrune(acts, |old(acts)|)
      {
        assert addrs[..i + 1] == addrs[..i] + [addrs[i]];
        LeftTwice(old(accounts)[addrs[i]], held, orphans, addrs[i], del);
        ghost var mid, left, files := acts, accounts, aclfiles;
        var gone, failed := PruneNode(addrs[i], held, orphans, del, save, pass);
        OnlyPruneMore(mid, acts, |old(acts)|);
        OneMoreSaved(left, files, accounts, aclfiles, addrs[..i], addrs[i], pruned, gone, save);
        pruned := pruned[addrs[i] := gone];
        failures := failures + failed;
      }
      assert addrs[..|addrs|] == addrs;
    }

    /** pruneOrphanedACLUsers, with nothing else moving. Every recorded, valid, undeclared name is
        taken off every node that was enumerated and took the command, and nothing else is. The
        pass is complete exactly when every node was reached, every deletion was done and saved,
        and the spec's replicas were all covered; then none of the names is left on any of those
        nodes, and they leave the record unless that write fails. The pass is a run of AclPrune. */
    method Prune(addrs: seq<string>, readable: bool, listable: bool, reachable: set<string>,
                 del: (string, string) -> Outcome, save: string -> bool, drop: Outcome, replicas: int)
      returns (complete: bool)
      requires At(Idle) && forall a :: a in addrs ==> a in accounts
      modifies this
      ensures At(Idle) && old(acts) <= acts && OnlyPrune(acts, |old(acts)|) && users == old(users)
      ensures
        var orphans := Orphans(old(record), DeclaredNames(users));
        && Struck(old(accounts), accounts, addrs, reachable, readable, listable, orphans, del)
        && record == (if complete && drop != Refused then old(record) - orphans else old(record))
        && (complete <==>
              && readable && listable && addrs != [] && orphans != {} && |addrs| >= replicas
              && forall a :: a in addrs ==> a in reachable && Settled(old(accounts)[a], orphans, a, del, save))
        && (complete ==> forall a :: a in addrs ==> accounts[a] !! orphans)
    {
      complete := false;
      if !readable || record == map[] || addrs == [] {
        return;
      }
      hide EndsIn, Settled, Clean, After, Orphans, DeclaredNames;
      var held, unreached := Look(addrs, reachable);
      if !listable {
        ws, acts := EndLogged(ws, acts, users, record, accounts, Enumerating(record, held), false);
        return;
      }
      ghost var names, orphans := [], Orphans(record, DeclaredNames(users));
      ghost var mid := acts;
      complete, names := Strike(addrs, held, unreached, del, save, drop, replicas);
      OnlyPruneMore(mid, acts, |old(acts)|);
      hide OnlyPrune;
      StruckAfter(old(accounts), accounts, addrs, reachable, held, names, orphans, del);
      CompleteWhenSettled(addrs, reachable, held, old(accounts), names, orphans, del, save);
      hide Struck;
      if complete {
        NobodyIsLeft(old(accounts), accounts, addrs, reachable, orphans, del, save);
      }
    }

    /** The record read, and the nodes enumerated. */
    method Look(addrs: seq<string>, reachable: set<string>)
      returns (held: map<string, set<string>>, unreached: seq<string>)
      requires At(Idle) && forall a :: a in addrs ==> a in accounts
      modifies this`ws, this`acts
      ensures At(Enumerating(record, held)) && old(acts) <= acts && OnlyPrune(acts, |old(acts)|)
      ensures forall a :: a in held <==> a in addrs && a in reachable
      ensures forall a :: a in held ==> a in accounts && held[a] == accounts[a]
      ensures unreached == [] <==> forall a :: a in addrs ==> a in reachable
    {
      hide EndsIn;
      ws, acts := ReadLogged(ws, acts, users, record, accounts);
      held, unreached := Enumerate(addrs, reachable);
      if unreached != [] { assert unreached[0] in unreached; }
    }

    /** The pass from its List on. */
    method Strike(addrs: seq<string>, held: map<string, set<string>>, unreached: seq<string>,
                  del: (string, string) -> Outcome, save: string -> bool, drop: Outcome, replicas: int)
      returns (complete: bool, ghost names: seq<string>)
      requires At(Enumerating(record, held)) && forall a :: a in addrs ==> a in accounts
      modifies this
      ensures At(Idle) && old(acts) <= acts && OnlyPrune(acts, |old(acts)|)
      ensures accounts.Keys == old(accounts).Keys && users == old(users)
      ensures
        var orphans := Orphans(old(record), DeclaredNames(users));
        && (forall u :: u in names <==> u in orphans)
        && (forall a :: a in accounts ==> accounts[a] == After(old(accounts), addrs, held, names, del, a))
        && record == (if complete && drop != Refused then old(record) - orphans else old(record))
        && (complete <==>
              orphans != {} && |addrs| >= replicas && unreached == [] && forall a :: a in addrs ==>
                Clean(held, names, a, del, save))
    {
      hide EndsIn, DeclaredNames, Orphans, Clean, Removed, After;
      ghost var pass := Deleting(record, held, DeclaredNames(users));
      ws, acts := ListLogged(ws, acts, users, record, accounts, record, held);
      var orphans := FindOrphans(record, DeclaredNames(users));
      names := orphans;
      complete := false;
      if orphans != [] {
        assert orphans[0] in orphans;
        var pruned, failures := DeleteAccounts(addrs, held, orphans, del, save, pass);
        complete := unreached == [] && failures == [] && |addrs| >= replicas;
      } else {
        NothingToStrike(accounts, addrs, held, del);
      }
      Close(orphans, complete && drop != Refused, pass);
    }

    /** removeACLOwners, where there is cause to and it does not fail. */
    method Close(orphans: seq<string>, forget: bool, ghost pass: PrunePass)
      requires At(pass) && pass.Deleting? && forall u :: u in orphans <==> u in Orphans(pass.record, pass.declared)
      modifies this`record, this`ws, this`acts
      ensures At(Idle) && old(acts) <= acts && OnlyPrune(acts, |old(acts)|)
      ensures record == if forget then old(record) - Orphans(pass.record, pass.declared) else old(record)
    {
      hide EndsIn, DeclaredNames, Orphans;
      ws, acts := EndLogged(ws, acts, users, record, accounts, pass, forget);
      if forget {
        assert (set u | u in orphans) == Orphans(pass.record, pass.declared);
        record := record - set u | u in orphans;
      }
    }
  }

  lemma SameElements(xs: seq<string>, ys: seq<string>)
    requires multiset(xs) == multiset(ys)
    requires forall i, j :: 0 <= i < j < |xs| ==> xs[i] != xs[j]
    ensures forall u :: u in xs <==> u in ys
    ensures forall i, j :: 0 <= i < j < |ys| ==> ys[i] != ys[j]
  {
    forall u ensures u in xs <==> u in ys {
      assert u in xs <==> u in multiset(xs);
      assert u in ys <==> u in multiset(ys);
    }
    forall i, j | 0 <= i < j < |ys| ensures ys[i] != ys[j] {
      if ys[i] == ys[j] {
        assert ys == ys[..j] + [ys[j]] + ys[j + 1..];
        assert ys[i] in ys[..j];
        assert multiset(ys)[ys[j]] >= 2;
        Once(xs, ys[j]);
      }
    }
  }

  lemma {:induction false} Once(xs: seq<string>, u: string)
    requires forall i, j :: 0 <= i < j < |xs| ==> xs[i] != xs[j]
    ensures multiset(xs)[u] <= 1
  {
    if xs != [] {
      var rest := xs[..|xs| - 1];
      assert xs == rest + [xs[|xs| - 1]];
      Once(rest, u);
      if u == xs[|xs| - 1] {
        assert u !in rest;
        assert u !in multiset(rest);
      }
    }
  }
}
