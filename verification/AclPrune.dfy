/** The prune pass over operator-created ACL accounts, interleaved with the user controller:
    every step of either may be separated from the next by any step of the other, by edits of
    RedisUsers, by administrators and by node restarts.
 */
module AclPrune {

  predicate Alphanumeric(c: char) { 'a' <= c <= 'z' || 'A' <= c <= 'Z' || '0' <= c <= '9' }

  /** validateUsername */
  predicate ValidUsername(u: string) {
    && u != "default"
    && u != "" && Alphanumeric(u[0])
    && (forall i :: 0 <= i < |u| ==> Alphanumeric(u[i]) || u[i] == '.' || u[i] == '_' || u[i] == '-')
  }

  // ------------------------------------------------------------------ state

  /** A RedisUser: the name it declares on this cluster, if it refers to it. */
  datatype Declaration = Declares(username: string) | Elsewhere

  /** A reconcile of one RedisUser, working from the spec it read. */
  datatype UserPass = Applying(username: string, recorded: bool) | Removing(username: string)

  datatype PrunePass =
    | Idle
    | Enumerating(record: map<string, string>, held: map<string, set<string>>)
    | Deleting(record: map<string, string>, held: map<string, set<string>>, declared: set<string>)

  datatype World = World(
    users: map<string, Declaration>,
    record: map<string, string>,
    accounts: map<string, set<string>>,
    passes: map<string, UserPass>,
    prune: PrunePass)

  datatype Action =
    // owners of RedisUsers, administrators and nodes
    | WriteUser(owner: string, declaration: Declaration)
    | DropUser(owner: string)
    | EditRecord(edited: map<string, string>)
    | NodeAccounts(node: string, names: set<string>)
    // the user controller
    | UserStart(owner: string)
    | UserRecord(owner: string)
    | UserApply(owner: string, node: string)
    | UserRemoveStart(owner: string)
    | UserRemove(owner: string, node: string)
    | UserForget(owner: string)
    | UserEnd(owner: string)
    // the prune pass
    | PruneRead
    | PruneEnumerate(node: string)
    | PruneList
    | PruneDelete(username: string, node: string, effect: bool)
    | PruneForget
    | PruneEnd

  predicate DeclaredBy(w: World, owner: string, u: string) {
    owner in w.users && w.users[owner] == Declares(u)
  }

  /** The names some RedisUser declares. */
  function DeclaredNames(users: map<string, Declaration>): set<string> {
    set owner | owner in users && users[owner].Declares? :: users[owner].username
  }

  lemma ListedExactlyWhenDeclared(w: World, u: string)
    ensures u !in DeclaredNames(w.users) <==> forall owner :: !DeclaredBy(w, owner, u)
  {
    if owner :| DeclaredBy(w, owner, u) {
      assert w.users[owner].username == u;
    }
    if u in DeclaredNames(w.users) {
      var owner :| owner in w.users && w.users[owner].Declares? && w.users[owner].username == u;
      assert DeclaredBy(w, owner, u);
    }
  }

  function Orphans(record: map<string, string>, declared: set<string>): set<string> {
    set u | u in record && ValidUsername(u) && u !in declared
  }

  predicate Enabled(w: World, a: Action) {
    match a
    case WriteUser(_, _) => true
    case DropUser(_) => true
    case EditRecord(_) => true
    case NodeAccounts(_, _) => true
    case UserStart(o) => o in w.users && w.users[o].Declares? && ValidUsername(w.users[o].username)
    case UserRecord(o) => o in w.passes && w.passes[o].Applying?
    case UserApply(o, n) => o in w.passes && w.passes[o].Applying? && w.passes[o].recorded && n in w.accounts
    case UserRemoveStart(o) => o in w.users && w.users[o].Declares? && ValidUsername(w.users[o].username)
    case UserRemove(o, n) => o in w.passes && w.passes[o].Removing? && n in w.accounts
    case UserForget(o) => o in w.passes && w.passes[o].Removing?
    case UserEnd(_) => true
    case PruneRead => w.prune.Idle?
    case PruneEnumerate(n) => w.prune.Enumerating? && n in w.accounts
    case PruneList => w.prune.Enumerating?
    case PruneDelete(u, n, _) =>
      && w.prune.Deleting? && n in w.prune.held && n in w.accounts
      && u in w.prune.held[n] && u in Orphans(w.prune.record, w.prune.declared)
    case PruneForget => w.prune.Deleting?
    case PruneEnd => true
  }

  function Next(w: World, a: Action): World
    requires Enabled(w, a)
  {
    match a
    case WriteUser(o, d) => w.(users := w.users[o := d])
    case DropUser(o) => w.(users := w.users - {o})
    case EditRecord(r) => w.(record := r)
    case NodeAccounts(n, names) => w.(accounts := w.accounts[n := names])
    case UserStart(o) => w.(passes := w.passes[o := Applying(w.users[o].username, false)])
    case UserRecord(o) =>
      var u := w.passes[o].username;
      w.(record := w.record[u := o], passes := w.passes[o := Applying(u, true)])
    case UserApply(o, n) => w.(accounts := w.accounts[n := w.accounts[n] + {w.passes[o].username}])
    case UserRemoveStart(o) => w.(passes := w.passes[o := Removing(w.users[o].username)])
    case UserRemove(o, n) => w.(accounts := w.accounts[n := w.accounts[n] - {w.passes[o].username}])
    case UserForget(o) => w.(record := w.record - {w.passes[o].username})
    case UserEnd(o) => w.(passes := w.passes - {o})
    case PruneRead => w.(prune := Enumerating(w.record, map[]))
    case PruneEnumerate(n) => w.(prune := Enumerating(w.prune.record, w.prune.held[n := w.accounts[n]]))
    case PruneList => w.(prune := Deleting(w.prune.record, w.prune.held, DeclaredNames(w.users)))
    case PruneDelete(u, n, effect) => if effect then w.(accounts := w.accounts[n := w.accounts[n] - {u}]) else w
    case PruneForget => w.(record := w.record - Orphans(w.prune.record, w.prune.declared), prune := Idle)
    case PruneEnd => w.(prune := Idle)
  }

  /** A run: ws[i] is the state in which as[i] happens. */
  ghost predicate IsRun(ws: seq<World>, acts: seq<Action>) {
    && |ws| == |acts| + 1
    && ws[0].prune.Idle? && ws[0].passes == map[]
    && (forall i :: 0 <= i < |acts| ==> Enabled(ws[i], acts[i]) && ws[i + 1] == Next(ws[i], acts[i]))
  }

  // ------------------------------------------------------------------ where a pass came from

  /** The pass in flight at k read the record at r. */
  ghost predicate ReadAt(ws: seq<World>, acts: seq<Action>, k: nat, r: nat) {
    && r < k < |ws| == |acts| + 1
    && acts[r] == PruneRead && !ws[k].prune.Idle? && ws[k].prune.record == ws[r].record
    && (forall i :: r < i <= k ==> !ws[i].prune.Idle?)
  }

  /** The pass in flight at k enumerated node n at j. */
  ghost predicate EnumeratedAt(ws: seq<World>, acts: seq<Action>, k: nat, n: string, j: nat) {
    && j < k < |ws| == |acts| + 1
    && acts[j] == PruneEnumerate(n) && !ws[k].prune.Idle?
    && n in ws[k].prune.held && n in ws[j].accounts && ws[k].prune.held[n] == ws[j].accounts[n]
    && (forall i :: j < i <= k ==> !ws[i].prune.Idle?)
  }

  /** The pass in flight at k listed the RedisUsers at l. */
  ghost predicate ListedAt(ws: seq<World>, acts: seq<Action>, k: nat, l: nat) {
    && l < k < |ws| == |acts| + 1
    && acts[l] == PruneList && ws[k].prune.Deleting? && ws[k].prune.declared == DeclaredNames(ws[l].users)
    && ws[l].prune.Enumerating? && ws[l].prune.held == ws[k].prune.held && ws[l].prune.record == ws[k].prune.record
    && (forall i :: l < i <= k ==> ws[i].prune.Deleting?)
  }

  /** Only the pass's own steps change where it stands. */
  lemma PruneMoves(w: World, a: Action)
    requires Enabled(w, a)
    ensures Next(w, a).prune.Idle? || Next(w, a).prune == w.prune
      || (a == PruneRead && Next(w, a).prune == Enumerating(w.record, map[]))
      || (a == PruneList && w.prune.Enumerating?
          && Next(w, a).prune == Deleting(w.prune.record, w.prune.held, DeclaredNames(w.users)))
      || (a.PruneEnumerate? && w.prune.Enumerating? && a.node in w.accounts
          && Next(w, a).prune == Enumerating(w.prune.record, w.prune.held[a.node := w.accounts[a.node]]))
  {
  }

  lemma {:induction false} ReadOrigin(ws: seq<World>, acts: seq<Action>, k: nat) returns (r: nat)
    requires IsRun(ws, acts) && k < |ws| && !ws[k].prune.Idle?
    ensures ReadAt(ws, acts, k, r)
  {
    PruneMoves(ws[k - 1], acts[k - 1]);
    hide Next, Enabled, DeclaredNames;
    if acts[k - 1] == PruneRead {
      r := k - 1;
    } else {
      r := ReadOrigin(ws, acts, k - 1);
    }
  }

  lemma {:induction false} EnumerationOrigin(ws: seq<World>, acts: seq<Action>, k: nat, n: string) returns (j: nat)
    requires IsRun(ws, acts) && k < |ws| && !ws[k].prune.Idle? && n in ws[k].prune.held
    ensures EnumeratedAt(ws, acts, k, n, j)
  {
    PruneMoves(ws[k - 1], acts[k - 1]);
    hide Next, Enabled, DeclaredNames;
    if acts[k - 1] == PruneEnumerate(n) {
      j := k - 1;
    } else {
      assert n in ws[k - 1].prune.held && ws[k].prune.held[n] == ws[k - 1].prune.held[n];
      j := EnumerationOrigin(ws, acts, k - 1, n);
    }
  }

  lemma {:induction false} ListOrigin(ws: seq<World>, acts: seq<Action>, k: nat) returns (l: nat)
    requires IsRun(ws, acts) && k < |ws| && ws[k].prune.Deleting?
    ensures ListedAt(ws, acts, k, l)
  {
    PruneMoves(ws[k - 1], acts[k - 1]);
    hide Next, Enabled, DeclaredNames;
    if acts[k - 1] == PruneList {
      l := k - 1;
    } else {
      l := ListOrigin(ws, acts, k - 1);
    }
  }

  // ------------------------------------------------------------------ what a deletion means

  /** What the pass in flight at k takes for an orphan: a name the operator would write (never
      'default') that was recorded when the pass read the record, at r, and that no RedisUser
      declared when it then listed them, at l. */
  lemma OrphanExactlyWhen(ws: seq<World>, acts: seq<Action>, k: nat, u: string) returns (r: nat, l: nat)
    requires IsRun(ws, acts) && k < |ws| && ws[k].prune.Deleting?
    ensures ReadAt(ws, acts, k, r) && ListedAt(ws, acts, k, l) && r < l
    ensures u in Orphans(ws[k].prune.record, ws[k].prune.declared) <==>
      ValidUsername(u) && u in ws[r].record && forall owner :: !DeclaredBy(ws[l], owner, u)
  {
    r := ReadOrigin(ws, acts, k);
    l := ListOrigin(ws, acts, k);
    ListedExactlyWhenDeclared(ws[l], u);
    hide ValidUsername, Next;
  }

  /** When a pass may delete a name from a node it holds, in any interleaving: exactly if the name
      is an orphan of it and was on the node when the pass enumerated it, at j. Nothing after the
      List at l matters, neither a new declaration nor a new account. */
  lemma DeletionIsDueExactlyWhen(ws: seq<World>, acts: seq<Action>, k: nat, u: string, n: string, effect: bool)
    returns (r: nat, j: nat, l: nat)
    requires IsRun(ws, acts) && k < |ws| && ws[k].prune.Deleting?
    requires n in ws[k].prune.held && n in ws[k].accounts
    ensures r < j < l < k && acts[r] == PruneRead && acts[j] == PruneEnumerate(n) && acts[l] == PruneList
    ensures forall i :: r < i <= k ==> !ws[i].prune.Idle?
    ensures n in ws[j].accounts
    ensures Enabled(ws[k], PruneDelete(u, n, effect)) <==>
      && ValidUsername(u) && u in ws[r].record && u in ws[j].accounts[n]
      && forall owner :: !DeclaredBy(ws[l], owner, u)
  {
    r, l := OrphanExactlyWhen(ws, acts, k, u);
    j := EnumerationOrigin(ws, acts, l, n);
    assert ws[j].prune.Enumerating?;
    hide ValidUsername, Next, Orphans;
  }

  /** Every DELUSER of a prune pass, in any interleaving: the pass read the record at r, then
      enumerated the node at j, then listed the RedisUsers at l, all before the deletion at k.
      The name is one the operator would write (never 'default'), was recorded at r, was on the
      node at j, and no RedisUser declared it at l. */
  lemma PruneSparesDeclaredAccounts(ws: seq<World>, acts: seq<Action>, k: nat)
    returns (r: nat, j: nat, l: nat)
    requires IsRun(ws, acts) && k < |acts| && acts[k].PruneDelete?
    ensures r < j < l < k && acts[r] == PruneRead && acts[j] == PruneEnumerate(acts[k].node) && acts[l] == PruneList
    ensures forall i :: r < i <= k ==> !ws[i].prune.Idle?
    ensures ValidUsername(acts[k].username) && acts[k].username in ws[r].record
    ensures acts[k].node in ws[j].accounts && acts[k].username in ws[j].accounts[acts[k].node]
    ensures forall owner :: !DeclaredBy(ws[l], owner, acts[k].username)
  {
    assert Enabled(ws[k], acts[k]);
    hide ValidUsername, Next, Orphans;
    r, j, l := DeletionIsDueExactlyWhen(ws, acts, k, acts[k].username, acts[k].node, acts[k].effect);
  }

  /** Between the enumeration of its node, in whichever pass, and the deletion of a name there is a
      moment at which a given RedisUser does not declare it. */
  lemma UndeclaredBeforeDeletion(ws: seq<World>, acts: seq<Action>, j: nat, k: nat, owner: string) returns (l: nat)
    requires IsRun(ws, acts) && j < k < |acts| && acts[k].PruneDelete? && acts[j] == PruneEnumerate(acts[k].node)
    ensures j < l <= k && !DeclaredBy(ws[l], owner, acts[k].username)
  {
    l := ListOrigin(ws, acts, k);
    assert ws[j].prune.Enumerating?;
    ListedExactlyWhenDeclared(ws[l], acts[k].username);
  }

  /** A name that a RedisUser declares from the enumeration of a node on is not deleted there. */
  lemma DeclaredSinceEnumerationIsSpared(ws: seq<World>, acts: seq<Action>, j: nat, k: nat,
                                         owner: string, u: string, n: string)
    requires IsRun(ws, acts) && j < k < |acts| && acts[j] == PruneEnumerate(n)
    requires forall m :: j < m <= k ==> DeclaredBy(ws[m], owner, u)
    ensures !(acts[k].PruneDelete? && acts[k].username == u && acts[k].node == n)
  {
    if acts[k].PruneDelete? && acts[k].username == u && acts[k].node == n {
      var l := UndeclaredBeforeDeletion(ws, acts, j, k, owner);
    }
  }

  /** In particular: an account that a RedisUser applied to a node before the node was enumerated,
      and has declared ever since. */
  lemma AppliedAndDeclaredIsSpared(ws: seq<World>, acts: seq<Action>, i: nat, j: nat, k: nat,
                                   owner: string, u: string, n: string)
    requires IsRun(ws, acts) && i < j < k < |acts|
    requires acts[i] == UserApply(owner, n) && ws[i].passes[owner].username == u
    requires acts[j] == PruneEnumerate(n)
    requires forall m :: i <= m <= k ==> DeclaredBy(ws[m], owner, u)
    ensures !(acts[k].PruneDelete? && acts[k].username == u && acts[k].node == n)
  {
    DeclaredSinceEnumerationIsSpared(ws, acts, j, k, owner, u, n);
  }

  /** Passes in flight are about names the operator may write. */
  ghost predicate PassesAreValid(w: World) {
    forall o :: o in w.passes ==> ValidUsername(w.passes[o].username)
  }

  lemma {:induction false} PassesStayValid(ws: seq<World>, acts: seq<Action>, k: nat)
    requires IsRun(ws, acts) && k < |ws|
    ensures PassesAreValid(ws[k])
  {
    if k > 0 {
      PassesStayValid(ws, acts, k - 1);
      hide ValidUsername, Orphans, DeclaredNames;
    }
  }

  lemma ReservedStep(w: World, a: Action, n: string, u: string)
    requires Enabled(w, a) && PassesAreValid(w) && !ValidUsername(u)
    requires a.NodeAccounts? ==> a.node != n
    requires n in w.accounts && u in w.accounts[n]
    ensures n in Next(w, a).accounts && u in Next(w, a).accounts[n]
  {
    hide ValidUsername;
  }

  /** Neither controller ever removes 'default', or any other name it would not write: on a node
      that did not have its accounts changed from outside, such an account is still there at the
      end of every run. */
  lemma {:induction false} ReservedAccountsStay(ws: seq<World>, acts: seq<Action>, k: nat, n: string, u: string)
    requires IsRun(ws, acts) && k < |ws| && !ValidUsername(u)
    requires n in ws[0].accounts && u in ws[0].accounts[n]
    requires forall i :: 0 <= i < k && acts[i].NodeAccounts? ==> acts[i].node != n
    ensures n in ws[k].accounts && u in ws[k].accounts[n]
  {
    if k > 0 {
      ReservedAccountsStay(ws, acts, k - 1, n, u);
      PassesStayValid(ws, acts, k - 1);
      ReservedStep(ws[k - 1], acts[k - 1], n, u);
    }
  }

  /** So no run of either controller, from any state, takes the 'default' account off a node. */
  lemma DefaultAccountStays(ws: seq<World>, acts: seq<Action>, k: nat, n: string)
    requires IsRun(ws, acts) && k < |ws| && n in ws[0].accounts && "default" in ws[0].accounts[n]
    requires forall i :: 0 <= i < k && acts[i].NodeAccounts? ==> acts[i].node != n
    ensures n in ws[k].accounts && "default" in ws[k].accounts[n]
  {
    ReservedAccountsStay(ws, acts, k, n, "default");
  }

  /** Any other name of letters and digits is one the operator would write. */
  lemma PlainNamesAreValid(u: string)
    requires u != "" && forall i :: 0 <= i < |u| ==> 'a' <= u[i] <= 'z' || 'A' <= u[i] <= 'Z' || '0' <= u[i] <= '9'
    ensures ValidUsername(u) <==> u != "default"
  {
  }

  /** The action takes u off the record. */
  predicate Drops(w: World, a: Action, u: string)
    requires Enabled(w, a)
  {
    || (a.EditRecord? && u !in a.edited)
    || (a.UserForget? && w.passes[a.owner].username == u)
    || (a == PruneForget && u in Orphans(w.prune.record, w.prune.declared))
  }

  lemma RecordedUnlessDropped(w: World, a: Action, u: string)
    requires Enabled(w, a) && u in w.record
    ensures u in Next(w, a).record <==> !Drops(w, a, u)
  {
    hide ValidUsername;
  }

  /** A recorded name stays on the record exactly as long as nothing drops it. */
  lemma {:induction false} RecordedExactlyUntilADrop(ws: seq<World>, acts: seq<Action>, i: nat, k: nat, u: string)
    requires IsRun(ws, acts) && i <= k < |ws| && u in ws[i].record
    ensures (forall m :: i <= m <= k ==> u in ws[m].record) <==>
      (forall d :: i <= d < k ==> !Drops(ws[d], acts[d], u))
  {
    if i < k {
      hide Drops, Next, Enabled;
      RecordedExactlyUntilADrop(ws, acts, i, k - 1, u);
      if forall m :: i <= m <= k - 1 ==> u in ws[m].record {
        RecordedUnlessDropped(ws[k - 1], acts[k - 1], u);
        assert u in ws[k].record <==> !Drops(ws[k - 1], acts[k - 1], u);
      }
    }
  }

  /** A pass about to end well drops a name exactly if it is an orphan of it: recorded at r, and
      declared by nobody at l. Whoever declares it at the drop was written after l. */
  lemma ForgettingDropsExactlyWhen(ws: seq<World>, acts: seq<Action>, k: nat, u: string) returns (r: nat, l: nat)
    requires IsRun(ws, acts) && k < |acts| && acts[k] == PruneForget
    ensures r < l < k && acts[r] == PruneRead && acts[l] == PruneList
    ensures forall i :: r < i <= k ==> !ws[i].prune.Idle?
    ensures Drops(ws[k], acts[k], u) <==>
      ValidUsername(u) && u in ws[r].record && forall owner :: !DeclaredBy(ws[l], owner, u)
  {
    assert ws[k].prune.Deleting?;
    hide ValidUsername, Next, Orphans;
    r, l := OrphanExactlyWhen(ws, acts, k, u);
  }

  /** A recorded name is lost only to a drop. A pass that drops it listed the RedisUsers at l,
      before the drop, and found none declaring it. */
  lemma RecordIsLostOnlyByADrop(ws: seq<World>, acts: seq<Action>, i: nat, k: nat, u: string)
    returns (d: nat, l: nat)
    requires IsRun(ws, acts) && i < k < |ws|
    requires u in ws[i].record && u !in ws[k].record
    ensures i <= d < k && Drops(ws[d], acts[d], u)
    ensures acts[d] == PruneForget ==>
      l < d && acts[l] == PruneList && forall owner :: !DeclaredBy(ws[l], owner, u)
  {
    hide Drops, Next, Enabled;
    RecordedExactlyUntilADrop(ws, acts, i, k, u);
    d :| i <= d < k && Drops(ws[d], acts[d], u);
    l := 0;
    if acts[d] == PruneForget {
      var r;
      r, l := ForgettingDropsExactlyWhen(ws, acts, d, u);
    }
  }

  // ------------------------------------------------------------------ what the order does not cover

  lemma Extend(ws: seq<World>, acts: seq<Action>, a: Action) returns (ws': seq<World>, acts': seq<Action>)
    requires |ws| == |acts| + 1 && IsRun(ws, acts) && Enabled(ws[|acts|], a)
    ensures IsRun(ws', acts') && acts' == acts + [a] && ws' == ws + [Next(ws[|acts|], a)]
    ensures |ws'| == |acts'| + 1
  {
    acts' := acts + [a];
    ws' := ws + [Next(ws[|acts|], a)];
    forall i | 0 <= i < |acts'| ensures Enabled(ws'[i], acts'[i]) && ws'[i + 1] == Next(ws'[i], acts'[i]) {
      if i < |acts| { assert ws'[i] == ws[i] && ws'[i + 1] == ws[i + 1] && acts'[i] == acts[i]; }
    }
  }

  /** A stale account of a name that is declared again after the List is deleted with the fresh
      declaration in force, right after its RedisUser applied it. */
  lemma RedeclaredOrphanIsDeleted(u: string, n: string, former: string, owner: string)
    returns (ws: seq<World>, acts: seq<Action>)
    requires ValidUsername(u)
    ensures IsRun(ws, acts) && |acts| >= 2
    ensures acts[|acts| - 2] == UserApply(owner, n) && acts[|acts| - 1] == PruneDelete(u, n, true)
    ensures DeclaredBy(ws[|acts| - 2], owner, u) && DeclaredBy(ws[|acts|], owner, u)
    ensures n in ws[|acts|].accounts && u !in ws[|acts|].accounts[n]
  {
    ws, acts := Redeclare(u, n, former, owner, {u});
    ws, acts := Extend(ws, acts, PruneDelete(u, n, true));
  }

  /** A pass that ends well drops the record of a name declared and applied after its List: a
      live account the operator made, with nothing marking it as such. */
  lemma PruneForgetsALiveAccount(u: string, n: string, former: string, owner: string)
    returns (ws: seq<World>, acts: seq<Action>)
    requires ValidUsername(u)
    ensures IsRun(ws, acts) && |acts| >= 2
    ensures acts[|acts| - 2] == UserApply(owner, n) && acts[|acts| - 1] == PruneForget
    ensures DeclaredBy(ws[|acts|], owner, u) && n in ws[|acts|].accounts && u in ws[|acts|].accounts[n]
    ensures u !in ws[|acts|].record
  {
    ws, acts := Redeclare(u, n, former, owner, {});
    ws, acts := Extend(ws, acts, PruneForget);
  }

  /** A pass up to its List, and then a RedisUser written and applied. */
  lemma Redeclare(u: string, n: string, former: string, owner: string, present: set<string>)
    returns (ws: seq<World>, acts: seq<Action>)
    requires ValidUsername(u)
    ensures IsRun(ws, acts) && |acts| == 7 && |ws| == 8 && acts[6] == UserApply(owner, n)
    ensures DeclaredBy(ws[6], owner, u)
    ensures ws[7] == World(
      map[owner := Declares(u)], map[u := owner], map[n := present + {u}], map[owner := Applying(u, true)],
      Deleting(map[u := former], map[n := present], {}))
  {
    ws, acts := ListedPass(u, n, former, present);
    hide IsRun, ValidUsername, DeclaredNames, Orphans;
    ws, acts := Extend(ws, acts, WriteUser(owner, Declares(u)));
    ws, acts := Extend(ws, acts, UserStart(owner));
    ws, acts := Extend(ws, acts, UserRecord(owner));
    ws, acts := Extend(ws, acts, UserApply(owner, n));
  }

  lemma ListedPass(u: string, n: string, former: string, present: set<string>)
    returns (ws: seq<World>, acts: seq<Action>)
    ensures IsRun(ws, acts) && |acts| == 3 && |ws| == 4
    ensures ws[3] == World(map[], map[u := former], map[n := present], map[],
      Deleting(map[u := former], map[n := present], {}))
  {
    var w := World(map[], map[u := former], map[n := present], map[], Idle);
    ws, acts := [w], [];
    assert IsRun(ws, acts);
    hide IsRun;
    ws, acts := Extend(ws, acts, PruneRead);
    ws, acts := Extend(ws, acts, PruneEnumerate(n));
    ws, acts := Extend(ws, acts, PruneList);
    assert DeclaredNames(map[]) == {};
  }
}
