/** reconcileAuthCredentials: the user Secret, the operator-owned record of the password the
    cluster was last moved to, and the stamp returned for the pod templates.
 */
module AuthRecord {
  import opened Basics
  import opened Rotation
  import opened CredentialPush
  import InitScript

  /** The user Secret: its password and its resourceVersion. */
  datatype Secret = Secret(password: Password, version: string)

  /** The applied-credentials Secret. */
  datatype Applied = Applied(password: Password, version: string)

  /** Success carries the stamp ("" for none) and whether the pass is reported degraded. */
  datatype Outcome = Stamp(version: string, degraded: bool) | Error

  /** The version on record, "" for none. */
  function Recorded(applied: Option<Applied>): string {
    if applied.Some? then applied.value.version else ""
  }

  /** The password the fleet was last moved to, "" for none. */
  function Previous(applied: Option<Applied>): Password {
    if applied.Some? then applied.value.password else ""
  }

  /** The recorded password is the one in the Secret. */
  predicate Unchanged(applied: Option<Applied>, password: Password) {
    applied.Some? && applied.value.password == password
  }

  class Reconciler {
    const operator: Operator
    var secret: Option<Secret>
    var applied: Option<Applied>

    ghost predicate Valid()
      reads this, operator
    {
      operator.Valid() && operator.state.controller == Idle
    }

    constructor (op: Operator)
      requires op.Valid() && op.state.controller == Idle
      ensures Valid() && operator == op && secret == None && applied == None
    {
      operator, secret, applied := op, None, None;
    }

    method EditSecret(s: Option<Secret>)
      requires Valid()
      modifies this`secret
      ensures Valid() && secret == s
    {
      secret := s;
    }

    /** A write of the record: acknowledged, or failed with or without effect. */
    method WriteApplied(password: Password, version: string, reliable: bool) returns (ok: bool)
      modifies this`applied
      ensures reliable ==> ok
      ensures ok ==> applied == Some(Applied(password, version))
      ensures !ok ==> applied == old(applied) || applied == Some(Applied(password, version))
    {
      ok := *;
      var effect: bool := *;
      ok := ok || reliable;
      if ok || effect {
        applied := Some(Applied(password, version));
      }
    }

    /** One pass. Reads may fail, the push may stop anywhere, and the record write may fail, unless
        everything is reliable. */
    method ReconcileAuth(configured: bool, rs: seq<Addr>, ss: seq<Addr>, reliable: bool) returns (r: Outcome)
      requires Valid() && Distinct(rs) && Distinct(ss)
      requires (forall a :: a in rs <==> a in operator.fleet.redis)
      requires (forall a :: a in ss <==> a in operator.fleet.sentinels)
      modifies this`applied, operator
      ensures Valid() && SameKeys(old(operator.fleet), operator.fleet)
      ensures operator.start == old(operator.start) && old(operator.acts) <= operator.acts
      // the stamp is the version in the record
      ensures r.Stamp? && r.version != "" ==> applied.Some? && r.version == applied.value.version
      // the recorded password moves only to a password the whole fleet now accepts and presents
      ensures applied != old(applied) && !SamePassword(old(applied), applied) ==>
        && applied.Some? && secret.Some?
        && applied.value.password == secret.value.password
        && InitScript.ValidPassword(applied.value.password)
        && Converged(operator.fleet, applied.value.password)
      // a rejected or unreadable Secret, and a failed push, leave the record alone
      ensures (r.Stamp? && r.degraded) || !configured || secret.None? ==> applied == old(applied)
      // a clean pass over a readable, valid Secret ends with it on record
      ensures configured && secret.Some? && r.Stamp? && !r.degraded ==>
        applied == Some(Applied(secret.value.password, secret.value.version))
      // a failed push carries the version on record forward, and a rejected password does if it can be read
      ensures r.Stamp? && r.degraded ==>
        && configured && secret.Some?
        && (r.version == Recorded(applied) || (r.version == "" && !InitScript.ValidPassword(secret.value.password)))
      ensures !configured || secret.None? ==> r == Stamp("", false)
      // over a reliable network a changed password is pushed and stamped exactly when every node answers to it
      // or to the recorded one
      ensures reliable && configured && secret.Some? ==>
        r == if InitScript.ValidPassword(secret.value.password) &&
                  (Unchanged(old(applied), secret.value.password) ||
                   Reachable(old(operator.fleet), secret.value.password, Previous(old(applied))))
             then Stamp(secret.value.version, false) else Stamp(Recorded(applied), true)
      // a clean pass has converged the fleet, unless the password is the recorded one and the fleet is not there
      ensures configured && secret.Some? && r == Stamp(secret.value.version, false) ==>
        (Converged(operator.fleet, secret.value.password) <==>
          !Unchanged(old(applied), secret.value.password) ||
          Converged(old(operator.fleet), secret.value.password))
      // a rejected or unchanged password is pushed to nobody
      ensures operator.fleet != old(operator.fleet) || operator.acts != old(operator.acts) ==>
        && configured && secret.Some? && InitScript.ValidPassword(secret.value.password)
        && !Unchanged(old(applied), secret.value.password)
    {
      if !configured || secret.None? {
        return Stamp("", false);
      }
      var readable: bool := *;
      readable := readable || reliable;
      if !readable {
        return Error;
      }
      var desired := secret.value.password;
      var version := secret.value.version;
      readable := *;
      readable := readable || reliable;
      if !InitScript.ValidPassword(desired) {
        return Stamp(if readable && applied.Some? then applied.value.version else "", true);
      }
      if !readable {
        return Error;
      }
      var ok;
      if applied.None? {
        ok := operator.PushCredentials(rs, ss, desired, "", reliable);
        if !ok {
          return Stamp("", true);
        }
        ok := WriteApplied(desired, version, reliable);
        return if ok then Stamp(version, false) else Error;
      }
      var record := applied.value;
      if record.password == desired {
        if record.version != version {
          ok := WriteApplied(desired, version, reliable);
          if !ok {
            return Error;
          }
        }
        return Stamp(version, false);
      }
      ok := operator.PushCredentials(rs, ss, desired, record.password, reliable);
      if !ok {
        return Stamp(record.version, true);
      }
      ok := WriteApplied(desired, version, reliable);
      return if ok then Stamp(version, false) else Error;
    }
  }

  predicate SamePassword(a: Option<Applied>, b: Option<Applied>) {
    a.Some? && b.Some? && a.value.password == b.value.password
  }

  /** Any sequence of Secret edits and passes, in one loop: the recorded password is always one
      the fleet was converged to by a push, and the whole history is one run of the rotation. */
  method RunPasses(rec: Reconciler, edits: seq<Option<Secret>>, configured: bool, rs: seq<Addr>, ss: seq<Addr>)
    returns (ghost converged: set<Password>)
    requires rec.Valid() && Distinct(rs) && Distinct(ss) && rec.applied == None
    requires (forall a :: a in rs <==> a in rec.operator.fleet.redis)
    requires (forall a :: a in ss <==> a in rec.operator.fleet.sentinels)
    requires rec.operator.start == State(rec.operator.fleet, Idle, []) && rec.operator.acts == []
    modifies rec, rec.operator
    ensures rec.Valid()
    ensures rec.applied.Some? ==> rec.applied.value.password in converged
    ensures forall p :: p in converged ==> ConvergedDuring(rec.operator.start, rec.operator.acts, p)
  {
    converged := {};
    for i := 0 to |edits|
      invariant rec.Valid()
      invariant (forall a :: a in rs <==> a in rec.operator.fleet.redis)
      invariant (forall a :: a in ss <==> a in rec.operator.fleet.sentinels)
      invariant rec.applied.Some? ==> rec.applied.value.password in converged
      invariant forall p :: p in converged ==> ConvergedDuring(rec.operator.start, rec.operator.acts, p)
    {
      ghost var recorded, earlier := rec.applied, rec.operator.acts;
      rec.EditSecret(edits[i]);
      var reliable: bool := *;
      var r := rec.ReconcileAuth(configured, rs, ss, reliable);
      forall p | p in converged ensures ConvergedDuring(rec.operator.start, rec.operator.acts, p) {
        LaterStillConvergedDuring(rec.operator.start, earlier, rec.operator.acts, p);
      }
      if rec.applied.Some? && !SamePassword(recorded, rec.applied) && rec.applied != recorded {
        var acts := rec.operator.acts;
        assert acts[..|acts|] == acts;
        assert ConvergedDuring(rec.operator.start, acts, rec.applied.value.password);
        converged := converged + {rec.applied.value.password};
      }
    }
  }

  /** At some point of the run every node accepted and presented exactly p. */
  ghost predicate ConvergedDuring(start: State, acts: seq<Action>, p: Password) {
    exists k :: 0 <= k <= |acts| && Converged(Run(start, acts[..k]).fleet, p)
  }

  lemma LaterStillConvergedDuring(start: State, acts: seq<Action>, more: seq<Action>, p: Password)
    requires acts <= more && ConvergedDuring(start, acts, p)
    ensures ConvergedDuring(start, more, p)
  {
    var k :| 0 <= k <= |acts| && Converged(Run(start, acts[..k]).fleet, p);
    assert more[..k] == acts[..k];
  }
}
