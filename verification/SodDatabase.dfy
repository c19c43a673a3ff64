/** The tables behind separation of duties as one value, what a single committed statement
    does to them, and what no run of statements can do.

    Each statement is the row change a writer asks for; triggers, CHECK constraints and
    unique indexes decide whether it happens. */
module SodDatabase {
  import opened Options
  import opened SodRules

  type MembershipId = nat

  datatype Membership = Membership(tenant: TenantId, held: HeldKeys)

  datatype Db = Db(catalogue: Catalogue, memberships: map<MembershipId, Membership>, waivers: Waivers)

  datatype ScopeTable = Roles | PermissionSets

  datatype Op =
    | WriteMembership(membership: MembershipId, row: Membership)
    | DeleteMembership(membership: MembershipId)
    | ProposeWaiver(waiver: Waiver)
    | UpdateWaiver(id: WaiverId, waiver: Waiver)
    | ChangeScopes(table: ScopeTable, key: string, scopes: set<Scope>, rearranged: bool)

  /** Why a statement did not happen: the constraint it names, or no row to act on. */
  datatype Refusal =
    | BreaksRule(rule: RuleKey)
    | RuleNotWaivable
    | SecondPerson
    | ConfirmedOrRevokedOnce
    | ReasonBlank
    | RevocationIncomplete
    | AlreadyOpen
    | IdTaken
    | StillReliedOn(relying: nat)
    | ScopeChangeBreaks(rule: RuleKey, memberships: nat)
    | NoSuchRow

  datatype Outcome = Accepted(db: Db) | Refused(why: Refusal)

  /** `btrim(s) <> ''` */
  predicate NonBlank(s: string) {
    exists c :: c in s && c != ' '
  }

  /** `ck_sod_waivers_reason`, `ck_sod_waivers_revocation`, `ck_sod_waivers_second_person`. */
  function BrokenCheck(w: Waiver): (why: Option<Refusal>) {
    if !NonBlank(w.reason) then Some(ReasonBlank)
    else if w.revokedAt.None? != w.revokedBy.None? || w.revokedAt.None? != w.revokeReason.None?
            || (w.revokeReason.Some? && !NonBlank(w.revokeReason.value)) then Some(RevocationIncomplete)
    else if w.confirmedAt.None? != w.confirmedBy.None? || w.confirmedAt.None? != w.confirmReason.None?
            || (w.confirmReason.Some? && !NonBlank(w.confirmReason.value))
            || (w.confirmedBy.Some? && w.confirmedBy.value == w.grantedBy) then Some(SecondPerson)
    else None
  }

  /** `guard_sod_waiver` on INSERT. */
  function GuardInsert(c: Catalogue, new_: Waiver): Option<Refusal> {
    if !(new_.rule in c.rules && c.rules[new_.rule].waivable) then Some(RuleNotWaivable)
    else if new_.confirmedAt.Some? then Some(SecondPerson)
    else None
  }

  /** `guard_sod_waiver` on UPDATE. */
  function GuardUpdate(old_: Waiver, new_: Waiver): Option<Refusal> {
    if old_.revokedAt.Some?
       || (new_.id, new_.tenant, new_.rule, new_.reason, new_.grantedBy, new_.grantedAt)
          != (old_.id, old_.tenant, old_.rule, old_.reason, old_.grantedBy, old_.grantedAt)
    then Some(ConfirmedOrRevokedOnce)
    else if old_.confirmedAt.None? && new_.confirmedAt.Some? && new_.revokedAt.None? then None
    else if new_.revokedAt.Some?
            && (new_.confirmedAt, new_.confirmedBy, new_.confirmReason)
               == (old_.confirmedAt, old_.confirmedBy, old_.confirmReason)
    then None
    else Some(ConfirmedOrRevokedOnce)
  }

  /** Memberships of the waiver's tenant that break its rule. */
  function Relying(db: Db, w: Waiver): set<MembershipId> {
    set m | m in db.memberships && db.memberships[m].tenant == w.tenant
            && RuleBroken(db.catalogue, w.rule, db.memberships[m].held)
  }

  /** `uq_sod_waivers_open`: another open waiver of that tenant and rule. */
  predicate OpenElsewhere(ws: Waivers, w: Waiver) {
    exists other :: other in ws && ws[other].tenant == w.tenant && ws[other].rule == w.rule && ws[other].Open()
  }

  function Propose(db: Db, w: Waiver): Outcome {
    var guard := GuardInsert(db.catalogue, w);
    var check := BrokenCheck(w);
    if guard.Some? then Refused(guard.value)
    else if check.Some? then Refused(check.value)
    else if w.id in db.waivers then Refused(IdTaken)
    else if w.Open() && OpenElsewhere(db.waivers, w) then Refused(AlreadyOpen)
    else Accepted(db.(waivers := db.waivers[w.id := w]))
  }

  /** The guard, the CHECKs, then `refuse_revoking_a_waiver_in_use`, which fires only when
      the update closes the waiver. The unique index has nothing to add: an accepted update
      moves no key and never opens a row. */
  function Update(db: Db, id: WaiverId, w: Waiver): Outcome {
    if id !in db.waivers then Refused(NoSuchRow)
    else
      var guard := GuardUpdate(db.waivers[id], w);
      var check := BrokenCheck(w);
      if guard.Some? then Refused(guard.value)
      else if check.Some? then Refused(check.value)
      else if w.revokedAt.Some? && Relying(db, w) != {} then Refused(StillReliedOn(|Relying(db, w)|))
      else Accepted(db.(waivers := db.waivers[id := w]))
  }

  function WithScopes(c: Catalogue, table: ScopeTable, key: string, scopes: set<Scope>): Catalogue {
    match table
    case Roles => c.(roles := c.roles[key := scopes])
    case PermissionSets => c.(permissionSets := c.permissionSets[key := scopes])
  }

  predicate Names(table: ScopeTable, k: HeldKeys, key: string) {
    match table
    case Roles => key in k.roles
    case PermissionSets => key in k.permissionSets
  }

  /** The holders that the new catalogue would catch. */
  function Caught(db: Db, c: Catalogue, table: ScopeTable, key: string): set<MembershipId> {
    set m | m in db.memberships && Names(table, db.memberships[m].held, key)
            && Judged(db, c, m).Some?
  }

  function Judged(db: Db, c: Catalogue, m: MembershipId): Option<RuleKey>
    requires m in db.memberships
  {
    Violation(c, db.waivers, Some(db.memberships[m].tenant), db.memberships[m].held)
  }

  function RulesBrokenBy(db: Db, c: Catalogue, ms: set<MembershipId>): set<RuleKey>
    requires forall m | m in ms :: m in db.memberships && Judged(db, c, m).Some?
  {
    set m | m in ms :: Judged(db, c, m).value
  }

  /** The least rule broken, and by how many. */
  function ScopeRefusal(db: Db, c: Catalogue, caught: set<MembershipId>): Refusal
    requires caught != {}
    requires forall m | m in caught :: m in db.memberships && Judged(db, c, m).Some?
  {
    var rules := RulesBrokenBy(db, c, caught);
    assert rules != {} by {
      var m :| m in caught;
      assert Judged(db, c, m).value in rules;
    }
    ScopeChangeBreaks(Least(rules), |caught|)
  }

  predicate HasRow(c: Catalogue, table: ScopeTable, key: string) {
    match table
    case Roles => key in c.roles
    case PermissionSets => key in c.permissionSets
  }

  /** The trigger fires when the stored array changes: always if its scopes do, and if `rearranged`
      where only their order or repetition does. */
  predicate Fires(c: Catalogue, table: ScopeTable, key: string, scopes: set<Scope>, rearranged: bool)
    requires HasRow(c, table, key)
  {
    rearranged || scopes != if table.Roles? then c.roles[key] else c.permissionSets[key]
  }

  /** `refuse_scope_change_breaking_memberships`. */
  function ChangeScopesOf(db: Db, table: ScopeTable, key: string, scopes: set<Scope>, rearranged: bool): Outcome {
    if !HasRow(db.catalogue, table, key) then Refused(NoSuchRow)
    else
      var c := WithScopes(db.catalogue, table, key, scopes);
      var caught := Caught(db, c, table, key);
      if !Fires(db.catalogue, table, key, scopes, rearranged) || caught == {} then Accepted(db.(catalogue := c))
      else Refused(ScopeRefusal(db, c, caught))
  }

  /** `enforce_separation_of_duties` on an insert, or on an update that names the keys. */
  function Write(db: Db, id: MembershipId, row: Membership): Outcome {
    match Violation(db.catalogue, db.waivers, Some(row.tenant), row.held)
    case Some(rule) => Refused(BreaksRule(rule))
    case None => Accepted(db.(memberships := db.memberships[id := row]))
  }

  function Apply(db: Db, op: Op): Outcome {
    match op
    case WriteMembership(id, row) => Write(db, id, row)
    case DeleteMembership(id) => Accepted(db.(memberships := db.memberships - {id}))
    case ProposeWaiver(w) => Propose(db, w)
    case UpdateWaiver(id, w) => Update(db, id, w)
    case ChangeScopes(table, key, scopes, rearranged) => ChangeScopesOf(db, table, key, scopes, rearranged)
  }

  /** A refused statement leaves the tables alone. */
  function After(db: Db, op: Op): Db {
    match Apply(db, op)
    case Accepted(db') => db'
    case Refused(_) => db
  }

  function Run(db: Db, ops: seq<Op>): Db
    decreases |ops|
  {
    if ops == [] then db else Run(After(db, ops[0]), ops[1..])
  }

  /** What the table definitions themselves guarantee of the stored waivers. */
  ghost predicate Valid(db: Db) {
    && (forall id | id in db.waivers :: db.waivers[id].id == id && BrokenCheck(db.waivers[id]).None?)
    && (forall a, b | a in db.waivers && b in db.waivers && a != b ::
          db.waivers[a].Open() && db.waivers[b].Open() && db.waivers[a].tenant == db.waivers[b].tenant ==>
            db.waivers[a].rule != db.waivers[b].rule)
  }

  lemma StepKeepsValid(db: Db, op: Op)
    requires Valid(db)
    ensures Valid(After(db, op))
  {
  }

  lemma {:induction false} RunKeepsValid(db: Db, ops: seq<Op>)
    requires Valid(db)
    ensures Valid(Run(db, ops))
    decreases |ops|
  {
    if ops != [] {
      StepKeepsValid(db, ops[0]);
      RunKeepsValid(After(db, ops[0]), ops[1..]);
    }
  }

  // ----- Safety: no run makes a safe membership unsafe -----

  ghost predicate SafeRow(db: Db, row: Membership) {
    Safe(db.catalogue, db.waivers, row.tenant, row.held)
  }

  /** The memberships that hold both sides of a rule without cover, legacy rows included. */
  ghost function Unsafe(db: Db): set<MembershipId> {
    set m | m in db.memberships && !SafeRow(db, db.memberships[m])
  }

  lemma OtherKeysHoldTheSame(c: Catalogue, table: ScopeTable, key: string, scopes: set<Scope>, k: HeldKeys)
    requires !Names(table, k, key)
    ensures Held(WithScopes(c, table, key, scopes), k) == Held(c, k)
  {
    match table
    case Roles => UnnamedKeyIsIdle(c.roles, k.roles, key, scopes);
    case PermissionSets => UnnamedKeyIsIdle(c.permissionSets, k.permissionSets, key, scopes);
  }

  lemma UnnamedKeyIsIdle(table: map<string, set<Scope>>, keys: set<string>, key: string, scopes: set<Scope>)
    requires key !in keys
    ensures ScopesOf(table[key := scopes], keys) == ScopesOf(table, keys)
  {
    var table' := table[key := scopes];
    forall scope
      ensures scope in ScopesOf(table', keys) <==> scope in ScopesOf(table, keys)
    {
      if scope in ScopesOf(table, keys) {
        var k :| k in keys && k in table && scope in table[k];
        assert k in table' && scope in table'[k];
      }
    }
  }

  /** The heart of the waiver rules: closing a waiver nobody relies on exposes nobody. */
  lemma UpdateKeepsSafe(db: Db, id: WaiverId, w: Waiver, row: Membership, m: MembershipId)
    requires Update(db, id, w).Accepted?
    requires m in db.memberships && db.memberships[m] == row && SafeRow(db, row)
    ensures SafeRow(Update(db, id, w).db, row)
  {
    var db' := Update(db, id, w).db;
    forall key | key in db.catalogue.rules && RuleBroken(db.catalogue, key, row.held)
      ensures exists v :: v in db'.waivers && db'.waivers[v].Lifts(row.tenant, key)
    {
      var v :| v in db.waivers && db.waivers[v].Lifts(row.tenant, key);
      assert w.revokedAt.Some? ==> m !in Relying(db, w);
      assert db'.waivers[v].Lifts(row.tenant, key);
    }
  }

  lemma ProposeKeepsSafe(db: Db, w: Waiver, row: Membership)
    requires Propose(db, w).Accepted? && SafeRow(db, row)
    ensures SafeRow(Propose(db, w).db, row)
  {
    var db' := Propose(db, w).db;
    forall key | key in db.catalogue.rules && RuleBroken(db.catalogue, key, row.held)
      ensures exists v :: v in db'.waivers && db'.waivers[v].Lifts(row.tenant, key)
    {
      var v :| v in db.waivers && db.waivers[v].Lifts(row.tenant, key);
      assert db'.waivers[v].Lifts(row.tenant, key);
    }
  }

  lemma ScopeChangeKeepsSafe(db: Db, op: Op, m: MembershipId)
    requires op.ChangeScopes? && Apply(db, op).Accepted?
    requires m in db.memberships && SafeRow(db, db.memberships[m])
    ensures SafeRow(After(db, op), db.memberships[m])
  {
    var row, db' := db.memberships[m], After(db, op);
    if !Fires(db.catalogue, op.table, op.key, op.scopes, op.rearranged) {
      assert db'.catalogue == db.catalogue;
    } else if Names(op.table, row.held, op.key) {
      assert m !in Caught(db, db'.catalogue, op.table, op.key);
      NoViolationIsSafe(db'.catalogue, db.waivers, row.tenant, row.held);
    } else {
      OtherKeysHoldTheSame(db.catalogue, op.table, op.key, op.scopes, row.held);
      assert forall key :: RuleBroken(db'.catalogue, key, row.held) <==> RuleBroken(db.catalogue, key, row.held);
    }
  }

  /** From any starting state, one statement adds nobody to the unsafe memberships. */
  lemma StepNeverEndangers(db: Db, op: Op)
    ensures Unsafe(After(db, op)) <= Unsafe(db)
  {
    if Apply(db, op).Accepted? {
      var db' := After(db, op);
      forall m | m in db'.memberships && SafeOrNew(db, m, db'.memberships[m])
        ensures SafeRow(db', db'.memberships[m])
      {
        match op
        case WriteMembership(id, row) =>
          if m == id {
            NoViolationIsSafe(db.catalogue, db.waivers, row.tenant, row.held);
          }
        case DeleteMembership(_) =>
        case ProposeWaiver(w) => ProposeKeepsSafe(db, w, db.memberships[m]);
        case UpdateWaiver(id, w) => UpdateKeepsSafe(db, id, w, db.memberships[m], m);
        case ChangeScopes(_, _, _, _) => ScopeChangeKeepsSafe(db, op, m);
      }
    }
  }

  ghost predicate SafeOrNew(db: Db, m: MembershipId, row: Membership) {
    m !in db.memberships || db.memberships[m] != row || SafeRow(db, db.memberships[m])
  }

  lemma {:induction false} RunNeverEndangers(db: Db, ops: seq<Op>)
    ensures Unsafe(Run(db, ops)) <= Unsafe(db)
    decreases |ops|
  {
    if ops != [] {
      StepNeverEndangers(db, ops[0]);
      RunNeverEndangers(After(db, ops[0]), ops[1..]);
    }
  }

  // ----- The life of a waiver -----

  /** The only two updates there are: a confirmation by another person that moves nothing
      else, or a revocation that moves nothing else. */
  ghost predicate IsConfirmation(before: Waiver, after: Waiver) {
    && before.Open() && !before.Confirmed()
    && after.confirmedBy.Some? && after.confirmedBy.value != before.grantedBy
    && after.confirmReason.Some? && NonBlank(after.confirmReason.value)
    && after == before.(confirmedBy := after.confirmedBy, confirmedAt := after.confirmedAt,
                        confirmReason := after.confirmReason)
    && after.Confirmed()
  }

  ghost predicate IsRevocation(before: Waiver, after: Waiver) {
    && before.Open() && !after.Open()
    && after.revokedBy.Some? && after.revokeReason.Some? && NonBlank(after.revokeReason.value)
    && after == before.(revokedBy := after.revokedBy, revokedAt := after.revokedAt,
                        revokeReason := after.revokeReason)
  }

  lemma UpdatesAreConfirmationsOrRevocations(db: Db, id: WaiverId, w: Waiver)
    requires Valid(db) && id in db.waivers
    ensures Update(db, id, w).Accepted? <==>
              || IsConfirmation(db.waivers[id], w)
              || (IsRevocation(db.waivers[id], w) && Relying(db, w) == {})
  {
    var old_ := db.waivers[id];
    assert BrokenCheck(old_).None?;
  }

  /** How many updates a waiver may still see. */
  function Rank(w: Waiver): nat {
    if !w.Open() then 0 else if w.Confirmed() then 1 else 2
  }

  function UpdatesSeen(db: Db, ops: seq<Op>, id: WaiverId): nat
    decreases |ops|
  {
    if ops == [] then 0
    else
      (if ops[0].UpdateWaiver? && ops[0].id == id && Apply(db, ops[0]).Accepted? then 1 else 0)
      + UpdatesSeen(After(db, ops[0]), ops[1..], id)
  }

  /** Every update accepted costs rank, so a waiver sees at most two in its life, and what
      was decided when it was proposed is never rewritten. */
  lemma {:induction false} AtMostTwoUpdates(db: Db, ops: seq<Op>, id: WaiverId)
    requires Valid(db) && id in db.waivers
    ensures id in Run(db, ops).waivers
    ensures UpdatesSeen(db, ops, id) + Rank(Run(db, ops).waivers[id]) <= Rank(db.waivers[id]) <= 2
    ensures Run(db, ops).waivers[id].(confirmedBy := db.waivers[id].confirmedBy,
              confirmedAt := db.waivers[id].confirmedAt, confirmReason := db.waivers[id].confirmReason,
              revokedBy := db.waivers[id].revokedBy, revokedAt := db.waivers[id].revokedAt,
              revokeReason := db.waivers[id].revokeReason) == db.waivers[id]
    decreases |ops|
  {
    if ops != [] {
      StepKeepsValid(db, ops[0]);
      if ops[0].UpdateWaiver? && ops[0].id == id {
        UpdatesAreConfirmationsOrRevocations(db, id, ops[0].waiver);
      }
      AtMostTwoUpdates(After(db, ops[0]), ops[1..], id);
    }
  }

  /** `op`, run on `db`, is the confirmation of `id` by somebody other than who granted it. */
  ghost predicate ConfirmsAs(db: Db, op: Op, id: WaiverId, granter: UserId, confirmer: UserId) {
    && op.UpdateWaiver? && op.id == id && id in db.waivers
    && db.waivers[id].grantedBy == granter
    && IsConfirmation(db.waivers[id], op.waiver) && op.waiver.confirmedBy == Some(confirmer)
  }

  lemma {:induction false} ConfirmationStays(db: Db, ops: seq<Op>, id: WaiverId)
    requires Valid(db) && id in db.waivers && db.waivers[id].Confirmed()
    ensures id in Run(db, ops).waivers
    ensures Run(db, ops).waivers[id].confirmedBy == db.waivers[id].confirmedBy
    ensures Run(db, ops).waivers[id].Confirmed()
    decreases |ops|
  {
    if ops != [] {
      StepKeepsValid(db, ops[0]);
      if ops[0].UpdateWaiver? && ops[0].id == id {
        UpdatesAreConfirmationsOrRevocations(db, id, ops[0].waiver);
      }
      ConfirmationStays(After(db, ops[0]), ops[1..], id);
    }
  }

  ghost predicate ConfirmedAt(db: Db, ops: seq<Op>, id: WaiverId, granter: UserId, confirmer: UserId, j: nat) {
    j < |ops| && ConfirmsAs(Run(db, ops[..j]), ops[j], id, granter, confirmer)
  }

  lemma OneStepLater(db: Db, ops: seq<Op>, id: WaiverId, granter: UserId, confirmer: UserId, j: nat)
    requires ops != [] && ConfirmedAt(After(db, ops[0]), ops[1..], id, granter, confirmer, j)
    ensures ConfirmedAt(db, ops, id, granter, confirmer, j + 1)
  {
    assert ops[..j + 1][0] == ops[0] && ops[..j + 1][1..] == ops[1..][..j];
  }

  /** A waiver still unconfirmed that ends up confirmed was confirmed by one statement of
      the run, in another name than the one it was granted in. */
  lemma {:induction false} ConfirmedByASecondPerson(db: Db, ops: seq<Op>, id: WaiverId)
    requires Valid(db) && id in db.waivers && !db.waivers[id].Confirmed()
    requires id in Run(db, ops).waivers && Run(db, ops).waivers[id].Confirmed()
    ensures Run(db, ops).waivers[id].confirmedBy.Some?
    ensures exists j :: ConfirmedAt(db, ops, id, db.waivers[id].grantedBy, Run(db,
            ops).waivers[id].confirmedBy.value, j)
    decreases |ops|
  {
    var next, last := After(db, ops[0]), Run(db, ops).waivers[id];
    var granter := db.waivers[id].grantedBy;
    StepKeepsValid(db, ops[0]);
    RunKeepsValid(db, ops);
    assert BrokenCheck(last).None?;
    if ops[0].UpdateWaiver? && ops[0].id == id {
      UpdatesAreConfirmationsOrRevocations(db, id, ops[0].waiver);
    }
    if next.waivers[id].Confirmed() {
      ConfirmationStays(next, ops[1..], id);
      assert ops[..0] == [];
      assert ConfirmedAt(db, ops, id, granter, last.confirmedBy.value, 0);
    } else {
      ConfirmedByASecondPerson(next, ops[1..], id);
      var j: nat :| ConfirmedAt(next, ops[1..], id, granter, last.confirmedBy.value, j);
      OneStepLater(db, ops, id, granter, last.confirmedBy.value, j);
    }
  }

  /** Proposed by the `i`th statement of the run and confirmed, by somebody else, by the `j`th. */
  ghost predicate GrantedThenConfirmed(db: Db, ops: seq<Op>, id: WaiverId, confirmer: UserId, i: nat, j: nat) {
    && i < j < |ops|
    && ops[i].ProposeWaiver? && ops[i].waiver.id == id
    && ops[i].waiver.grantedBy != confirmer
    && ConfirmedAt(db, ops, id, ops[i].waiver.grantedBy, confirmer, j)
  }

  /** Every waiver that lifts a rule at the end of a run which began without it was proposed
      by one statement and confirmed by a later one, in two different names. */
  lemma {:induction false} LiftingTakesTwoPeople(db: Db, ops: seq<Op>, id: WaiverId)
    requires Valid(db) && id !in db.waivers
    requires id in Run(db, ops).waivers
    requires var w := Run(db, ops).waivers[id]; w.Lifts(w.tenant, w.rule)
    ensures Run(db, ops).waivers[id].confirmedBy.Some?
    ensures exists i, j :: GrantedThenConfirmed(db, ops, id, Run(db, ops).waivers[id].confirmedBy.value, i, j)
    decreases |ops|
  {
    var next, last := After(db, ops[0]), Run(db, ops).waivers[id];
    StepKeepsValid(db, ops[0]);
    RunKeepsValid(db, ops);
    assert BrokenCheck(last).None?;
    var confirmer := last.confirmedBy.value;
    if id in next.waivers {
      ConfirmedByASecondPerson(next, ops[1..], id);
      var j: nat :| ConfirmedAt(next, ops[1..], id, next.waivers[id].grantedBy, confirmer, j);
      OneStepLater(db, ops, id, next.waivers[id].grantedBy, confirmer, j);
      assert GrantedThenConfirmed(db, ops, id, confirmer, 0, j + 1);
    } else {
      LiftingTakesTwoPeople(next, ops[1..], id);
      var i: nat, j: nat :| GrantedThenConfirmed(next, ops[1..], id, confirmer, i, j);
      OneStepLater(db, ops, id, ops[1..][i].waiver.grantedBy, confirmer, j);
      assert GrantedThenConfirmed(db, ops, id, confirmer, i + 1, j + 1);
    }
  }
}
