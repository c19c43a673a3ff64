/** The four tables as the database updates them: each method is a statement with the
    triggers it fires, and does to the tables exactly what `SodDatabase.Apply` says. */
module SodPlatform {
  import opened Options
  import opened SodRules
  import opened SodDatabase

  /** `after` and `refused` are what `op` makes of `before`. */
  ghost predicate Effect(before: Db, op: Op, after: Db, refused: Option<Refusal>) {
    match Apply(before, op)
    case Accepted(db) => after == db && refused == None
    case Refused(why) => after == before && refused == Some(why)
  }

  lemma CountOneMore(all: set<MembershipId>, left: set<MembershipId>, m: MembershipId)
    requires m in left
    ensures |all - (left - {m})| == |all - left| + if m in all then 1 else 0
  {
    if m in all {
      assert all - (left - {m}) == (all - left) + {m};
    } else {
      assert all - (left - {m}) == all - left;
    }
  }

  class Platform {
    var catalogue: Catalogue
    var memberships: map<MembershipId, Membership>
    var waivers: Waivers

    constructor (catalogue: Catalogue, memberships: map<MembershipId, Membership>, waivers: Waivers)
      ensures Tables() == Db(catalogue, memberships, waivers)
    {
      this.catalogue := catalogue;
      this.memberships := memberships;
      this.waivers := waivers;
    }

    function Tables(): Db
      reads this
    {
      Db(catalogue, memberships, waivers)
    }

    /** An insert, or an update of the keys, with `enforce_separation_of_duties` before it. */
    method WriteMembership(id: MembershipId, row: Membership) returns (refused: Option<Refusal>)
      modifies this`memberships
      ensures Effect(old(Tables()), Op.WriteMembership(id, row), Tables(), refused)
    {
      var broken, _ := SodViolation(catalogue, waivers, Some(row.tenant), row.held);
      if broken.Some? {
        return Some(BreaksRule(broken.value));
      }
      memberships := memberships[id := row];
      return None;
    }

    method DeleteMembership(id: MembershipId)
      modifies this`memberships
      ensures Effect(old(Tables()), Op.DeleteMembership(id), Tables(), None)
    {
      memberships := memberships - {id};
    }

    /** An insert with `guard_sod_waiver` before it. */
    method ProposeWaiver(w: Waiver) returns (refused: Option<Refusal>)
      modifies this`waivers
      ensures Effect(old(Tables()), Op.ProposeWaiver(w), Tables(), refused)
    {
      refused := GuardInsert(catalogue, w);
      if refused.None? {
        refused := BrokenCheck(w);
      }
      if refused.Some? {
        return;
      }
      if w.id in waivers {
        return Some(IdTaken);
      }
      if w.Open() && OpenElsewhere(waivers, w) {
        return Some(AlreadyOpen);
      }
      waivers := waivers[w.id := w];
    }

    /** An update with `guard_sod_waiver` before it and, when it closes the waiver,
        `refuse_revoking_a_waiver_in_use` after it: the row is already changed when the
        memberships are counted, and changed back when there are any. */
    method UpdateWaiver(id: WaiverId, w: Waiver) returns (refused: Option<Refusal>)
      modifies this`waivers
      ensures Effect(old(Tables()), Op.UpdateWaiver(id, w), Tables(), refused)
    {
      if id !in waivers {
        return Some(NoSuchRow);
      }
      var before := waivers;
      refused := GuardUpdate(before[id], w);
      if refused.None? {
        refused := BrokenCheck(w);
      }
      if refused.Some? {
        return;
      }
      waivers := waivers[id := w];
      if before[id].revokedAt.None? && w.revokedAt.Some? {
        var relying := CountRelying(w);
        if relying > 0 {
          waivers := before;
          return Some(StillReliedOn(relying));
        }
      }
    }

    /** `SELECT count(*)` over the tenant's memberships that break the waiver's rule. */
    method CountRelying(w: Waiver) returns (relying: nat)
      ensures relying == |Relying(Tables(), w)|
      ensures relying == 0 <==> Relying(Tables(), w) == {}
    {
      relying := 0;
      var left := memberships.Keys;
      ghost var all := Relying(Tables(), w);
      while left != {}
        invariant left <= memberships.Keys
        invariant relying == |all - left|
        decreases |left|
      {
        var m :| m in left;
        CountOneMore(all, left, m);
        left := left - {m};
        if memberships[m].tenant == w.tenant && RuleBroken(catalogue, w.rule, memberships[m].held) {
          relying := relying + 1;
        }
      }
      assert all - left == all;
    }

    /** An update of a role's or a permission set's scopes, with
        `refuse_scope_change_breaking_memberships` after it if it fires: every holder is judged by the
        catalogue as it will be. */
    method ChangeScopes(table: ScopeTable, key: string, scopes: set<Scope>, rearranged: bool)
      returns (refused: Option<Refusal>)
      modifies this`catalogue
      ensures Effect(old(Tables()), Op.ChangeScopes(table, key, scopes, rearranged), Tables(), refused)
    {
      if !HasRow(catalogue, table, key) {
        return Some(NoSuchRow);
      }
      var before := Tables();
      catalogue := WithScopes(catalogue, table, key, scopes);
      if !Fires(before.catalogue, table, key, scopes, rearranged) {
        return None;
      }
      var caught := JudgeHolders(before, table, key);
      if caught != {} {
        refused := Some(ScopeRefusal(before, catalogue, caught));
        catalogue := before.catalogue;
      } else {
        refused := None;
      }
    }

    /** `sod_violation` over every membership that names the role or set, as the rows stand. */
    method JudgeHolders(db: Db, table: ScopeTable, key: string) returns (caught: set<MembershipId>)
      ensures caught == Caught(db, catalogue, table, key)
    {
      caught := {};
      var left := db.memberships.Keys;
      while left != {}
        invariant left <= db.memberships.Keys
        invariant caught == Caught(db, catalogue, table, key) - left
        decreases |left|
      {
        var m :| m in left;
        left := left - {m};
        var violation := JudgeHolder(db, catalogue, table, key, m);
        if violation.Some? {
          caught := caught + {m};
        }
      }
    }
  }

  /** `sod_violation` for one membership, if it names the role or set at all. */
  method JudgeHolder(db: Db, c: Catalogue, table: ScopeTable, key: string, m: MembershipId)
    returns (violation: Option<RuleKey>)
    requires m in db.memberships
    ensures violation.Some? <==> m in Caught(db, c, table, key)
    ensures violation.Some? ==> violation == Judged(db, c, m)
  {
    if !Names(table, db.memberships[m].held, key) {
      return None;
    }
    var found, _ := SodViolation(c, db.waivers, Some(db.memberships[m].tenant), db.memberships[m].held);
    return found;
  }
}
