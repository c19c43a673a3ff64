/** Every verdict of the separation-of-duty triggers, said from the rows of the tables: which
    roles and permission sets a membership names, which scopes each of them carries, and which
    waivers its tenant holds. */
module SodVerdicts {
  import opened Options
  import opened SodRules
  import opened SodDatabase

  /** A role the membership names carries a scope of this side of a rule. */
  ghost predicate RoleCarries(c: Catalogue, k: HeldKeys, side: set<Scope>) {
    exists role, scope :: role in k.roles && role in c.roles && scope in c.roles[role] && scope in side
  }

  /** A permission set the membership names does. */
  ghost predicate SetCarries(c: Catalogue, k: HeldKeys, side: set<Scope>) {
    exists name, scope ::
      name in k.permissionSets && name in c.permissionSets && scope in c.permissionSets[name] && scope in side
  }

  /** The membership carries a scope of each side of the rule, by whichever table. */
  ghost predicate CarriesBoth(c: Catalogue, k: HeldKeys, rule: Rule) {
    && (RoleCarries(c, k, rule.left) || SetCarries(c, k, rule.left))
    && (RoleCarries(c, k, rule.right) || SetCarries(c, k, rule.right))
  }

  /** Some waiver of this tenant and rule is confirmed and not revoked. */
  ghost predicate WaivedFor(ws: Waivers, tenant: TenantId, key: RuleKey) {
    exists w :: w in ws && ws[w].tenant == tenant && ws[w].rule == key
                && ws[w].confirmedAt.Some? && ws[w].revokedAt.None?
  }

  /** A rule stands between this tenant and a membership that holds `k`. */
  ghost predicate Forbids(c: Catalogue, ws: Waivers, tenant: TenantId, k: HeldKeys, key: RuleKey) {
    && key in c.rules && CarriesBoth(c, k, c.rules[key])
    && !(c.rules[key].waivable && WaivedFor(ws, tenant, key))
  }

  lemma HeldMeetsMeansCarried(c: Catalogue, k: HeldKeys, side: set<Scope>)
    ensures (exists scope :: scope in Held(c, k) && scope in side)
            <==> RoleCarries(c, k, side) || SetCarries(c, k, side)
  {
    if scope :| scope in Held(c, k) && scope in side {
      if scope in ScopesOf(c.roles, k.roles) {
        var role :| role in k.roles && role in c.roles && scope in c.roles[role];
        assert RoleCarries(c, k, side);
      } else {
        var name :| name in k.permissionSets && name in c.permissionSets && scope in c.permissionSets[name];
        assert SetCarries(c, k, side);
      }
    }
    if role, scope :| role in k.roles && role in c.roles && scope in c.roles[role] && scope in side {
      assert scope in ScopesOf(c.roles, k.roles);
      assert scope in Held(c, k);
    }
    if name, scope :| name in k.permissionSets && name in c.permissionSets
                      && scope in c.permissionSets[name] && scope in side {
      assert scope in ScopesOf(c.permissionSets, k.permissionSets);
      assert scope in Held(c, k);
    }
  }

  /** `sod_rule_broken`: one scope from each side, each from a role or from a permission set. */
  lemma BrokenMeansCarried(c: Catalogue, key: RuleKey, k: HeldKeys)
    ensures RuleBroken(c, key, k) <==> key in c.rules && CarriesBoth(c, k, c.rules[key])
  {
    if key in c.rules {
      HeldMeetsMeansCarried(c, k, c.rules[key].left);
      HeldMeetsMeansCarried(c, k, c.rules[key].right);
    }
  }

  lemma ViolatesMeansForbids(c: Catalogue, ws: Waivers, tenant: TenantId, k: HeldKeys, key: RuleKey)
    ensures Violates(c, ws, Some(tenant), k, key) <==> Forbids(c, ws, tenant, k, key)
  {
    BrokenMeansCarried(c, key, k);
    assert Lifted(ws, Some(tenant), key) <==> WaivedFor(ws, tenant, key) by {
      if w :| w in ws && ws[w].tenant == tenant && ws[w].rule == key
              && ws[w].confirmedAt.Some? && ws[w].revokedAt.None? {
        assert ws[w].Lifts(tenant, key);
      }
      if w :| w in ws && ws[w].Lifts(tenant, key) {
        assert ws[w].confirmedAt.Some? && ws[w].revokedAt.None?;
      }
    }
  }

  /** The verdict on held keys: the first forbidding rule in key order, or none. */
  ghost predicate FirstForbidding(c: Catalogue, ws: Waivers, tenant: TenantId, k: HeldKeys, key: RuleKey) {
    Forbids(c, ws, tenant, k, key) && forall other: RuleKey | other < key :: !Forbids(c, ws, tenant, k, other)
  }

  lemma ViolationMeansForbids(c: Catalogue, ws: Waivers, tenant: TenantId, k: HeldKeys)
    ensures forall key: RuleKey ::
              Violation(c, ws, Some(tenant), k) == Some(key) <==> FirstForbidding(c, ws, tenant, k, key)
    ensures Violation(c, ws, Some(tenant), k).Some? <==> exists key :: Forbids(c, ws, tenant, k, key)
  {
    var keys := Violating(c, ws, Some(tenant), k);
    forall key
      ensures key in keys <==> Forbids(c, ws, tenant, k, key)
    {
      ViolatesMeansForbids(c, ws, tenant, k, key);
    }
    if key :| Forbids(c, ws, tenant, k, key) {
      assert key in keys;
      assert Least(keys) in keys;
    }
    forall key: RuleKey
      ensures Violation(c, ws, Some(tenant), k) == Some(key) <==> FirstForbidding(c, ws, tenant, k, key)
    {
      if FirstForbidding(c, ws, tenant, k, key) {
        assert key in keys;
        assert Forbids(c, ws, tenant, k, Least(keys));
      }
    }
  }

  /** A membership is written if and only if no rule forbids it, and then nothing else changes;
      a refusal names the first rule that does. */
  lemma WriteIsRefusedExactly(db: Db, id: MembershipId, row: Membership)
    ensures Apply(db, WriteMembership(id, row)).Refused?
            <==> exists key :: Forbids(db.catalogue, db.waivers, row.tenant, row.held, key)
    ensures forall key: RuleKey ::
              Apply(db, WriteMembership(id, row)) == Refused(BreaksRule(key))
              <==> FirstForbidding(db.catalogue, db.waivers, row.tenant, row.held, key)
    ensures Apply(db, WriteMembership(id, row)).Accepted? ==>
              After(db, WriteMembership(id, row)) == Db(db.catalogue, db.memberships[id := row], db.waivers)
  {
    ViolationMeansForbids(db.catalogue, db.waivers, row.tenant, row.held);
  }

  /** Which of the two tables a scope comes from never matters: naming a permission set instead
      of a role with the same scopes is judged alike, by the same waivers. */
  lemma MovingAKeyChangesNoVerdict(c: Catalogue, ws: Waivers, tenant: Option<TenantId>, k: HeldKeys,
                                   role: string, name: string)
    requires role in c.roles && name in c.permissionSets && c.roles[role] == c.permissionSets[name]
    ensures var asRole := HeldKeys(k.roles + {role}, k.permissionSets);
            var asSet := HeldKeys(k.roles, k.permissionSets + {name});
            && Violation(c, ws, tenant, asRole) == Violation(c, ws, tenant, asSet)
            && ReliedOn(c, ws, tenant, asRole) == ReliedOn(c, ws, tenant, asSet)
  {
    var asRole := HeldKeys(k.roles + {role}, k.permissionSets);
    var asSet := HeldKeys(k.roles, k.permissionSets + {name});
    OneMoreKey(c.roles, k.roles, role);
    OneMoreKey(c.permissionSets, k.permissionSets, name);
    assert Held(c, asRole) == Held(c, asSet);
    assert forall key :: RuleBroken(c, key, asRole) <==> RuleBroken(c, key, asSet);
    assert Violating(c, ws, tenant, asRole) == Violating(c, ws, tenant, asSet);
  }

  lemma OneMoreKey(table: map<string, set<Scope>>, keys: set<string>, key: string)
    requires key in table
    ensures ScopesOf(table, keys + {key}) == ScopesOf(table, keys) + table[key]
  {
    forall scope
      ensures scope in ScopesOf(table, keys + {key}) <==> scope in ScopesOf(table, keys) + table[key]
    {
      if scope in table[key] {
        assert key in keys + {key};
      } else if scope in ScopesOf(table, keys) {
        var other :| other in keys && other in table && scope in table[other];
        assert other in keys + {key};
      }
    }
  }

  /** The waivers a write leaves locked, from the rows: open, confirmed, of this tenant, for a
      waivable rule carried on both sides, and reached before any rule forbids. */
  lemma LockedExactly(c: Catalogue, ws: Waivers, tenant: TenantId, k: HeldKeys, w: WaiverId)
    ensures w in ReliedOn(c, ws, Some(tenant), k) <==>
              && w in ws && ws[w].tenant == tenant && ws[w].confirmedAt.Some? && ws[w].revokedAt.None?
              && ws[w].rule in c.rules && c.rules[ws[w].rule].waivable && CarriesBoth(c, k, c.rules[ws[w].rule])
              && forall key: RuleKey | key < ws[w].rule :: !Forbids(c, ws, tenant, k, key)
  {
    if w in ws && Excuses(c, ws[w], Some(tenant), k) {
      BrokenMeansCarried(c, ws[w].rule, k);
      ViolationMeansForbids(c, ws, tenant, k);
      assert WaivedFor(ws, tenant, ws[w].rule);
      assert !Forbids(c, ws, tenant, k, ws[w].rule);
      var stop := Violation(c, ws, Some(tenant), k);
      if stop.Some? {
        assert FirstForbidding(c, ws, tenant, k, stop.value);
        assert stop.value != ws[w].rule;
      }
    } else if w in ws {
      BrokenMeansCarried(c, ws[w].rule, k);
    }
  }

  /** Both blank or both filled in, as three columns of one event are. */
  predicate AllOrNone(who: Option<UserId>, at: Option<int>, reason: Option<string>) {
    (who.None? && at.None? && reason.None?) || (who.Some? && at.Some? && reason.Some?)
  }

  /** Some character is not a space. */
  predicate SaysSomething(s: string) {
    exists i | 0 <= i < |s| :: s[i] != ' '
  }

  lemma NonBlankSays(s: string)
    ensures NonBlank(s) <==> SaysSomething(s)
  {
    if c :| c in s && c != ' ' {
      var i :| 0 <= i < |s| && s[i] == c;
    }
    if i :| 0 <= i < |s| && s[i] != ' ' {
      assert s[i] in s;
    }
  }

  /** A waiver is taken if and only if its rule is there and waivable, nobody has confirmed it yet,
      its reasons say something, its revocation is whole or absent, its id is new, and, if it is
      open, no other of that tenant and rule is. Then nothing else changes. */
  lemma ProposedExactly(db: Db, w: Waiver)
    ensures Apply(db, ProposeWaiver(w)).Accepted? <==>
              && w.rule in db.catalogue.rules && db.catalogue.rules[w.rule].waivable
              && w.confirmedAt.None? && w.confirmedBy.None? && w.confirmReason.None?
              && SaysSomething(w.reason)
              && AllOrNone(w.revokedBy, w.revokedAt, w.revokeReason)
              && (w.revokeReason.Some? ==> SaysSomething(w.revokeReason.value))
              && w.id !in db.waivers
              && (w.revokedAt.None? ==>
                    forall other | other in db.waivers && db.waivers[other].revokedAt.None? ::
                      db.waivers[other].tenant != w.tenant || db.waivers[other].rule != w.rule)
    ensures Apply(db, ProposeWaiver(w)).Accepted? ==>
              After(db, ProposeWaiver(w)) == Db(db.catalogue, db.memberships, db.waivers[w.id := w])
  {
    NonBlankSays(w.reason);
    if w.revokeReason.Some? {
      NonBlankSays(w.revokeReason.value);
    }
    if w.confirmReason.Some? {
      NonBlankSays(w.confirmReason.value);
    }
  }

  /** The membership leans on the waiver: same tenant, and its keys carry both sides of the rule. */
  ghost predicate LeansOn(db: Db, w: Waiver, m: MembershipId) {
    && m in db.memberships && db.memberships[m].tenant == w.tenant
    && w.rule in db.catalogue.rules && CarriesBoth(db.catalogue, db.memberships[m].held, db.catalogue.rules[w.rule])
  }

  /** A well-formed revocation is refused if and only if some membership leans on the waiver, and
      counts those that do; otherwise it moves that row and nothing else. */
  lemma RevocationIsRefusedExactly(db: Db, id: WaiverId, w: Waiver)
    requires Valid(db) && id in db.waivers && IsRevocation(db.waivers[id], w)
    ensures Apply(db, UpdateWaiver(id, w)).Refused? <==> exists m :: LeansOn(db, w, m)
    ensures Apply(db, UpdateWaiver(id, w)).Refused? ==>
              var leaning := set m | m in db.memberships && LeansOn(db, w, m);
              Apply(db, UpdateWaiver(id, w)) == Refused(StillReliedOn(|leaning|))
    ensures Apply(db, UpdateWaiver(id, w)).Accepted? ==>
              After(db, UpdateWaiver(id, w)) == Db(db.catalogue, db.memberships, db.waivers[id := w])
  {
    var leaning := set m | m in db.memberships && LeansOn(db, w, m);
    forall m
      ensures m in Relying(db, w) <==> LeansOn(db, w, m)
    {
      if m in db.memberships {
        BrokenMeansCarried(db.catalogue, w.rule, db.memberships[m].held);
      }
    }
    assert leaning == Relying(db, w);
    UpdatesAreConfirmationsOrRevocations(db, id, w);
    assert BrokenCheck(db.waivers[id]).None? && BrokenCheck(w).None?;
    if m :| LeansOn(db, w, m) {
      assert m in Relying(db, w);
    }
  }

  /** Any other update that is taken is a confirmation; it moves that row and nothing else, and there is none
      of a waiver that is not there. A deletion is always taken, and takes that membership alone. */
  lemma OtherStatementsWriteTheirRow(db: Db, id: WaiverId, w: Waiver, m: MembershipId)
    requires Valid(db)
    ensures id !in db.waivers ==> Apply(db, UpdateWaiver(id, w)).Refused?
    ensures id in db.waivers && IsConfirmation(db.waivers[id], w) ==>
              Apply(db, UpdateWaiver(id, w)) == Accepted(Db(db.catalogue, db.memberships, db.waivers[id := w]))
    ensures id in db.waivers && !IsConfirmation(db.waivers[id], w) && !IsRevocation(db.waivers[id], w) ==>
              Apply(db, UpdateWaiver(id, w)).Refused?
    ensures Apply(db, DeleteMembership(m)) == Accepted(Db(db.catalogue, db.memberships - {m}, db.waivers))
  {
    if id in db.waivers {
      UpdatesAreConfirmationsOrRevocations(db, id, w);
      assert BrokenCheck(db.waivers[id]).None?;
    }
  }

  /** The catalogue once a role or a permission set carries other scopes. */
  function Rescoped(c: Catalogue, table: ScopeTable, key: string, scopes: set<Scope>): Catalogue {
    if table == Roles
    then Catalogue(c.rules, c.roles[key := scopes], c.permissionSets)
    else Catalogue(c.rules, c.roles, c.permissionSets[key := scopes])
  }

  /** The membership names the key, and under the catalogue `c` this rule forbids it. */
  ghost predicate HolderForbidden(db: Db, c: Catalogue, table: ScopeTable, key: string, m: MembershipId,
                                  rule: RuleKey) {
    && m in db.memberships
    && key in (if table == Roles then db.memberships[m].held.roles else db.memberships[m].held.permissionSets)
    && Forbids(c, db.waivers, db.memberships[m].tenant, db.memberships[m].held, rule)
  }

  ghost function ForbiddenHolders(db: Db, c: Catalogue, table: ScopeTable, key: string): set<MembershipId> {
    set m | m in db.memberships && exists rule :: HolderForbidden(db, c, table, key, m, rule)
  }

  lemma CaughtMeansForbidden(db: Db, c: Catalogue, table: ScopeTable, key: string, m: MembershipId)
    ensures m in Caught(db, c, table, key) <==> exists rule :: HolderForbidden(db, c, table, key, m, rule)
    ensures m in Caught(db, c, table, key) ==>
              && HolderForbidden(db, c, table, key, m, Judged(db, c, m).value)
              && forall rule | HolderForbidden(db, c, table, key, m, rule) :: Judged(db, c, m).value <= rule
  {
    if m in db.memberships {
      ViolationMeansForbids(c, db.waivers, db.memberships[m].tenant, db.memberships[m].held);
      if rule :| Forbids(c, db.waivers, db.memberships[m].tenant, db.memberships[m].held, rule) {
        if Names(table, db.memberships[m].held, key) {
          assert HolderForbidden(db, c, table, key, m, rule);
        }
      }
    }
  }

  lemma CaughtAreForbidden(db: Db, c: Catalogue, table: ScopeTable, key: string)
    ensures Caught(db, c, table, key) == ForbiddenHolders(db, c, table, key)
    ensures Caught(db, c, table, key) != {} <==> exists m, rule :: HolderForbidden(db, c, table, key, m, rule)
  {
    var caught := Caught(db, c, table, key);
    forall m
      ensures m in caught <==> exists rule :: HolderForbidden(db, c, table, key, m, rule)
    {
      CaughtMeansForbidden(db, c, table, key, m);
    }
    if m, rule :| HolderForbidden(db, c, table, key, m, rule) {
      assert m in caught;
    }
    if caught != {} {
      var m :| m in caught;
      assert exists rule :: HolderForbidden(db, c, table, key, m, rule);
    }
  }

  /** New scopes are taken if and only if the stored scopes stay what they were, down to their order,
      or the catalogue to be forbids no membership that names the key. A refusal names the least rule
      that would forbid one, and how many memberships some rule would. */
  lemma ScopeChangeIsRefusedExactly(db: Db, table: ScopeTable, key: string, scopes: set<Scope>, rearranged: bool)
    requires key in if table == Roles then db.catalogue.roles else db.catalogue.permissionSets
    ensures var op := ChangeScopes(table, key, scopes, rearranged);
            var c := Rescoped(db.catalogue, table, key, scopes);
            && (Apply(db, op).Refused? <==>
                  && (rearranged || c != db.catalogue)
                  && exists m, rule :: HolderForbidden(db, c, table, key, m, rule))
            && (Apply(db, op).Accepted? ==> After(db, op) == Db(c, db.memberships, db.waivers))
            && (Apply(db, op).Refused? ==>
                  && Apply(db, op).why.ScopeChangeBreaks?
                  && (exists m :: HolderForbidden(db, c, table, key, m, Apply(db, op).why.rule))
                  && (forall m, rule | HolderForbidden(db, c, table, key, m, rule) :: Apply(db, op).why.rule <= rule)
                  && Apply(db, op).why.memberships ==
                     |ForbiddenHolders(db, c, table, key)|)
  {
    var c := Rescoped(db.catalogue, table, key, scopes);
    assert c == WithScopes(db.catalogue, table, key, scopes);
    FiresMeansChanged(db.catalogue, table, key, scopes, rearranged);
    CaughtAreForbidden(db, c, table, key);
    if Caught(db, c, table, key) != {} {
      LeastOfTheCaught(db, c, table, key);
    }
  }

  lemma FiresMeansChanged(c: Catalogue, table: ScopeTable, key: string, scopes: set<Scope>, rearranged: bool)
    requires HasRow(c, table, key)
    ensures Fires(c, table, key, scopes, rearranged) <==> rearranged || Rescoped(c, table, key, scopes) != c
  {
    if table == Roles {
      if scopes == c.roles[key] {
        assert c.roles[key := scopes] == c.roles;
      } else {
        assert c.roles[key := scopes][key] != c.roles[key];
      }
    } else if scopes == c.permissionSets[key] {
      assert c.permissionSets[key := scopes] == c.permissionSets;
    } else {
      assert c.permissionSets[key := scopes][key] != c.permissionSets[key];
    }
  }

  lemma LeastOfTheCaught(db: Db, c: Catalogue, table: ScopeTable, key: string)
    requires Caught(db, c, table, key) != {}
    ensures var caught := Caught(db, c, table, key);
            var rule := ScopeRefusal(db, c, caught).rule;
            && (exists m :: HolderForbidden(db, c, table, key, m, rule))
            && forall m, other | HolderForbidden(db, c, table, key, m, other) :: rule <= other
  {
    var caught := Caught(db, c, table, key);
    var rules := RulesBrokenBy(db, c, caught);
    var first := ScopeRefusal(db, c, caught).rule;
    assert first in rules;
    var who :| who in caught && Judged(db, c, who).value == first;
    CaughtMeansForbidden(db, c, table, key, who);
    forall m, other | HolderForbidden(db, c, table, key, m, other)
      ensures first <= other
    {
      CaughtMeansForbidden(db, c, table, key, m);
      assert Judged(db, c, m).value in rules;
    }
  }
}
