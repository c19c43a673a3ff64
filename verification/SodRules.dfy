/** The separation-of-duty rules and how one membership is judged against them.

    A rule is broken by a membership whose roles and permission sets together carry a scope
    from each of the rule's two sides. A broken rule is excused only when it is waivable and
    the membership's tenant holds an open waiver of it that a second person confirmed. */
module SodRules {
  import opened Options

  type Scope = string
  type TenantId = nat
  type UserId = nat
  type WaiverId = nat

  /** Rule keys are only ever compared by the database's collation, which is a total order:
      a key is represented by its place in that order. */
  type RuleKey = nat

  datatype Rule = Rule(description: string, left: set<Scope>, right: set<Scope>, waivable: bool)

  /** `memberships.role_keys` and `memberships.permission_set_keys`: JSON arrays of which
      the rules only ask which keys they contain. */
  datatype HeldKeys = HeldKeys(roles: set<string>, permissionSets: set<string>)

  datatype Catalogue = Catalogue(
    rules: map<RuleKey, Rule>,
    roles: map<string, set<Scope>>,
    permissionSets: map<string, set<Scope>>)

  /** A row of `platform.sod_waivers`, nullable columns as options. */
  datatype Waiver = Waiver(
    id: WaiverId, tenant: TenantId, rule: RuleKey, reason: string,
    grantedBy: UserId, grantedAt: int,
    confirmedBy: Option<UserId>, confirmedAt: Option<int>, confirmReason: Option<string>,
    revokedBy: Option<UserId>, revokedAt: Option<int>, revokeReason: Option<string>)
  {
    predicate Open() { revokedAt.None? }

    predicate Confirmed() { confirmedAt.Some? }

    /** What `sod_violation` honours: an open, confirmed waiver of that tenant and rule. */
    predicate Lifts(t: TenantId, key: RuleKey) {
      tenant == t && rule == key && Open() && Confirmed()
    }
  }

  type Waivers = map<WaiverId, Waiver>

  function ScopesOf(table: map<string, set<Scope>>, keys: set<string>): set<Scope> {
    set key, scope | key in keys && key in table && scope in table[key] :: scope
  }

  function Held(c: Catalogue, k: HeldKeys): set<Scope> {
    ScopesOf(c.roles, k.roles) + ScopesOf(c.permissionSets, k.permissionSets)
  }

  /** `sod_rule_broken`; a key with no rule is broken by nobody. */
  predicate RuleBroken(c: Catalogue, key: RuleKey, k: HeldKeys) {
    && key in c.rules
    && (exists scope :: scope in Held(c, k) && scope in c.rules[key].left)
    && (exists scope :: scope in Held(c, k) && scope in c.rules[key].right)
  }

  predicate Lifted(ws: Waivers, tenant: Option<TenantId>, key: RuleKey) {
    tenant.Some? && exists w :: w in ws && ws[w].Lifts(tenant.value, key)
  }

  predicate Violates(c: Catalogue, ws: Waivers, tenant: Option<TenantId>, k: HeldKeys, key: RuleKey) {
    RuleBroken(c, key, k) && !(c.rules[key].waivable && Lifted(ws, tenant, key))
  }

  lemma {:induction false} LeastAtOrBelow(s: set<nat>, x: nat)
    requires x in s
    ensures exists m :: m in s && forall y | y in s :: m <= y
    decreases x
  {
    if y :| y in s && y < x {
      LeastAtOrBelow(s, y);
    } else {
      assert x in s && forall y | y in s :: x <= y;
    }
  }

  function Least(s: set<nat>): (m: nat)
    requires s != {}
    ensures m in s && forall x | x in s :: m <= x
  {
    assert exists m :: m in s && forall x | x in s :: m <= x by {
      var x :| x in s;
      LeastAtOrBelow(s, x);
    }
    var m :| m in s && forall x | x in s :: m <= x;
    m
  }

  /** `ORDER BY key`: every key once, ascending. */
  function InKeyOrder(keys: set<RuleKey>): (order: seq<RuleKey>)
    ensures forall i, j | 0 <= i < j < |order| :: order[i] < order[j]
    ensures forall key :: key in order <==> key in keys
  {
    if keys == {} then []
    else
      var first := Least(keys);
      var rest := InKeyOrder(keys - {first});
      assert forall i | 0 <= i < |rest| :: rest[i] in rest;
      [first] + rest
  }

  function Violating(c: Catalogue, ws: Waivers, tenant: Option<TenantId>, k: HeldKeys): set<RuleKey> {
    set key | key in c.rules && Violates(c, ws, tenant, k, key)
  }

  /** What `sod_violation` must answer: the least key among the rules broken and not excused. */
  function Violation(c: Catalogue, ws: Waivers, tenant: Option<TenantId>, k: HeldKeys): Option<RuleKey> {
    var keys := Violating(c, ws, tenant, k);
    if keys == {} then None else Some(Least(keys))
  }

  /** `w` excuses `tenant`, holding `k`, from a rule that it breaks. */
  predicate Excuses(c: Catalogue, w: Waiver, tenant: Option<TenantId>, k: HeldKeys) {
    tenant.Some? && w.Lifts(tenant.value, w.rule) && RuleBroken(c, w.rule, k) && c.rules[w.rule].waivable
  }

  /** The waivers `sod_violation` leaves locked FOR SHARE: those that excuse from a rule the
      loop reaches before it stops. */
  function ReliedOn(c: Catalogue, ws: Waivers, tenant: Option<TenantId>, k: HeldKeys): set<WaiverId> {
    var stop := Violation(c, ws, tenant, k);
    set w | w in ws && Excuses(c, ws[w], tenant, k) && (stop.None? || ws[w].rule < stop.value)
  }

  /** The rows the `SELECT ... FOR SHARE` of one broken rule returns, and locks. */
  function Matching(c: Catalogue, ws: Waivers, tenant: Option<TenantId>, key: RuleKey): (rows: set<WaiverId>)
    requires key in c.rules
  {
    if c.rules[key].waivable && tenant.Some?
    then set w | w in ws && ws[w].Lifts(tenant.value, key)
    else {}
  }

  lemma MatchingExcuses(c: Catalogue, ws: Waivers, tenant: Option<TenantId>, k: HeldKeys, key: RuleKey)
    requires RuleBroken(c, key, k)
    ensures Violates(c, ws, tenant, k, key) <==> Matching(c, ws, tenant, key) == {}
    ensures forall w :: w in Matching(c, ws, tenant, key) <==>
                          w in ws && Excuses(c, ws[w], tenant, k) && ws[w].rule == key
  {
    if w :| w in ws && tenant.Some? && ws[w].Lifts(tenant.value, key) && c.rules[key].waivable {
      assert w in Matching(c, ws, tenant, key);
    }
  }

  /** The waivers locked once the rules of `seen` have been dealt with. */
  function Excusing(c: Catalogue, ws: Waivers, tenant: Option<TenantId>, k: HeldKeys,
      seen: seq<RuleKey>): set<WaiverId> {
    set w | w in ws && ws[w].rule in seen && Excuses(c, ws[w], tenant, k)
  }

  lemma ExcusingOneMore(c: Catalogue, ws: Waivers, tenant: Option<TenantId>, k: HeldKeys,
                        seen: seq<RuleKey>, key: RuleKey)
    requires key in c.rules
    ensures RuleBroken(c, key, k) ==>
              && (Violates(c, ws, tenant, k, key) <==> Matching(c, ws, tenant, key) == {})
              && Excusing(c, ws, tenant, k, seen + [key])
                 == Excusing(c, ws, tenant, k, seen) + Matching(c, ws, tenant, key)
    ensures !RuleBroken(c, key, k) ==>
              Excusing(c, ws, tenant, k, seen + [key]) == Excusing(c, ws, tenant, k, seen)
  {
    if RuleBroken(c, key, k) {
      MatchingExcuses(c, ws, tenant, k, key);
    }
  }

  ghost predicate NoneViolates(c: Catalogue, ws: Waivers, tenant: Option<TenantId>, k: HeldKeys, seen: seq<RuleKey>) {
    forall key | key in seen :: !Violates(c, ws, tenant, k, key)
  }

  lemma NoneViolatesOneMore(c: Catalogue, ws: Waivers, tenant: Option<TenantId>, k: HeldKeys,
                            seen: seq<RuleKey>, key: RuleKey)
    requires key in c.rules && NoneViolates(c, ws, tenant, k, seen)
    ensures NoneViolates(c, ws, tenant, k, seen + [key]) <==> !Violates(c, ws, tenant, k, key)
    ensures !RuleBroken(c, key, k) ==> !Violates(c, ws, tenant, k, key)
  {
    assert key in seen + [key];
  }

  /** The three-argument `sod_violation`: the rules in key order, each broken one either
      excused by a waiver, which is then locked, or returned. */
  method SodViolation(c: Catalogue, ws: Waivers, tenant: Option<TenantId>, k: HeldKeys)
    returns (found: Option<RuleKey>, locked: set<WaiverId>)
    ensures found == Violation(c, ws, tenant, k)
    ensures locked == ReliedOn(c, ws, tenant, k)
  {
    var order := InKeyOrder(c.rules.Keys);
    locked := {};
    var i := 0;
    while i < |order|
      invariant 0 <= i <= |order|
      invariant NoneViolates(c, ws, tenant, k, order[..i])
      invariant locked == Excusing(c, ws, tenant, k, order[..i])
    {
      var candidate := order[i];
      assert candidate in order;
      assert order[..i + 1] == order[..i] + [candidate];
      ExcusingOneMore(c, ws, tenant, k, order[..i], candidate);
      NoneViolatesOneMore(c, ws, tenant, k, order[..i], candidate);
      if RuleBroken(c, candidate, k) {
        var rows := Matching(c, ws, tenant, candidate);
        if rows == {} {
          FirstViolation(c, ws, tenant, k, order, i);
          return Some(candidate), locked;
        }
        locked := locked + rows;
      }
      i := i + 1;
    }
    assert order[..i] == order;
    NothingViolated(c, ws, tenant, k, order);
    return None, locked;
  }

  lemma NothingViolated(c: Catalogue, ws: Waivers, tenant: Option<TenantId>, k: HeldKeys, order: seq<RuleKey>)
    requires forall key :: key in order <==> key in c.rules
    requires NoneViolates(c, ws, tenant, k, order)
    ensures Violation(c, ws, tenant, k) == None
    ensures Excusing(c, ws, tenant, k, order) == ReliedOn(c, ws, tenant, k)
  {
    forall key | key in c.rules
      ensures !Violates(c, ws, tenant, k, key)
    {
      assert key in order;
    }
    assert Violating(c, ws, tenant, k) == {};
  }

  /** The first offender in key order is the least offender. */
  lemma FirstViolation(c: Catalogue, ws: Waivers, tenant: Option<TenantId>, k: HeldKeys,
                       order: seq<RuleKey>, i: nat)
    requires i < |order|
    requires forall a, b | 0 <= a < b < |order| :: order[a] < order[b]
    requires forall key :: key in order <==> key in c.rules
    requires NoneViolates(c, ws, tenant, k, order[..i])
    requires Violates(c, ws, tenant, k, order[i])
    ensures Violation(c, ws, tenant, k) == Some(order[i])
    ensures Excusing(c, ws, tenant, k, order[..i]) == ReliedOn(c, ws, tenant, k)
  {
    var keys := Violating(c, ws, tenant, k);
    assert order[i] in keys;
    forall key | key in c.rules && key < order[i]
      ensures key in order[..i] && key !in keys
    {
      assert key in order;
      var j :| 0 <= j < |order| && order[j] == key;
      assert j < i;
    }
    assert Least(keys) == order[i];
    assert forall key :: key in order[..i] ==> key in order && key < order[i];
  }

  predicate HoldsBothSides(held: set<Scope>, rule: Rule) {
    held * rule.left != {} && held * rule.right != {}
  }

  function BrokenAlone(c: Catalogue, k: HeldKeys): set<RuleKey> {
    set key | key in c.rules && HoldsBothSides(Held(c, k), c.rules[key])
  }

  /** The two-argument `sod_violation` this replaced: one query over the held scopes. */
  function ViolationOfRulesAlone(c: Catalogue, k: HeldKeys): Option<RuleKey> {
    var broken := BrokenAlone(c, k);
    if broken == {} then None else Some(Least(broken))
  }

  /** Asked with a NULL tenant, the looping function answers as the single query did. */
  lemma NullTenantAsksTheRulesAlone(c: Catalogue, ws: Waivers, k: HeldKeys)
    ensures Violation(c, ws, None, k) == ViolationOfRulesAlone(c, k)
  {
    forall key | key in c.rules
      ensures Violates(c, ws, None, k, key) <==> HoldsBothSides(Held(c, k), c.rules[key])
    {
      MeetsMeansShared(Held(c, k), c.rules[key].left);
      MeetsMeansShared(Held(c, k), c.rules[key].right);
    }
    assert Violating(c, ws, None, k) == BrokenAlone(c, k);
  }

  lemma MeetsMeansShared(a: set<Scope>, b: set<Scope>)
    ensures a * b != {} <==> exists scope :: scope in a && scope in b
  {
    if scope :| scope in a && scope in b {
      assert scope in a * b;
    }
    if a * b != {} {
      var scope :| scope in a * b;
    }
  }

  /** A membership no rule forbids its tenant to have. */
  ghost predicate Safe(c: Catalogue, ws: Waivers, tenant: TenantId, k: HeldKeys) {
    forall key | key in c.rules && RuleBroken(c, key, k) ::
      && c.rules[key].waivable
      && exists w :: w in ws && ws[w].Lifts(tenant, key)
  }

  lemma NoViolationIsSafe(c: Catalogue, ws: Waivers, tenant: TenantId, k: HeldKeys)
    ensures Violation(c, ws, Some(tenant), k).None? <==> Safe(c, ws, tenant, k)
  {
    if Violation(c, ws, Some(tenant), k).None? {
      forall key | key in c.rules && RuleBroken(c, key, k)
        ensures c.rules[key].waivable && exists w :: w in ws && ws[w].Lifts(tenant, key)
      {
        assert key !in Violating(c, ws, Some(tenant), k);
      }
    }
  }
}
