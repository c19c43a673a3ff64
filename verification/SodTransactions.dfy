/** Separation of duties under concurrency.

    Transactions run interleaved at READ COMMITTED: a statement sees what is committed when
    it starts plus its own transaction's changes. A membership write judges the rules one at
    a time, share-locks the waivers that excuse it, and only then writes; revoking takes the
    waiver's row lock first and counts the memberships relying on it afterwards. Nothing a
    transaction does is visible to others before it commits. */
module SodTransactions {
  import opened Options
  import opened SodRules
  import opened SodDatabase

  /** What a transaction keeps others away from until it ends: membership rows it writes,
      waivers it holds FOR SHARE, waivers it inserted or is updating, and the entries of
      `uq_sod_waivers_open` that it inserted. */
  datatype Locks = Locks(
    rows: set<MembershipId>, share: set<WaiverId>, excl: set<WaiverId>, openKeys: set<(TenantId, RuleKey)>)

  const NoLocks := Locks({}, {}, {}, {})

  predicate Compatible(a: Locks, b: Locks) {
    a.rows !! b.rows && a.excl !! b.excl && a.excl !! b.share && a.share !! b.excl && a.openKeys !! b.openKeys
  }

  /** `key`, broken by a membership of `tenant`, is excused by a waiver under these locks. */
  ghost predicate CoveredUnder(ws: Waivers, l: Locks, tenant: TenantId, key: RuleKey) {
    exists w :: w in ws && w in l.share + l.excl && ws[w].Lifts(tenant, key)
  }

  /** The locks a statement took to be accepted. Scope changes are made by migrations,
      which run alone. */
  ghost predicate LockedFor(db: Db, op: Op, l: Locks) {
    match op
    case WriteMembership(id, row) =>
      && id in l.rows
      && forall key | RuleBroken(db.catalogue, key, row.held) :: CoveredUnder(db.waivers, l, row.tenant, key)
    case DeleteMembership(id) => id in l.rows
    case ProposeWaiver(w) => w.id in l.excl && (w.tenant, w.rule) in l.openKeys
    case UpdateWaiver(id, _) => id in l.excl
    case ChangeScopes(_, _, _, _) => false
  }

  ghost predicate StepOk(db: Db, op: Op, l: Locks) {
    Apply(db, op).Accepted? && LockedFor(db, op, l)
  }

  lemma DiamondWrite(db: Db, id: MembershipId, row: Membership, la: Locks, b: Op, lb: Locks)
    requires Valid(db) && Compatible(la, lb)
    requires StepOk(db, WriteMembership(id, row), la) && StepOk(db, b, lb)
    ensures StepOk(After(db, b), WriteMembership(id, row), la)
  {
    var db' := After(db, b);
    assert db'.catalogue == db.catalogue;
    forall key | RuleBroken(db.catalogue, key, row.held)
      ensures CoveredUnder(db'.waivers, la, row.tenant, key) && db.catalogue.rules[key].waivable
    {
      var w :| w in db.waivers && w in la.share + la.excl && db.waivers[w].Lifts(row.tenant, key);
      assert w in db'.waivers && db'.waivers[w] == db.waivers[w];
      NoViolationIsSafe(db.catalogue, db.waivers, row.tenant, row.held);
    }
    assert Safe(db'.catalogue, db'.waivers, row.tenant, row.held);
    NoViolationIsSafe(db'.catalogue, db'.waivers, row.tenant, row.held);
  }

  /** A write that breaks the rule of an open waiver of its tenant holds that very waiver:
      it is the only one there is. */
  lemma WriterHoldsTheOpenWaiver(db: Db, b: Op, lb: Locks, id: WaiverId)
    requires Valid(db) && b.WriteMembership? && LockedFor(db, b, lb)
    requires id in db.waivers && db.waivers[id].Open()
    ensures b.row.tenant == db.waivers[id].tenant && RuleBroken(db.catalogue, db.waivers[id].rule, b.row.held) ==>
              id in lb.share + lb.excl
  {
    var tenant, key := db.waivers[id].tenant, db.waivers[id].rule;
    if b.row.tenant == tenant && RuleBroken(db.catalogue, key, b.row.held) {
      var v :| v in db.waivers && v in lb.share + lb.excl && db.waivers[v].Lifts(tenant, key);
      assert v == id;
    }
  }

  /** A revocation accepted beside a pending write stays acceptable after that write. */
  lemma DiamondUpdate(db: Db, id: WaiverId, w: Waiver, la: Locks, b: Op, lb: Locks)
    requires Valid(db) && Compatible(la, lb)
    requires StepOk(db, UpdateWaiver(id, w), la) && StepOk(db, b, lb)
    ensures StepOk(After(db, b), UpdateWaiver(id, w), la)
  {
    var db' := After(db, b);
    assert id in db'.waivers && db'.waivers[id] == db.waivers[id];
    if w.revokedAt.Some? {
      if b.WriteMembership? {
        WriterHoldsTheOpenWaiver(db, b, lb, id);
      }
      assert forall m | m in db.memberships :: m !in Relying(db, w);
      assert forall m | m in db'.memberships :: m !in Relying(db', w);
      assert Relying(db', w) == {};
    }
  }

  lemma DiamondPropose(db: Db, w: Waiver, la: Locks, b: Op, lb: Locks)
    requires Valid(db) && Compatible(la, lb)
    requires StepOk(db, ProposeWaiver(w), la) && StepOk(db, b, lb)
    ensures StepOk(After(db, b), ProposeWaiver(w), la)
  {
    var ws, ws' := db.waivers, After(db, b).waivers;
    forall other | other in ws'
      ensures w.Open() ==> !(ws'[other].tenant == w.tenant && ws'[other].rule == w.rule && ws'[other].Open())
    {
      assert other in ws && w.Open() ==>
               !(ws[other].tenant == w.tenant && ws[other].rule == w.rule && ws[other].Open());
    }
  }

  /** Statements accepted side by side under compatible locks are accepted in either order,
      with the same result. */
  lemma Diamond(db: Db, a: Op, la: Locks, b: Op, lb: Locks)
    requires Valid(db) && Compatible(la, lb)
    requires StepOk(db, a, la) && StepOk(db, b, lb)
    ensures StepOk(After(db, b), a, la) && StepOk(After(db, a), b, lb)
    ensures After(After(db, a), b) == After(After(db, b), a)
  {
    DiamondOneWay(db, a, la, b, lb);
    DiamondOneWay(db, b, lb, a, la);
    Effect(db, a);
    Effect(db, b);
    Effect(After(db, a), b);
    Effect(After(db, b), a);
    EffectsCommute(db.memberships, db.waivers, a, b);
  }

  function RowOf(op: Op): set<MembershipId> {
    if op.WriteMembership? || op.DeleteMembership? then {op.membership} else {}
  }

  function WaiverOf(op: Op): set<WaiverId> {
    if op.ProposeWaiver? then {op.waiver.id} else if op.UpdateWaiver? then {op.id} else {}
  }

  lemma EffectsCommute(ms: map<MembershipId, Membership>, ws: Waivers, a: Op, b: Op)
    requires RowOf(a) !! RowOf(b) && WaiverOf(a) !! WaiverOf(b)
    ensures Rows(Rows(ms, a), b) == Rows(Rows(ms, b), a)
    ensures WaiverRows(WaiverRows(ws, a), b) == WaiverRows(WaiverRows(ws, b), a)
  {
  }

  function Rows(ms: map<MembershipId, Membership>, op: Op): map<MembershipId, Membership> {
    match op
    case WriteMembership(id, row) => ms[id := row]
    case DeleteMembership(id) => ms - {id}
    case _ => ms
  }

  function WaiverRows(ws: Waivers, op: Op): Waivers {
    match op
    case ProposeWaiver(w) => ws[w.id := w]
    case UpdateWaiver(id, w) => ws[id := w]
    case _ => ws
  }

  /** An accepted statement's effect does not depend on what else is in the tables. */
  lemma Effect(db: Db, op: Op)
    requires Apply(db, op).Accepted? && !op.ChangeScopes?
    ensures After(db, op) == Db(db.catalogue, Rows(db.memberships, op), WaiverRows(db.waivers, op))
  {
  }

  lemma DiamondOneWay(db: Db, a: Op, la: Locks, b: Op, lb: Locks)
    requires Valid(db) && Compatible(la, lb)
    requires StepOk(db, a, la) && StepOk(db, b, lb)
    ensures StepOk(After(db, b), a, la)
  {
    match a
    case WriteMembership(id, row) => DiamondWrite(db, id, row, la, b, lb);
    case DeleteMembership(id) =>
    case ProposeWaiver(w) => DiamondPropose(db, w, la, b, lb);
    case UpdateWaiver(id, w) => DiamondUpdate(db, id, w, la, b, lb);
  }

  /** The statements of a transaction so far, accepted one after the other on top of `db`
      under the locks it holds. */
  ghost predicate Stands(db: Db, ops: seq<Op>, l: Locks)
    decreases |ops|
  {
    ops == [] || (StepOk(db, ops[0], l) && Stands(After(db, ops[0]), ops[1..], l))
  }

  /** Another transaction's statement does not disturb what this one has done. */
  lemma {:induction false} StandsPastOne(db: Db, ops: seq<Op>, l: Locks, b: Op, lb: Locks)
    requires Valid(db) && Compatible(l, lb)
    requires Stands(db, ops, l) && StepOk(db, b, lb)
    ensures Stands(After(db, b), ops, l) && StepOk(Run(db, ops), b, lb)
    ensures Run(After(db, b), ops) == After(Run(db, ops), b)
    decreases |ops|
  {
    if ops != [] {
      Diamond(db, ops[0], l, b, lb);
      StepKeepsValid(db, ops[0]);
      StandsPastOne(After(db, ops[0]), ops[1..], l, b, lb);
    }
  }

  /** Nor does another transaction's commit. */
  lemma {:induction false} StandsPastCommit(db: Db, ops: seq<Op>, l: Locks, other: seq<Op>, lo: Locks)
    requires Valid(db) && Compatible(l, lo)
    requires Stands(db, ops, l) && Stands(db, other, lo)
    ensures Stands(Run(db, other), ops, l)
    ensures Run(Run(db, other), ops) == Run(Run(db, ops), other)
    ensures Stands(Run(db, ops), other, lo)
    decreases |other|
  {
    if other != [] {
      StandsPastOne(db, ops, l, other[0], lo);
      StepKeepsValid(db, other[0]);
      StandsPastCommit(After(db, other[0]), ops, l, other[1..], lo);
    }
  }

  lemma {:induction false} StandsExtended(db: Db, ops: seq<Op>, op: Op, l: Locks)
    requires Stands(db, ops, l) && StepOk(Run(db, ops), op, l)
    ensures Stands(db, ops + [op], l) && Run(db, ops + [op]) == After(Run(db, ops), op)
    decreases |ops|
  {
    if ops == [] {
      assert [op][1..] == [];
    } else {
      assert (ops + [op])[0] == ops[0] && (ops + [op])[1..] == ops[1..] + [op];
      StandsExtended(After(db, ops[0]), ops[1..], op, l);
    }
  }

  predicate Within(a: Locks, b: Locks) {
    a.rows <= b.rows && a.share <= b.share && a.excl <= b.excl && a.openKeys <= b.openKeys
  }

  /** Taking more locks spoils nothing. */
  lemma {:induction false} StandsUnderMore(db: Db, ops: seq<Op>, l: Locks, more: Locks)
    requires Stands(db, ops, l) && Within(l, more)
    ensures Stands(db, ops, more)
    decreases |ops|
  {
    if ops != [] {
      assert LockedFor(db, ops[0], more) by {
        if ops[0].WriteMembership? {
          forall key | RuleBroken(db.catalogue, key, ops[0].row.held)
            ensures CoveredUnder(db.waivers, more, ops[0].row.tenant, key)
          {
            assert CoveredUnder(db.waivers, l, ops[0].row.tenant, key);
          }
        }
      }
      StandsUnderMore(After(db, ops[0]), ops[1..], l, more);
    }
  }

  /** A transaction touches only what it has locked. */
  lemma {:induction false} Frame(db: Db, ops: seq<Op>, l: Locks)
    requires Stands(db, ops, l)
    ensures Run(db, ops).catalogue == db.catalogue
    ensures forall w | w in db.waivers && w !in l.excl ::
              w in Run(db, ops).waivers && Run(db, ops).waivers[w] == db.waivers[w]
    decreases |ops|
  {
    if ops != [] {
      Frame(After(db, ops[0]), ops[1..], l);
    }
  }

  lemma {:induction false} RunAppends(db: Db, a: seq<Op>, b: seq<Op>)
    ensures Run(db, a + b) == Run(Run(db, a), b)
    decreases |a|
  {
    if a == [] {
      assert a + b == b;
    } else {
      assert (a + b)[0] == a[0] && (a + b)[1..] == a[1..] + b;
      RunAppends(After(db, a[0]), a[1..], b);
    }
  }

  // ----- The machine -----

  type TxnId = nat

  /** Between statements, or part-way through the rules for a membership about to be written. */
  datatype Activity = Idle | Judging(membership: MembershipId, row: Membership, next: nat)

  datatype Txn = Txn(ops: seq<Op>, locks: Locks, doing: Activity)

  /** `log` records the statements of the committed transactions, in commit order. */
  datatype State = State(db: Db, txns: map<TxnId, Txn>, log: seq<Op>)

  datatype Step =
    | Begin(t: TxnId)
    | LockMembership(t: TxnId, membership: MembershipId, row: Membership)
    | JudgeRule(t: TxnId)
    | FinishWrite(t: TxnId)
    | Remove(t: TxnId, membership: MembershipId)
    | LockWaiver(t: TxnId, id: WaiverId)
    | UpdateLocked(t: TxnId, id: WaiverId, waiver: Waiver)
    | InsertWaiver(t: TxnId, waiver: Waiver)
    | Rollback(t: TxnId)
    | Commit(t: TxnId)

  /** What a statement of `t` sees: the committed tables under its own changes. */
  function View(s: State, t: TxnId): Db
    requires t in s.txns
  {
    Run(s.db, s.txns[t].ops)
  }

  ghost predicate NoOtherHolds(s: State, t: TxnId, wanted: Locks) {
    forall u | u in s.txns && u != t :: Compatible(wanted, s.txns[u].locks)
  }

  function With(l: Locks, more: Locks): Locks {
    Locks(l.rows + more.rows, l.share + more.share, l.excl + more.excl, l.openKeys + more.openKeys)
  }

  function RuleAt(s: State, next: nat): RuleKey
    requires next < |InKeyOrder(s.db.catalogue.rules.Keys)|
  {
    InKeyOrder(s.db.catalogue.rules.Keys)[next]
  }

  /** The waiver rows that `JudgeRule` locks FOR SHARE: none when the rule is not broken. */
  function RowsToShare(s: State, t: TxnId): set<WaiverId>
    requires t in s.txns && s.txns[t].doing.Judging?
    requires s.txns[t].doing.next < |InKeyOrder(s.db.catalogue.rules.Keys)|
  {
    var view, doing := View(s, t), s.txns[t].doing;
    var key := RuleAt(s, doing.next);
    if key in view.catalogue.rules && RuleBroken(view.catalogue, key, doing.row.held)
    then Matching(view.catalogue, view.waivers, Some(doing.row.tenant), key)
    else {}
  }

  /** A step that must wait for a lock is not enabled until the holder ends. */
  ghost predicate Enabled(s: State, step: Step) {
    && (step.Begin? <==> step.t !in s.txns)
    && (!step.Begin? ==>
          var txn := s.txns[step.t];
          match step
          case LockMembership(t, id, _) =>
            txn.doing.Idle? && NoOtherHolds(s, t, NoLocks.(rows := {id}))
          case JudgeRule(t) =>
            && txn.doing.Judging? && txn.doing.next < |InKeyOrder(s.db.catalogue.rules.Keys)|
            && NoOtherHolds(s, t, NoLocks.(share := RowsToShare(s, t)))
          case FinishWrite(t) =>
            txn.doing.Judging? && txn.doing.next == |InKeyOrder(s.db.catalogue.rules.Keys)|
          case Remove(t, id) =>
            txn.doing.Idle? && NoOtherHolds(s, t, NoLocks.(rows := {id}))
          case LockWaiver(t, id) =>
            txn.doing.Idle? && NoOtherHolds(s, t, NoLocks.(excl := {id}))
          case UpdateLocked(t, id, _) =>
            txn.doing.Idle? && id in txn.locks.excl
          case InsertWaiver(t, w) =>
            txn.doing.Idle? && NoOtherHolds(s, t, NoLocks.(excl := {w.id}, openKeys := {(w.tenant, w.rule)}))
          case Rollback(_) => true
          case Commit(_) => txn.doing.Idle?)
  }

  function Ended(s: State, t: TxnId): State {
    s.(txns := s.txns - {t})
  }

  /** A statement: accepted on the transaction's view and remembered, or refused, which ends
      the transaction. */
  function Statement(s: State, t: TxnId, op: Op, more: Locks): State
    requires t in s.txns
  {
    if Apply(View(s, t), op).Accepted?
    then s.(txns := s.txns[t := Txn(s.txns[t].ops + [op], With(s.txns[t].locks, more), Idle)])
    else Ended(s, t)
  }

  ghost function Next(s: State, step: Step): State
    requires Enabled(s, step)
  {
    match step
    case Begin(t) => s.(txns := s.txns[t := Txn([], NoLocks, Idle)])
    case LockMembership(t, id, row) =>
      var txn := s.txns[t];
      s.(txns := s.txns[t := txn.(locks := With(txn.locks, NoLocks.(rows := {id})), doing := Judging(id, row, 0))])
    case JudgeRule(t) =>
      var txn, view, rows := s.txns[t], View(s, t), RowsToShare(s, t);
      if RuleBroken(view.catalogue, RuleAt(s, txn.doing.next), txn.doing.row.held) && rows == {}
      then Ended(s, t)
      else s.(txns := s.txns[t := txn.(locks := With(txn.locks, NoLocks.(share := rows)),
                                       doing := txn.doing.(next := txn.doing.next + 1))])
    case FinishWrite(t) =>
      var txn := s.txns[t];
      s.(txns := s.txns[t := txn.(ops := txn.ops + [WriteMembership(txn.doing.membership, txn.doing.row)],
                                  doing := Idle)])
    case Remove(t, id) => Statement(s, t, DeleteMembership(id), NoLocks.(rows := {id}))
    case LockWaiver(t, id) =>
      var txn := s.txns[t];
      s.(txns := s.txns[t := txn.(locks := With(txn.locks, NoLocks.(excl := {id})))])
    case UpdateLocked(t, id, w) => Statement(s, t, UpdateWaiver(id, w), NoLocks)
    case InsertWaiver(t, w) =>
      Statement(s, t, ProposeWaiver(w), NoLocks.(excl := {w.id}, openKeys := {(w.tenant, w.rule)}))
    case Rollback(t) => Ended(s, t)
    case Commit(t) => State(View(s, t), s.txns - {t}, s.log + s.txns[t].ops)
  }

  // ----- The invariant -----

  /** The rules already judged are each unbroken or covered by a waiver under lock. */
  ghost predicate JudgedSoFar(view: Db, txn: Txn)
    requires txn.doing.Judging?
  {
    var order := InKeyOrder(view.catalogue.rules.Keys);
    && txn.doing.membership in txn.locks.rows
    && txn.doing.next <= |order|
    && forall j | 0 <= j < txn.doing.next && RuleBroken(view.catalogue, order[j], txn.doing.row.held) ::
         && view.catalogue.rules[order[j]].waivable
         && CoveredUnder(view.waivers, txn.locks, txn.doing.row.tenant, order[j])
  }

  ghost predicate TxnOk(s: State, t: TxnId)
    requires t in s.txns
  {
    && Stands(s.db, s.txns[t].ops, s.txns[t].locks)
    && (s.txns[t].doing.Judging? ==> JudgedSoFar(View(s, t), s.txns[t]))
  }

  ghost predicate Inv(s: State) {
    && Valid(s.db)
    && (forall t | t in s.txns :: TxnOk(s, t))
    && (forall t, u | t in s.txns && u in s.txns && t != u :: Compatible(s.txns[t].locks, s.txns[u].locks))
  }

  lemma CoverSurvives(ws: Waivers, l: Locks, ws': Waivers, l': Locks, tenant: TenantId, key: RuleKey)
    requires CoveredUnder(ws, l, tenant, key) && Within(l, l')
    requires forall w | w in ws && w in l.share + l.excl :: w in ws' && ws'[w] == ws[w]
    ensures CoveredUnder(ws', l', tenant, key)
  {
    var w :| w in ws && w in l.share + l.excl && ws[w].Lifts(tenant, key);
    assert w in ws' && w in l'.share + l'.excl && ws'[w].Lifts(tenant, key);
  }

  lemma JudgedStaysUnderMore(view: Db, txn: Txn, more: Locks)
    requires txn.doing.Judging? && JudgedSoFar(view, txn)
    ensures JudgedSoFar(view, txn.(locks := With(txn.locks, more)))
  {
    var order := InKeyOrder(view.catalogue.rules.Keys);
    forall j | 0 <= j < txn.doing.next && RuleBroken(view.catalogue, order[j], txn.doing.row.held)
      ensures CoveredUnder(view.waivers, With(txn.locks, more), txn.doing.row.tenant, order[j])
    {
      CoverSurvives(view.waivers, txn.locks, view.waivers, With(txn.locks, more), txn.doing.row.tenant, order[j]);
    }
  }

  lemma MatchingCovers(view: Db, l: Locks, tenant: TenantId, key: RuleKey, rows: set<WaiverId>)
    requires key in view.catalogue.rules && rows != {}
    requires rows == Matching(view.catalogue, view.waivers, Some(tenant), key)
    ensures view.catalogue.rules[key].waivable
    ensures CoveredUnder(view.waivers, With(l, NoLocks.(share := rows)), tenant, key)
  {
    var w :| w in rows;
    assert w in view.waivers && w in With(l, NoLocks.(share := rows)).share && view.waivers[w].Lifts(tenant, key);
  }

  /** One more rule judged. */
  lemma JudgeKeepsJudged(view: Db, txn: Txn, key: RuleKey, rows: set<WaiverId>)
    requires txn.doing.Judging? && JudgedSoFar(view, txn)
    requires txn.doing.next < |InKeyOrder(view.catalogue.rules.Keys)|
    requires key == InKeyOrder(view.catalogue.rules.Keys)[txn.doing.next] && key in view.catalogue.rules
    requires rows == Matching(view.catalogue, view.waivers, Some(txn.doing.row.tenant), key)
    requires RuleBroken(view.catalogue, key, txn.doing.row.held) ==> rows != {}
    ensures JudgedSoFar(view, txn.(locks := With(txn.locks, NoLocks.(share := rows)),
                                   doing := txn.doing.(next := txn.doing.next + 1)))
  {
    var locks := With(txn.locks, NoLocks.(share := rows));
    JudgedStaysUnderMore(view, txn, NoLocks.(share := rows));
    if RuleBroken(view.catalogue, key, txn.doing.row.held) {
      MatchingCovers(view, txn.locks, txn.doing.row.tenant, key, rows);
    }
    var order := InKeyOrder(view.catalogue.rules.Keys);
    forall j | 0 <= j < txn.doing.next + 1 && RuleBroken(view.catalogue, order[j], txn.doing.row.held)
      ensures view.catalogue.rules[order[j]].waivable && CoveredUnder(view.waivers, locks, txn.doing.row.tenant,
              order[j])
    {
      assert j == txn.doing.next ==> order[j] == key;
    }
  }

  /** A rule that is not broken adds nothing to what must be covered. */
  lemma JudgeUnbroken(view: Db, txn: Txn)
    requires txn.doing.Judging? && JudgedSoFar(view, txn)
    requires txn.doing.next < |InKeyOrder(view.catalogue.rules.Keys)|
    requires !RuleBroken(view.catalogue, InKeyOrder(view.catalogue.rules.Keys)[txn.doing.next], txn.doing.row.held)
    ensures JudgedSoFar(view, txn.(locks := With(txn.locks, NoLocks), doing := txn.doing.(next := txn.doing.next + 1)))
  {
    JudgedStaysUnderMore(view, txn, NoLocks);
  }

  lemma JudgeKeepsTxn(s: State, t: TxnId)
    requires Inv(s) && Enabled(s, JudgeRule(t)) && t in Next(s, JudgeRule(t)).txns
    ensures TxnOk(Next(s, JudgeRule(t)), t)
  {
    var txn, view, rows := s.txns[t], View(s, t), RowsToShare(s, t);
    Frame(s.db, txn.ops, txn.locks);
    StandsUnderMore(s.db, txn.ops, txn.locks, With(txn.locks, NoLocks.(share := rows)));
    var key := RuleAt(s, txn.doing.next);
    assert key in InKeyOrder(s.db.catalogue.rules.Keys);
    if RuleBroken(view.catalogue, key, txn.doing.row.held) {
      JudgeKeepsJudged(view, txn, key, rows);
    } else {
      JudgeUnbroken(view, txn);
    }
  }

  /** When every rule has been judged the write is one the sequential machine accepts. */
  lemma FinishKeepsTxn(s: State, t: TxnId)
    requires Inv(s) && Enabled(s, FinishWrite(t))
    ensures TxnOk(Next(s, FinishWrite(t)), t)
  {
    var txn, view := s.txns[t], View(s, t);
    var row := txn.doing.row;
    var order := InKeyOrder(s.db.catalogue.rules.Keys);
    Frame(s.db, txn.ops, txn.locks);
    forall key | RuleBroken(view.catalogue, key, row.held)
      ensures view.catalogue.rules[key].waivable && CoveredUnder(view.waivers, txn.locks, row.tenant, key)
    {
      assert key in order;
      var j :| 0 <= j < |order| && order[j] == key;
    }
    assert Safe(view.catalogue, view.waivers, row.tenant, row.held);
    NoViolationIsSafe(view.catalogue, view.waivers, row.tenant, row.held);
    StandsExtended(s.db, txn.ops, WriteMembership(txn.doing.membership, row), txn.locks);
  }

  lemma StatementKeepsTxn(s: State, t: TxnId, op: Op, more: Locks)
    requires Inv(s) && t in s.txns && t in Statement(s, t, op, more).txns
    requires !op.WriteMembership? && LockedFor(View(s, t), op, With(s.txns[t].locks, more))
    ensures TxnOk(Statement(s, t, op, more), t)
  {
    var txn := s.txns[t];
    StandsUnderMore(s.db, txn.ops, txn.locks, With(txn.locks, more));
    StandsExtended(s.db, txn.ops, op, With(txn.locks, more));
  }

  /** The transaction that moves keeps its part of the invariant. */
  lemma OwnStepKeepsTxn(s: State, step: Step)
    requires Inv(s) && Enabled(s, step) && step.t in Next(s, step).txns
    ensures TxnOk(Next(s, step), step.t)
  {
    match step
    case Begin(_) =>
    case LockMembership(t, id, _) =>
      var txn := s.txns[t];
      StandsUnderMore(s.db, txn.ops, txn.locks, With(txn.locks, NoLocks.(rows := {id})));
    case JudgeRule(t) => JudgeKeepsTxn(s, t);
    case FinishWrite(t) => FinishKeepsTxn(s, t);
    case Remove(t, id) => StatementKeepsTxn(s, t, DeleteMembership(id), NoLocks.(rows := {id}));
    case LockWaiver(t, id) =>
      var txn := s.txns[t];
      StandsUnderMore(s.db, txn.ops, txn.locks, With(txn.locks, NoLocks.(excl := {id})));
    case UpdateLocked(t, id, w) => StatementKeepsTxn(s, t, UpdateWaiver(id, w), NoLocks);
    case InsertWaiver(t, w) =>
      StatementKeepsTxn(s, t, ProposeWaiver(w), NoLocks.(excl := {w.id}, openKeys := {(w.tenant, w.rule)}));
  }

  /** A commit leaves every other transaction's statements standing on the new tables. */
  lemma CommitKeepsOthers(s: State, t: TxnId, u: TxnId)
    requires Inv(s) && Enabled(s, Commit(t)) && u in s.txns && u != t
    ensures TxnOk(Next(s, Commit(t)), u)
  {
    var mine, other := s.txns[t], s.txns[u];
    var s' := Next(s, Commit(t));
    StandsPastCommit(s.db, other.ops, other.locks, mine.ops, mine.locks);
    if other.doing.Judging? {
      var view, view' := View(s, u), View(s', u);
      Frame(view, mine.ops, mine.locks);
      var order := InKeyOrder(view.catalogue.rules.Keys);
      forall j | 0 <= j < other.doing.next && RuleBroken(view'.catalogue, order[j], other.doing.row.held)
        ensures CoveredUnder(view'.waivers, other.locks, other.doing.row.tenant, order[j])
      {
        CoverSurvives(view.waivers, other.locks, view'.waivers, other.locks, other.doing.row.tenant, order[j]);
      }
    }
  }

  lemma {:induction false} StandsKeepsValid(db: Db, ops: seq<Op>, l: Locks)
    requires Valid(db) && Stands(db, ops, l)
    ensures Valid(Run(db, ops))
  {
    RunKeepsValid(db, ops);
  }

  /** The locks a step adds. */
  ghost function Asked(s: State, step: Step): Locks
    requires Enabled(s, step)
  {
    match step
    case LockMembership(_, id, _) => NoLocks.(rows := {id})
    case JudgeRule(t) => NoLocks.(share := RowsToShare(s, t))
    case Remove(_, id) => NoLocks.(rows := {id})
    case LockWaiver(_, id) => NoLocks.(excl := {id})
    case InsertWaiver(_, w) => NoLocks.(excl := {w.id}, openKeys := {(w.tenant, w.rule)})
    case _ => NoLocks
  }

  lemma AskedIsFree(s: State, step: Step)
    requires Enabled(s, step)
    ensures NoOtherHolds(s, step.t, Asked(s, step))
  {}

  lemma LocksAfter(s: State, step: Step)
    requires Enabled(s, step)
    ensures var s' := Next(s, step);
            && (forall u | u in s'.txns && u != step.t :: u in s.txns && s'.txns[u] == s.txns[u])
            && (step.t in s'.txns ==>
                  s'.txns[step.t].locks == With(if step.Begin? then NoLocks else s.txns[step.t].locks, Asked(s, step)))
  {
    if !step.Begin? {
      var locks := s.txns[step.t].locks;
      assert With(locks, NoLocks) == locks;
    }
  }

  lemma WithStaysApart(l: Locks, more: Locks, other: Locks)
    requires Compatible(l, other) && Compatible(more, other)
    ensures Compatible(With(l, more), other) && Compatible(other, With(l, more))
  {}

  lemma LocksStayApart(s: State, step: Step)
    requires Inv(s) && Enabled(s, step)
    ensures var s' := Next(s, step);
            forall t, u | t in s'.txns && u in s'.txns && t != u :: Compatible(s'.txns[t].locks, s'.txns[u].locks)
  {
    var s' := Next(s, step);
    LocksAfter(s, step);
    AskedIsFree(s, step);
    forall t, u | t in s'.txns && u in s'.txns && t != u
      ensures Compatible(s'.txns[t].locks, s'.txns[u].locks)
    {
      if t == step.t || u == step.t {
        var o := if t == step.t then u else t;
        WithStaysApart(if step.Begin? then NoLocks else s.txns[step.t].locks, Asked(s, step), s.txns[o].locks);
      }
    }
  }

  lemma StepKeepsInv(s: State, step: Step)
    requires Inv(s) && Enabled(s, step)
    ensures Inv(Next(s, step))
  {
    var s' := Next(s, step);
    LocksStayApart(s, step);
    if step.Commit? {
      StandsKeepsValid(s.db, s.txns[step.t].ops, s.txns[step.t].locks);
    }
    forall u | u in s'.txns
      ensures TxnOk(s', u)
    {
      if u == step.t {
        OwnStepKeepsTxn(s, step);
      } else if step.Commit? {
        CommitKeepsOthers(s, step.t, u);
      } else {
        assert s'.txns[u] == s.txns[u] && s'.db == s.db;
        assert TxnOk(s, u);
      }
    }
  }

  // ----- Every interleaving -----

  ghost predicate Possible(s: State, steps: seq<Step>)
    decreases |steps|
  {
    steps == [] || (Enabled(s, steps[0]) && Possible(Next(s, steps[0]), steps[1..]))
  }

  ghost function Reached(s: State, steps: seq<Step>): State
    requires Possible(s, steps)
    decreases |steps|
  {
    if steps == [] then s else Reached(Next(s, steps[0]), steps[1..])
  }

  function Fresh(db: Db): State {
    State(db, map[], [])
  }

  /** The statements are accepted, every one, when run alone in this order. */
  ghost predicate AllAccepted(db: Db, ops: seq<Op>)
    decreases |ops|
  {
    ops == [] || (Apply(db, ops[0]).Accepted? && AllAccepted(After(db, ops[0]), ops[1..]))
  }

  lemma {:induction false} AcceptedAppends(db: Db, a: seq<Op>, b: seq<Op>, l: Locks)
    requires AllAccepted(db, a) && Stands(Run(db, a), b, l)
    ensures AllAccepted(db, a + b)
    decreases |a|, |b|
  {
    if a != [] {
      assert (a + b)[0] == a[0] && (a + b)[1..] == a[1..] + b;
      AcceptedAppends(After(db, a[0]), a[1..], b, l);
    } else if b != [] {
      assert a + b == b;
      AcceptedAppends(After(db, b[0]), [], b[1..], l);
      assert [] + b[1..] == b[1..];
    }
  }

  /** The committed tables are what the committed statements make of `db0` one by one. */
  ghost predicate Serial(db0: Db, s: State) {
    AllAccepted(db0, s.log) && s.db == Run(db0, s.log)
  }

  lemma {:induction false} EveryStateIsSerial(db0: Db, s: State, steps: seq<Step>)
    requires Inv(s) && Serial(db0, s) && Possible(s, steps)
    ensures Inv(Reached(s, steps)) && Serial(db0, Reached(s, steps))
    decreases |steps|
  {
    if steps != [] {
      var s' := Next(s, steps[0]);
      StepKeepsInv(s, steps[0]);
      if steps[0].Commit? {
        var txn := s.txns[steps[0].t];
        AcceptedAppends(db0, s.log, txn.ops, txn.locks);
        RunAppends(db0, s.log, txn.ops);
      }
      EveryStateIsSerial(db0, s', steps[1..]);
    }
  }

  /** Serializability: whatever the interleaving, the committed tables are those of the
      committed statements run one at a time in commit order, each of them accepted. */
  lemma InterleavingsAreSerial(db: Db, steps: seq<Step>)
    requires Valid(db) && Possible(Fresh(db), steps)
    ensures Serial(db, Reached(Fresh(db), steps))
  {
    EveryStateIsSerial(db, Fresh(db), steps);
  }

  /** Safety: whatever the interleaving, no committed state has an unsafe membership that
      the first did not have. Starting safe, every breaker of a rule is always covered by an
      open, confirmed waiver of its own tenant. */
  lemma InterleavingsNeverEndanger(db: Db, steps: seq<Step>)
    requires Valid(db) && Possible(Fresh(db), steps)
    ensures Unsafe(Reached(Fresh(db), steps).db) <= Unsafe(db)
  {
    InterleavingsAreSerial(db, steps);
    RunNeverEndangers(db, Reached(Fresh(db), steps).log);
  }

  // ----- The machine refuses nothing it should accept -----

  ghost predicate Leads(s: State, s': State) {
    exists steps :: Possible(s, steps) && Reached(s, steps) == s'
  }

  lemma {:induction false} Onward(s: State, steps: seq<Step>, step: Step)
    requires Possible(s, steps) && Enabled(Reached(s, steps), step)
    ensures Possible(s, steps + [step]) && Reached(s, steps + [step]) == Next(Reached(s, steps), step)
    decreases |steps|
  {
    if steps == [] {
      assert [step][1..] == [];
    } else {
      assert (steps + [step])[0] == steps[0] && (steps + [step])[1..] == steps[1..] + [step];
      Onward(Next(s, steps[0]), steps[1..], step);
    }
  }

  lemma LeadsOn(s: State, s': State, step: Step)
    requires Leads(s, s') && Enabled(s', step)
    ensures Leads(s, Next(s', step))
  {
    var steps :| Possible(s, steps) && Reached(s, steps) == s';
    Onward(s, steps, step);
  }

  /** One transaction, alone, part-way through judging `row`. */
  ghost predicate JudgingAlone(db: Db, log: seq<Op>, s: State, id: MembershipId, row: Membership, n: nat) {
    && s.db == db && s.log == log && s.txns.Keys == {0}
    && s.txns[0].ops == [] && s.txns[0].doing == Judging(id, row, n)
  }

  lemma StartsJudging(start: State, id: MembershipId, row: Membership)
    requires start.txns == map[]
    ensures exists s :: Leads(start, s) && JudgingAlone(start.db, start.log, s, id, row, 0)
  {
    NoSteps(start);
    LeadsOn(start, start, Begin(0));
    var s1 := Next(start, Begin(0));
    LeadsOn(start, s1, LockMembership(0, id, row));
    assert JudgingAlone(start.db, start.log, Next(s1, LockMembership(0, id, row)), id, row, 0);
  }

  lemma NoSteps(s: State)
    ensures Leads(s, s)
  {
    assert Possible(s, []) && Reached(s, []) == s;
  }

  lemma JudgesOneMore(db: Db, log: seq<Op>, s: State, id: MembershipId, row: Membership, n: nat)
    requires Apply(db, WriteMembership(id, row)).Accepted?
    requires JudgingAlone(db, log, s, id, row, n)
    requires n < |InKeyOrder(db.catalogue.rules.Keys)|
    ensures Enabled(s, JudgeRule(0)) && JudgingAlone(db, log, Next(s, JudgeRule(0)), id, row, n + 1)
  {
    var key := RuleAt(s, n);
    assert View(s, 0) == db;
    assert key in InKeyOrder(db.catalogue.rules.Keys);
    assert key !in Violating(db.catalogue, db.waivers, Some(row.tenant), row.held);
    if RuleBroken(db.catalogue, key, row.held) {
      MatchingExcuses(db.catalogue, db.waivers, Some(row.tenant), row.held, key);
      assert RowsToShare(s, 0) != {};
    }
  }

  ghost predicate CanBeJudging(start: State, id: MembershipId, row: Membership, n: nat) {
    exists s :: Leads(start, s) && JudgingAlone(start.db, start.log, s, id, row, n)
  }

  lemma JudgingGoesOn(start: State, s: State, id: MembershipId, row: Membership, n: nat)
    requires Apply(start.db, WriteMembership(id, row)).Accepted?
    requires Leads(start, s) && JudgingAlone(start.db, start.log, s, id, row, n)
    requires n < |InKeyOrder(start.db.catalogue.rules.Keys)|
    ensures CanBeJudging(start, id, row, n + 1)
  {
    JudgesOneMore(start.db, start.log, s, id, row, n);
    LeadsOn(start, s, JudgeRule(0));
  }

  lemma JudgesNext(start: State, id: MembershipId, row: Membership, n: nat)
    requires Apply(start.db, WriteMembership(id, row)).Accepted?
    requires CanBeJudging(start, id, row, n) && n < |InKeyOrder(start.db.catalogue.rules.Keys)|
    ensures CanBeJudging(start, id, row, n + 1)
  {
    var s :| Leads(start, s) && JudgingAlone(start.db, start.log, s, id, row, n);
    JudgingGoesOn(start, s, id, row, n);
  }

  lemma {:induction false} JudgesAlone(start: State, id: MembershipId, row: Membership, n: nat)
    requires Apply(start.db, WriteMembership(id, row)).Accepted? && start.txns == map[]
    requires n <= |InKeyOrder(start.db.catalogue.rules.Keys)|
    ensures CanBeJudging(start, id, row, n)
    decreases n
  {
    if n == 0 {
      StartsJudging(start, id, row);
    } else {
      JudgesAlone(start, id, row, n - 1);
      JudgesNext(start, id, row, n - 1);
    }
  }

  /** Transaction 0, alone, has run exactly `op` and is ready to commit. */
  ghost predicate RanAlone(start: State, s: State, op: Op) {
    s.db == start.db && s.log == start.log && s.txns.Keys == {0} && s.txns[0].ops == [op] && s.txns[0].doing.Idle?
  }

  lemma WritesAlone(start: State, id: MembershipId, row: Membership)
    requires Apply(start.db, WriteMembership(id, row)).Accepted? && start.txns == map[]
    ensures exists s :: Leads(start, s) && RanAlone(start, s, WriteMembership(id, row))
  {
    var n := |InKeyOrder(start.db.catalogue.rules.Keys)|;
    JudgesAlone(start, id, row, n);
    var s :| Leads(start, s) && JudgingAlone(start.db, start.log, s, id, row, n);
    LeadsOn(start, s, FinishWrite(0));
    var op := WriteMembership(id, row);
    assert [] + [op] == [op];
    assert RanAlone(start, Next(s, FinishWrite(0)), op);
  }

  /** The statement that a single step makes. */
  function StepFor(op: Op): Step
    requires !op.WriteMembership? && !op.ChangeScopes?
  {
    match op
    case DeleteMembership(id) => Remove(0, id)
    case ProposeWaiver(w) => InsertWaiver(0, w)
    case UpdateWaiver(id, w) => UpdateLocked(0, id, w)
  }

  lemma StatesAlone(start: State, op: Op)
    requires Apply(start.db, op).Accepted? && !op.WriteMembership? && !op.ChangeScopes? && start.txns == map[]
    ensures exists s :: Leads(start, s) && RanAlone(start, s, op)
  {
    NoSteps(start);
    LeadsOn(start, start, Begin(0));
    var s := Next(start, Begin(0));
    if op.UpdateWaiver? {
      LeadsOn(start, s, LockWaiver(0, op.id));
      s := Next(s, LockWaiver(0, op.id));
    }
    LeadsOn(start, s, StepFor(op));
    assert [] + [op] == [op];
    assert RanAlone(start, Next(s, StepFor(op)), op);
  }

  /** Any statement the sequential machine accepts, a transaction can commit. */
  lemma AcceptedCommits(db: Db, log: seq<Op>, op: Op)
    requires Apply(db, op).Accepted? && !op.ChangeScopes?
    ensures Leads(State(db, map[], log), State(After(db, op), map[], log + [op]))
  {
    var start := State(db, map[], log);
    if op.WriteMembership? {
      WritesAlone(start, op.membership, op.row);
    } else {
      StatesAlone(start, op);
    }
    var s :| Leads(start, s) && RanAlone(start, s, op);
    CommitsOne(s, op);
    LeadsOn(start, s, Commit(0));
  }

  lemma CommitsOne(s: State, op: Op)
    requires s.txns.Keys == {0} && s.txns[0].ops == [op] && s.txns[0].doing.Idle?
    ensures Enabled(s, Commit(0)) && Next(s, Commit(0)) == State(After(s.db, op), map[], s.log + [op])
  {
    assert [op][1..] == [];
    assert Run(s.db, [op]) == After(s.db, op);
    assert s.txns - {0} == map[];
  }

  /** The reachable logs are exactly the accepted ones: any sequence of statements that the
      sequential machine accepts throughout is committed by some interleaving. */
  lemma {:induction false} EveryAcceptedRunIsReachable(db: Db, ops: seq<Op>)
    requires AllAccepted(db, ops) && forall i | 0 <= i < |ops| :: !ops[i].ChangeScopes?
    ensures Leads(Fresh(db), State(Run(db, ops), map[], ops))
    decreases |ops|
  {
    if ops == [] {
      assert Possible(Fresh(db), []) && Reached(Fresh(db), []) == Fresh(db);
    } else {
      var init, op := ops[..|ops| - 1], ops[|ops| - 1];
      assert ops == init + [op];
      SplitAccepted(db, init, op);
      EveryAcceptedRunIsReachable(db, init);
      AcceptedCommits(Run(db, init), init, op);
      RunAppends(db, init, [op]);
      assert Run(Run(db, init), [op]) == After(Run(db, init), op) by { assert [op][1..] == []; }
      LeadsThrough(Fresh(db), State(Run(db, init), map[], init), State(Run(db, ops), map[], ops));
    }
  }

  lemma {:induction false} SplitAccepted(db: Db, init: seq<Op>, op: Op)
    requires AllAccepted(db, init + [op])
    ensures AllAccepted(db, init) && Apply(Run(db, init), op).Accepted?
    decreases |init|
  {
    if init == [] {
      assert init + [op] == [op];
    } else {
      assert (init + [op])[0] == init[0] && (init + [op])[1..] == init[1..] + [op];
      SplitAccepted(After(db, init[0]), init[1..], op);
    }
  }

  lemma {:induction false} Joined(s: State, a: seq<Step>, b: seq<Step>)
    requires Possible(s, a) && Possible(Reached(s, a), b)
    ensures Possible(s, a + b) && Reached(s, a + b) == Reached(Reached(s, a), b)
    decreases |a|
  {
    if a == [] {
      assert a + b == b;
    } else {
      assert (a + b)[0] == a[0] && (a + b)[1..] == a[1..] + b;
      Joined(Next(s, a[0]), a[1..], b);
    }
  }

  lemma LeadsThrough(s: State, s1: State, s2: State)
    requires Leads(s, s1) && Leads(s1, s2)
    ensures Leads(s, s2)
  {
    var a :| Possible(s, a) && Reached(s, a) == s1;
    var b :| Possible(s1, b) && Reached(s1, b) == s2;
    Joined(s, a, b);
  }

  // ----- Why the share lock is there -----

  /** Two statements judged on the same tables, one writing a membership under a waiver and
      one revoking it, with both their effects kept. */
  function BothEffects(db: Db, a: Op, b: Op): Db {
    Db(db.catalogue, Rows(Rows(db.memberships, a), b), WaiverRows(WaiverRows(db.waivers, a), b))
  }

  const Purchasing := Catalogue(map[0 := Rule("order and pay", {"order"}, {"pay"}, true)],
                                map["buyer" := {"order", "pay"}], map[])
  const Granted := Waiver(0, 7, 0, "two of us", 1, 0, Some(2), Some(0), Some("agreed"), None, None, None)
  const Withdrawn := Granted.(revokedBy := Some(1), revokedAt := Some(1), revokeReason := Some("over"))
  const Buyer := Membership(7, HeldKeys({"buyer"}, {}))
  const Beforehand := Db(Purchasing, map[], map[0 := Granted])

  lemma BuyerBreaksTheRule()
    ensures RuleBroken(Purchasing, 0, Buyer.held)
  {
    var buyer := "buyer";
    assert buyer in Buyer.held.roles && buyer in Purchasing.roles;
    assert "order" in Purchasing.roles[buyer] && "pay" in Purchasing.roles[buyer];
    assert "order" in Held(Purchasing, Buyer.held) && "pay" in Held(Purchasing, Buyer.held);
  }

  lemma TextsAreNotBlank()
    ensures NonBlank("two of us") && NonBlank("agreed") && NonBlank("over")
  {
    assert 't' in "two of us" && 'a' in "agreed" && 'o' in "over";
  }

  lemma BuyerIsExcused()
    ensures Valid(Beforehand) && Write(Beforehand, 3, Buyer).Accepted?
  {
    TextsAreNotBlank();
    assert Beforehand.waivers[0].Lifts(7, 0);
    NoViolationIsSafe(Purchasing, Beforehand.waivers, 7, Buyer.held);
  }

  lemma NobodyReliesYet()
    ensures Update(Beforehand, 0, Withdrawn).Accepted?
  {
    TextsAreNotBlank();
    assert Relying(Beforehand, Withdrawn) == {};
  }

  /** Without the lock both would be accepted, and a membership left uncovered. */
  lemma WithoutTheLockBothPass()
    ensures Valid(Beforehand) && Unsafe(Beforehand) == {}
    ensures Apply(Beforehand, WriteMembership(3, Buyer)).Accepted?
    ensures Apply(Beforehand, UpdateWaiver(0, Withdrawn)).Accepted?
    ensures Unsafe(BothEffects(Beforehand, WriteMembership(3, Buyer), UpdateWaiver(0, Withdrawn))) == {3}
  {
    BuyerIsExcused();
    NobodyReliesYet();
    BuyerBreaksTheRule();
    var both := BothEffects(Beforehand, WriteMembership(3, Buyer), UpdateWaiver(0, Withdrawn));
    assert both.memberships[3] == Buyer && both.waivers[0] == Withdrawn;
    assert !SafeRow(both, Buyer);
  }
}
