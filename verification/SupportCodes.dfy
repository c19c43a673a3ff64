/** Numbering support grants concurrently: the guard takes the tenant's advisory lock,
    then reads the greatest number in a fresh snapshot, and the lock is held to the end of
    the transaction. Transactions of different tenants do not wait for each other. */
module SupportCodes {
  import opened Options
  import opened SupportGrants

  type TxnId = nat

  /** One transaction inserts one grant. */
  datatype Txn =
    | Waiting(row: NewGrant)
    | Locked(row: NewGrant)
    | Ready(row: NewGrant, grant: Grant)

  /** `log` records the committed inserts, in commit order. */
  datatype State = State(table: Table, txns: map<TxnId, Txn>, log: seq<Statement>)

  datatype Step =
    | Begin(t: TxnId, row: NewGrant)
    | TakeLock(t: TxnId)
    | Number(t: TxnId)
    | Commit(t: TxnId)
    | Rollback(t: TxnId)

  predicate HoldsLock(txn: Txn, tenant: TenantId) {
    !txn.Waiting? && txn.row.tenant == tenant
  }

  predicate Enabled(s: State, step: Step) {
    && (step.Begin? <==> step.t !in s.txns)
    && match step
       case Begin(_, _) => true
       case TakeLock(t) => s.txns[t].Waiting? && forall u | u in s.txns :: !HoldsLock(s.txns[u], s.txns[t].row.tenant)
       case Number(t) => s.txns[t].Locked?
       case Commit(t) => s.txns[t].Ready? && s.txns[t].grant.id !in s.table
       case Rollback(t) => true
  }

  /** The guard and the constraints judge the insert on what is committed at that moment;
      a refusal ends the transaction. */
  function Next(s: State, step: Step): State
    requires Enabled(s, step)
  {
    match step
    case Begin(t, row) => s.(txns := s.txns[t := Waiting(row)])
    case TakeLock(t) => s.(txns := s.txns[t := Locked(s.txns[t].row)])
    case Number(t) =>
      var row := s.txns[t].row;
      if ApplyInsert(s.table, App, row).Accepted?
      then s.(txns := s.txns[t := Ready(row, ApplyInsert(s.table, App, row).table[row.id])])
      else s.(txns := s.txns - {t})
    case Commit(t) =>
      State(s.table[s.txns[t].grant.id := s.txns[t].grant], s.txns - {t}, s.log + [Insert(App, s.txns[t].row)])
    case Rollback(t) => s.(txns := s.txns - {t})
  }

  predicate Possible(s: State, steps: seq<Step>)
    decreases |steps|
  {
    steps == [] || (Enabled(s, steps[0]) && Possible(Next(s, steps[0]), steps[1..]))
  }

  function Reached(s: State, steps: seq<Step>): State
    requires Possible(s, steps)
    decreases |steps|
  {
    if steps == [] then s else Reached(Next(s, steps[0]), steps[1..])
  }

  /** A numbered transaction holds the code that the guard would give it now. */
  ghost predicate StillNext(table: Table, txn: Txn)
    requires txn.Ready?
  {
    && NextCode(table, txn.row.tenant).Some?
    && txn.grant == Inserted(txn.row, NextCode(table, txn.row.tenant).value)
    && (txn.row.status.PendingApproval? || txn.row.status.PendingAssignment?)
    && Checks(txn.grant)
  }

  ghost predicate Inv(s: State) {
    && Valid(s.table)
    && (forall tenant: TenantId :: Numbered(s.table, tenant))
    && (forall t | t in s.txns && s.txns[t].Ready? :: StillNext(s.table, s.txns[t]))
    && (forall t, u | t in s.txns && u in s.txns && t != u && !s.txns[t].Waiting? ::
          !HoldsLock(s.txns[u], s.txns[t].row.tenant))
  }

  lemma NumberKeepsInv(s: State, t: TxnId)
    requires Inv(s) && Enabled(s, Number(t))
    ensures Inv(Next(s, Number(t)))
  {
    var row := s.txns[t].row;
    if ApplyInsert(s.table, App, row).Accepted? {
      SupportGrants.Effect(s.table, Insert(App, row));
    }
  }

  /** What commits is what the guard would accept now, so it is a sequential insert. */
  lemma CommitIsAnInsert(s: State, t: TxnId)
    requires Inv(s) && Enabled(s, Commit(t))
    ensures Apply(s.table, Insert(App, s.txns[t].row)) == Accepted(Next(s, Commit(t)).table)
  {
    var row := s.txns[t].row;
    NextCodeIsFree(s.table, row.tenant);
  }

  lemma OtherTenantsKeepTheirNext(table: Table, g: Grant, tenant: TenantId)
    requires g.id !in table && g.tenant != tenant
    ensures NextCode(table[g.id := g], tenant) == NextCode(table, tenant)
  {
    var table' := table[g.id := g];
    forall n
      ensures n in Numbers(table', tenant) <==> n in Numbers(table, tenant)
    {
      if n in Numbers(table, tenant) {
        var id :| id in table && table[id].tenant == tenant && NumberIn(table[id].code) == Some(n);
        assert id in table' && table'[id] == table[id];
      }
    }
    assert Numbers(table', tenant) == Numbers(table, tenant);
  }

  lemma CommitKeepsInv(s: State, t: TxnId)
    requires Inv(s) && Enabled(s, Commit(t))
    ensures Inv(Next(s, Commit(t)))
  {
    var s', txn := Next(s, Commit(t)), s.txns[t];
    CommitIsAnInsert(s, t);
    StepKeepsValid(s.table, Insert(App, txn.row));
    forall tenant: TenantId
      ensures Numbered(s'.table, tenant)
    {
      StepKeepsNumbered(s.table, Insert(App, txn.row), tenant);
    }
    forall u | u in s'.txns && s'.txns[u].Ready?
      ensures StillNext(s'.table, s'.txns[u])
    {
      assert !HoldsLock(s.txns[u], txn.row.tenant);
      OtherTenantsKeepTheirNext(s.table, txn.grant, s.txns[u].row.tenant);
    }
  }

  lemma {:induction false} RunsAppend(table: Table, a: seq<Statement>, b: Statement)
    ensures Run(table, a + [b]) == After(Run(table, a), b)
    decreases |a|
  {
    if a == [] {
      assert [] + [b] == [b] && [b][1..] == [];
    } else {
      assert (a + [b])[0] == a[0] && (a + [b])[1..] == a[1..] + [b];
      RunsAppend(After(table, a[0]), a[1..], b);
    }
  }

  lemma {:induction false} ReachedKeepsInv(s: State, steps: seq<Step>)
    requires Inv(s) && s.table == Run(map[], s.log) && Possible(s, steps)
    ensures Inv(Reached(s, steps)) && Reached(s, steps).table == Run(map[], Reached(s, steps).log)
    decreases |steps|
  {
    if steps != [] {
      var s' := Next(s, steps[0]);
      match steps[0] {
        case Number(t) => NumberKeepsInv(s, t);
        case Commit(t) =>
          CommitKeepsInv(s, t);
          CommitIsAnInsert(s, t);
          RunsAppend(map[], s.log, Insert(App, s.txns[t].row));
        case _ =>
      }
      ReachedKeepsInv(s', steps[1..]);
    }
  }

  /** Whatever the interleaving of inserts, rollbacks included, the committed grants are
      those of the inserts run one by one in commit order, and each tenant's codes are
      those of 1 to however many grants it has. */
  lemma ConcurrentCodesAreOneToN(steps: seq<Step>, tenant: TenantId)
    requires Possible(State(map[], map[], []), steps)
    ensures var s := Reached(State(map[], map[], []), steps);
            s.table == Run(map[], s.log) && Numbered(s.table, tenant)
  {
    var start := State(map[], map[], []);
    forall tenant: TenantId
      ensures Numbered(start.table, tenant)
    {
      assert Rows(start.table, tenant) == {};
    }
    ReachedKeepsInv(start, steps);
  }
}
