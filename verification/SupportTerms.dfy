/** The terms of a support grant, in full: what a stored row may look like at each stage, which
    statements are taken, and until when an activation runs, over every run of the two roles. */
module SupportTerms {
  import opened Options
  import opened Decimal
  import opened SupportGrants

  // ----- Texts with the spaces off their ends -----

  predicate Spaces(s: string) {
    forall i | 0 <= i < |s| :: s[i] == ' '
  }

  /** What is left of `s` between `i` and `j` once the spaces around it are off. */
  predicate Core(s: string, i: nat, j: nat) {
    i < j <= |s| && Spaces(s[..i]) && Spaces(s[j..]) && s[i] != ' ' && s[j - 1] != ' '
  }

  /** There is something besides the spaces at the ends, and at most `most` characters of it. */
  ghost predicate Says(s: string, most: nat) {
    exists i: nat, j: nat :: Core(s, i, j) && j - i <= most
  }

  lemma SpaceBefore(s: string, a: nat, b: nat)
    requires s != "" && s[0] == ' ' && a <= b <= |s| - 1
    requires if a < b then Core(s[1..], a, b) else Spaces(s[1..])
    ensures if a < b then Core(s, a + 1, b + 1) else Spaces(s)
  {
    if a < b {
      assert s[b + 1..] == s[1..][b..] && s[..a + 1] == [' '] + s[1..][..a];
    } else {
      assert s == [' '] + s[1..];
    }
  }

  lemma SpaceAfter(s: string, a: nat, b: nat)
    requires s != "" && s[|s| - 1] == ' ' && a <= b <= |s| - 1
    requires if a < b then Core(s[..|s| - 1], a, b) else Spaces(s[..|s| - 1])
    ensures if a < b then Core(s, a, b) else Spaces(s)
  {
    var rest := s[..|s| - 1];
    if a < b {
      assert s[..a] == rest[..a] && s[b..] == rest[b..] + [' '];
    } else {
      assert s == rest + [' '];
    }
  }

  lemma {:induction false} TrimmedIsTheCore(s: string) returns (i: nat, j: nat)
    ensures i <= j <= |s| && Trimmed(s) == s[i..j]
    ensures if i < j then Core(s, i, j) else Spaces(s)
    decreases |s|
  {
    if s != "" && s[0] == ' ' {
      var a, b := TrimmedIsTheCore(s[1..]);
      SpaceBefore(s, a, b);
      i, j := a + 1, b + 1;
      assert s[1..][a..b] == s[i..j];
    } else if s != "" && s[|s| - 1] == ' ' {
      i, j := TrimmedIsTheCore(s[..|s| - 1]);
      SpaceAfter(s, i, j);
      assert s[..|s| - 1][i..j] == s[i..j];
    } else {
      i, j := 0, |s|;
    }
  }

  lemma SpacesAround(s: string, i: nat, j: nat)
    requires Core(s, i, j)
    ensures forall k | 0 <= k < i || j <= k < |s| :: s[k] == ' '
  {
    forall k | 0 <= k < i || j <= k < |s|
      ensures s[k] == ' '
    {
      assert s[k] == if k < i then s[..i][k] else s[j..][k - j];
    }
  }

  lemma CoreIsUnique(s: string, i: nat, j: nat, a: nat, b: nat)
    requires Core(s, i, j) && Core(s, a, b)
    ensures i == a && j == b
  {
    SpacesAround(s, i, j);
    SpacesAround(s, a, b);
  }

  lemma TrimmedMeansSays(s: string, most: nat)
    ensures 1 <= |Trimmed(s)| <= most <==> Says(s, most)
    ensures Trimmed(s) != "" <==> Says(s, |s|)
  {
    var i, j := TrimmedIsTheCore(s);
    forall a: nat, b: nat | Core(s, a, b)
      ensures i == a && j == b
    {
      assert s[a] != ' ';
      CoreIsUnique(s, i, j, a, b);
    }
  }

  // ----- Whole rows -----

  /** What may be asked for. */
  ghost predicate RequestWhole(r: Request) {
    && 1 <= |r.resourceType| <= 40
    && (forall i | 0 <= i < |r.resourceType| :: r.resourceType[i] == '_' || 'a' <= r.resourceType[i] <= 'z')
    && (r.resource == None <==> r.resourceType == "workspace")
    && Says(r.resourceLabel, 200) && Says(r.reason, 300)
    && Says(r.scopeSetKey, |r.scopeSetKey|) && Says(r.scopeSetLabel, |r.scopeSetLabel|)
    && r.scopes != []
    && 1 <= r.durationHours <= 336
  }

  predicate NotGranted(g: Grant) {
    g.grantedBy == None && g.grantedAt == None
  }

  predicate NotRejected(g: Grant) {
    g.rejectedBy == None && g.rejectedAt == None && g.rejectReason == None
  }

  predicate NotAssigned(g: Grant) {
    g.staff == None && g.assignedBy == None && g.activatedAt == None && g.expiresAt == None
  }

  predicate NotRevoked(g: Grant) {
    g.revokedBy == None && g.revokedAt == None
  }

  /** Granted, handed to somebody, and running for exactly the hours that were asked for. */
  predicate InForce(g: Grant) {
    && g.grantedAt.Some? && g.staff.Some? && g.activatedAt.Some?
    && g.expiresAt == Some(g.activatedAt.value + g.request.durationHours * 60 * 60)
  }

  /** What a row carries at each stage, and what it does not carry yet. */
  ghost predicate StageWhole(g: Grant) {
    match g.status
    case PendingApproval => NotGranted(g) && NotRejected(g) && NotAssigned(g) && NotRevoked(g)
    case PendingAssignment => g.grantedAt.Some? && NotRejected(g) && NotAssigned(g) && NotRevoked(g)
    case Active => InForce(g) && NotRejected(g) && NotRevoked(g)
    case Rejected =>
      && NotGranted(g) && NotAssigned(g) && NotRevoked(g)
      && g.rejectedAt.Some? && g.rejectReason.Some? && Says(g.rejectReason.value, 300)
    case Revoked => g.revokedAt.Some? && NotRejected(g) && (NotAssigned(g) || InForce(g))
  }

  lemma RequestChecksMeanWhole(r: Request)
    ensures RequestChecks(r) <==> RequestWhole(r)
  {
    TrimmedMeansSays(r.resourceLabel, 200);
    TrimmedMeansSays(r.reason, 300);
    TrimmedMeansSays(r.scopeSetKey, 0);
    TrimmedMeansSays(r.scopeSetLabel, 0);
    forall i | 0 <= i < |r.resourceType|
      ensures r.resourceType[i] in r.resourceType
    {
    }
  }

  /** The CHECK constraints together hold of exactly the whole rows. */
  lemma ChecksMeanWhole(g: Grant)
    ensures Checks(g) <==> RequestWhole(g.request) && StageWhole(g)
  {
    RequestChecksMeanWhole(g.request);
    if g.rejectReason.Some? {
      TrimmedMeansSays(g.rejectReason.value, 300);
    }
  }

  /** Over any run from the empty table, every stored row is whole for its stage. */
  lemma StoredGrantsAreWhole(sts: seq<Statement>, id: GrantId)
    requires id in Run(map[], sts)
    ensures Run(map[], sts)[id].id == id
    ensures RequestWhole(Run(map[], sts)[id].request) && StageWhole(Run(map[], sts)[id])
  {
    HistoryAgrees(map[], sts, id, []);
    ChecksMeanWhole(Run(map[], sts)[id]);
  }

  lemma WholeEnds(g: Grant)
    requires RequestWhole(g.request) && StageWhole(g) && g.activatedAt.Some?
    ensures 1 <= g.request.durationHours <= 336
    ensures g.expiresAt == Some(g.activatedAt.value + 3600 * g.request.durationHours) && g.staff.Some?
  {
  }

  lemma EndStays(table: Table, later: seq<Statement>, id: GrantId)
    requires Valid(table) && id in table && table[id].activatedAt.Some?
    ensures id in Run(table, later)
    ensures var g := Run(table, later)[id];
            g.activatedAt == table[id].activatedAt && g.expiresAt == table[id].expiresAt && g.staff == table[id].staff
  {
    DecidedStaysDecided(table, later, id);
  }

  /** Over any run, a grant that carries an activation ends the hours asked for after it, between one
      hour and fourteen days later; and once it does, that end stays through every later statement,
      revocation included. */
  lemma ActivationRunsTheHoursAskedFor(sts: seq<Statement>, later: seq<Statement>, id: GrantId)
    requires id in Run(map[], sts) && Run(map[], sts)[id].activatedAt.Some?
    ensures var g := Run(map[], sts)[id];
            && 1 <= g.request.durationHours <= 336
            && g.expiresAt == Some(g.activatedAt.value + 3600 * g.request.durationHours) && g.staff.Some?
    ensures id in Run(map[], sts + later)
    ensures var g, then_ := Run(map[], sts)[id], Run(map[], sts + later)[id];
            then_.activatedAt == g.activatedAt && then_.expiresAt == g.expiresAt && then_.staff == g.staff
  {
    StoredGrantsAreWhole(sts, id);
    WholeEnds(Run(map[], sts)[id]);
    HistoryAgrees(map[], sts, id, []);
    RunOnward(map[], sts, later);
    EndStays(Run(map[], sts), later, id);
  }

  lemma {:induction false} RunOnward(table: Table, sts: seq<Statement>, later: seq<Statement>)
    ensures Run(table, sts + later) == Run(Run(table, sts), later)
    decreases |sts|
  {
    if sts == [] {
      assert sts + later == later;
    } else {
      assert (sts + later)[0] == sts[0] && (sts + later)[1..] == sts[1..] + later;
      RunOnward(After(table, sts[0]), sts[1..], later);
    }
  }

  // ----- Which statements are taken -----

  lemma InsertMeans(table: Table, role: Role, row: NewGrant)
    requires Numbered(table, row.tenant)
    ensures var code := Code(|Rows(table, row.tenant)| + 1);
            && (ApplyInsert(table, role, row).Accepted? <==>
                  && role.App? && (row.status.PendingApproval? || row.status.PendingAssignment?)
                  && |Rows(table, row.tenant)| < MaxInteger && Checks(Inserted(row, code)) && row.id !in table)
            && (ApplyInsert(table, role, row).Accepted? ==>
                  ApplyInsert(table, role, row) == Accepted(table[row.id := Inserted(row, code)]))
  {
    NextCodeIsFree(table, row.tenant);
  }

  /** A new row as it may start: a request, or granted at once. */
  predicate Starts(row: NewGrant) {
    || (row.status == PendingApproval && row.grantedBy == None && row.grantedAt == None)
    || (row.status == PendingAssignment && row.grantedAt.Some?)
  }

  lemma InsertedWhole(row: NewGrant, code: string)
    requires row.status.PendingApproval? || row.status.PendingAssignment?
    ensures Checks(Inserted(row, code)) <==> RequestWhole(row.request) && Starts(row)
  {
    ChecksMeanWhole(Inserted(row, code));
  }

  /** After any run, a new grant is taken if and only if the customer's side asks, it starts as a
      request or already granted, what it carries is whole, its id is new and the numbers last. It is
      stored as asked for, with the next code of its tenant, and no other row changes. */
  lemma InsertedExactly(sts: seq<Statement>, table: Table, role: Role, row: NewGrant)
    requires table == Run(map[], sts)
    ensures Apply(table, Insert(role, row)).Accepted? <==>
              && role == App && RequestWhole(row.request) && Starts(row) && row.id !in table
              && |Rows(table, row.tenant)| < 0x7fff_ffff
    ensures Apply(table, Insert(role, row)).Accepted? ==>
              After(table, Insert(role, row)) ==
              table[row.id := Grant(row.id, Code(|Rows(table, row.tenant)| + 1), row.tenant, row.request, row.status,
                                    row.grantedBy, row.grantedAt,
                                    None, None, None, None, None, None, None, None, None)]
  {
    NumberedAfter(sts, row.tenant);
    InsertMeans(table, role, row);
    if row.status.PendingApproval? || row.status.PendingAssignment? {
      InsertedWhole(row, Code(|Rows(table, row.tenant)| + 1));
    }
  }

  lemma NumberedAfter(sts: seq<Statement>, tenant: TenantId)
    ensures Numbered(Run(map[], sts), tenant)
  {
    var empty: Table := map[];
    assert Rows(empty, tenant) == {};
    assert Numbered(empty, tenant);
    CodesAreOneToN(map[], sts, tenant);
  }

  lemma DigitsAreFew(n: nat)
    ensures n < 10000 <==> |Digits(n)| <= 4
  {
    assert n >= 10 ==> |Digits(n)| == |Digits(n / 10)| + 1;
    assert n >= 100 ==> |Digits(n / 10)| == |Digits(n / 10 / 10)| + 1;
    assert n >= 1000 ==> |Digits(n / 10 / 10)| == |Digits(n / 10 / 10 / 10)| + 1;
    assert n >= 10000 ==> |Digits(n / 10 / 10 / 10)| == |Digits(n / 10 / 10 / 10 / 10)| + 1;
  }

  /** A code is `SG-` and the number: in four digits below ten thousand, with no zero before it above. */
  lemma CodeReads(n: nat)
    ensures |Code(n)| >= 7 && Code(n)[..3] == "SG-" && AllDigits(Code(n)[3..]) && Value(Code(n)[3..]) == n
    ensures if n < 10000 then |Code(n)| == 7 else Code(n)[3] != '0'
  {
    ValueOfDigits(n);
    DigitsAreFew(n);
    PaddedKeepsValue(Digits(n), 4);
    var digits := if n < 10000 then Padded(Digits(n), 4) else Digits(n);
    assert |digits| >= 4;
    assert Code(n) == "SG-" + digits;
    assert Code(n)[3..] == digits;
  }

  /** One column of a row. */
  datatype Cell =
    | Asked(id: GrantId, code: string, tenant: TenantId, request: Request)
    | Standing(status: Status)
    | Person(who: Option<UserId>)
    | Moment(at: Option<int>)
    | Words(text: Option<string>)

  function CellOf(g: Grant, c: Column): Cell {
    match c
    case AskedFor => Asked(g.id, g.code, g.tenant, g.request)
    case StatusColumn => Standing(g.status)
    case GrantedBy => Person(g.grantedBy)
    case GrantedAt => Moment(g.grantedAt)
    case RejectedBy => Person(g.rejectedBy)
    case RejectedAt => Moment(g.rejectedAt)
    case RejectReason => Words(g.rejectReason)
    case StaffUserId => Person(g.staff)
    case AssignedBy => Person(g.assignedBy)
    case ActivatedAt => Moment(g.activatedAt)
    case ExpiresAt => Moment(g.expiresAt)
    case RevokedBy => Person(g.revokedBy)
    case RevokedAt => Moment(g.revokedAt)
  }

  /** The move each status makes, and the columns it may add. */
  ghost predicate Advances(before: Grant, after: Grant) {
    match (before.status, after.status)
    case (PendingApproval, PendingAssignment) =>
      after == before.(status := after.status, grantedBy := after.grantedBy, grantedAt := after.grantedAt)
    case (PendingApproval, Rejected) =>
      after == before.(status := after.status, rejectedBy := after.rejectedBy, rejectedAt := after.rejectedAt,
                       rejectReason := after.rejectReason)
    case (PendingApproval, Revoked) =>
      after == before.(status := after.status, grantedBy := after.grantedBy, grantedAt := after.grantedAt,
                       revokedBy := after.revokedBy, revokedAt := after.revokedAt)
    case (PendingAssignment, Active) =>
      after == before.(status := after.status, staff := after.staff, assignedBy := after.assignedBy,
                       activatedAt := after.activatedAt, expiresAt := after.expiresAt)
    case (PendingAssignment, Revoked) =>
      after == before.(status := after.status, revokedBy := after.revokedBy, revokedAt := after.revokedAt)
    case (Active, Revoked) =>
      after == before.(status := after.status, revokedBy := after.revokedBy, revokedAt := after.revokedAt)
    case _ => false
  }

  /** What an update makes of a row: the columns its SET list names, and no others. */
  ghost predicate SetFrom(before: Grant, values: Grant, columns: set<Column>, after: Grant) {
    forall c :: CellOf(after, c) == CellOf(if c in columns then values else before, c)
  }

  lemma AssignedSets(before: Grant, values: Grant, columns: set<Column>, c: Column)
    ensures CellOf(Assigned(before, values, columns), c) == CellOf(if c in columns then values else before, c)
  {
  }

  ghost predicate SameCells(a: Grant, b: Grant) {
    forall c :: CellOf(a, c) == CellOf(b, c)
  }

  lemma SameCellsSameRow(a: Grant, b: Grant)
    requires SameCells(a, b)
    ensures a == b
  {
    assert CellOf(a, AskedFor) == CellOf(b, AskedFor) && CellOf(a, StatusColumn) == CellOf(b, StatusColumn);
    assert CellOf(a, GrantedBy) == CellOf(b, GrantedBy) && CellOf(a, GrantedAt) == CellOf(b, GrantedAt);
    assert CellOf(a, RejectedBy) == CellOf(b, RejectedBy) && CellOf(a, RejectedAt) == CellOf(b, RejectedAt);
    assert CellOf(a, RejectReason) == CellOf(b, RejectReason);
    assert CellOf(a, StaffUserId) == CellOf(b, StaffUserId) && CellOf(a, AssignedBy) == CellOf(b, AssignedBy);
    assert CellOf(a, ActivatedAt) == CellOf(b, ActivatedAt) && CellOf(a, ExpiresAt) == CellOf(b, ExpiresAt);
    assert CellOf(a, RevokedBy) == CellOf(b, RevokedBy) && CellOf(a, RevokedAt) == CellOf(b, RevokedAt);
  }

  lemma SetFromIsOne(before: Grant, values: Grant, columns: set<Column>, after: Grant)
    ensures SetFrom(before, values, columns, after) <==> after == Assigned(before, values, columns)
  {
    var new_ := Assigned(before, values, columns);
    forall c
      ensures CellOf(new_, c) == CellOf(if c in columns then values else before, c)
    {
      AssignedSets(before, values, columns, c);
    }
    if SetFrom(before, values, columns, after) {
      forall c
        ensures CellOf(after, c) == CellOf(new_, c)
      {
        assert CellOf(after, c) == CellOf(if c in columns then values else before, c);
      }
      SameCellsSameRow(after, new_);
    }
  }

  /** After any run, an update takes a stored row on to `after` if and only if its role may write the
      columns it names, `after` is the row with those columns set, one permitted move that adds its own
      columns and touches no others, and whole for its stage. No other row changes. */
  lemma MovedExactly(sts: seq<Statement>, table: Table, st: Statement, after: Grant)
    requires table == Run(map[], sts) && st.Change? && st.id in table
    ensures Apply(table, st) == Accepted(table[st.id := after]) <==>
              && st.columns <= (if st.role == App
                                then {StatusColumn, GrantedBy, GrantedAt, RejectedBy, RejectedAt, RejectReason,
                                      RevokedBy, RevokedAt}
                                else {StatusColumn, StaffUserId, AssignedBy, ActivatedAt, ExpiresAt})
              && SetFrom(table[st.id], st.values, st.columns, after)
              && Advances(table[st.id], after)
              && StageWhole(after)
    ensures Apply(table, st).Accepted? ==> After(table, st) == table[st.id := After(table, st)[st.id]]
  {
    HistoryAgrees(map[], sts, st.id, []);
    ChangedExactly(table, st, after);
  }

  lemma ChangedExactly(table: Table, st: Statement, after: Grant)
    requires Valid(table) && st.Change? && st.id in table
    ensures Apply(table, st) == Accepted(table[st.id := after]) <==>
              && st.columns <= MayUpdate(st.role) && SetFrom(table[st.id], st.values, st.columns, after)
              && Advances(table[st.id], after) && StageWhole(after)
    ensures Apply(table, st).Accepted? ==> After(table, st) == table[st.id := After(table, st)[st.id]]
  {
    var new_ := Assigned(table[st.id], st.values, st.columns);
    SetFromIsOne(table[st.id], st.values, st.columns, after);
    if st.columns <= MayUpdate(st.role) {
      AdvancesMeansGuarded(table, st.role, st.id, st.columns, st.values);
    }
    assert table[st.id := after][st.id] == after && table[st.id := new_][st.id] == new_;
  }

  lemma AdvancesMeansGuarded(table: Table, role: Role, id: GrantId, columns: set<Column>, values: Grant)
    requires Valid(table) && id in table && columns <= MayUpdate(role)
    ensures var new_ := Assigned(table[id], values, columns);
            ApplyChange(table, role, id, columns, values).Accepted? <==> Advances(table[id], new_) && StageWhole(new_)
  {
    var old_, new_ := table[id], Assigned(table[id], values, columns);
    ChecksMeanWhole(old_);
    ChecksMeanWhole(new_);
    OwnColumnsOnly(old_, values, role, columns);
    GuardMeansAdvances(old_, new_, role);
  }

  /** The columns of the other role stay as they were. */
  ghost predicate OthersKept(role: Role, before: Grant, after: Grant) {
    && after.id == before.id && after.code == before.code && after.tenant == before.tenant
    && after.request == before.request
    && (role.App? ==>
          (after.staff, after.assignedBy, after.activatedAt, after.expiresAt)
          == (before.staff, before.assignedBy, before.activatedAt, before.expiresAt))
    && (role.Provisioner? ==>
          && (after.grantedBy, after.grantedAt) == (before.grantedBy, before.grantedAt)
          && (after.rejectedBy, after.rejectedAt, after.rejectReason)
             == (before.rejectedBy, before.rejectedAt, before.rejectReason)
          && (after.revokedBy, after.revokedAt) == (before.revokedBy, before.revokedAt))
  }

  lemma OwnColumnsOnly(before: Grant, values: Grant, role: Role, columns: set<Column>)
    requires columns <= MayUpdate(role)
    ensures OthersKept(role, before, Assigned(before, values, columns))
  {
  }

  lemma GuardMeansAdvances(before: Grant, after: Grant, role: Role)
    requires StageWhole(before) && OthersKept(role, before, after)
    ensures GuardUpdate(before, after).None? && StageWhole(after) <==> Advances(before, after) && StageWhole(after)
  {
    if StageWhole(after) && Moves(before.status, after.status) {
      assert NotRejected(before);
    }
  }
}
