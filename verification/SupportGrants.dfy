/** Customer-granted support access: one row per grant, moved by two database roles.

    What a run can reach is decided jointly by the columns each role may write, the guard
    trigger and the CHECK constraints; no one of them is enough. */
module SupportGrants {
  import opened Options
  import opened Decimal

  type GrantId = nat
  type TenantId = nat
  type UserId = nat

  datatype Status = PendingApproval | PendingAssignment | Active | Rejected | Revoked

  /** What was asked for: written once, by the insert. */
  datatype Request = Request(
    workspace: nat, resourceType: string, resource: Option<nat>, resourceLabel: string,
    scopeSetKey: string, scopeSetLabel: string, scopes: seq<string>, reason: string,
    durationHours: int, requestedBy: Option<UserId>, requestedAt: int)

  /** Times are whole seconds. */
  datatype Grant = Grant(
    id: GrantId, code: string, tenant: TenantId, request: Request, status: Status,
    grantedBy: Option<UserId>, grantedAt: Option<int>,
    rejectedBy: Option<UserId>, rejectedAt: Option<int>, rejectReason: Option<string>,
    staff: Option<UserId>, assignedBy: Option<UserId>, activatedAt: Option<int>, expiresAt: Option<int>,
    revokedBy: Option<UserId>, revokedAt: Option<int>)

  type Table = map<GrantId, Grant>

  datatype Refusal =
    | NoPrivilege
    | BadStart
    | RequestChanged
    | GranterChanged
    | HolderChanged
    | BadMove
    | CheckFailed
    | IdTaken
    | CodeTaken
    | CodeUnreadable
    | OutOfNumbers
    | NoSuchRow

  datatype Outcome = Accepted(table: Table) | Refused(why: Refusal)

  // ----- CHECK constraints -----

  /** `btrim`: spaces off both ends. */
  function Trimmed(s: string): string {
    if s != "" && s[0] == ' ' then Trimmed(s[1..])
    else if s != "" && s[|s| - 1] == ' ' then Trimmed(s[..|s| - 1])
    else s
  }

  predicate LowerOrUnderscore(s: string) {
    forall c | c in s :: c == '_' || 'a' <= c <= 'z'
  }

  predicate RequestChecks(r: Request) {
    && 1 <= |r.resourceType| <= 40 && LowerOrUnderscore(r.resourceType)
    && (r.resource.None? <==> r.resourceType == "workspace")
    && 1 <= |Trimmed(r.resourceLabel)| <= 200
    && Trimmed(r.scopeSetKey) != "" && Trimmed(r.scopeSetLabel) != ""
    && |r.scopes| > 0
    && 1 <= |Trimmed(r.reason)| <= 300
    && 1 <= r.durationHours <= 336
  }

  predicate GrantedCheck(g: Grant) {
    match g.status
    case PendingAssignment => g.grantedAt.Some?
    case Active => g.grantedAt.Some?
    case Revoked => true
    case _ => g.grantedAt.None? && g.grantedBy.None?
  }

  predicate RejectedCheck(g: Grant) {
    && (g.status.Rejected? <==> g.rejectedAt.Some?)
    && (g.status.Rejected? <==> g.rejectReason.Some?)
    && (g.status.Rejected? || g.rejectedBy.None?)
    && (g.rejectReason.Some? ==> 1 <= |Trimmed(g.rejectReason.value)| <= 300)
  }

  predicate AssignedCheck(g: Grant) {
    && (g.activatedAt.None? <==> g.expiresAt.None?)
    && (g.activatedAt.None? <==> g.staff.None?)
    && (g.activatedAt.Some? || g.assignedBy.None?)
    && (match g.status
        case Active => g.activatedAt.Some? && g.grantedAt.Some?
        case Revoked => g.activatedAt.None? || g.grantedAt.Some?
        case _ => g.activatedAt.None?)
    && (g.expiresAt.Some? && g.activatedAt.Some? ==>
          g.expiresAt.value == g.activatedAt.value + 3600 * g.request.durationHours)
  }

  predicate RevokedCheck(g: Grant) {
    (g.status.Revoked? <==> g.revokedAt.Some?) && (g.status.Revoked? || g.revokedBy.None?)
  }

  predicate Checks(g: Grant) {
    RequestChecks(g.request) && GrantedCheck(g) && RejectedCheck(g) && AssignedCheck(g) && RevokedCheck(g)
  }

  // ----- Codes -----

  /** `lpad(s, width, '0')`, for an `s` no longer than `width`. */
  function Padded(s: string, width: nat): string
    decreases width - |s|
  {
    if |s| >= width then s else Padded("0" + s, width)
  }

  lemma {:induction false} PaddedKeepsValue(s: string, width: nat)
    requires AllDigits(s)
    ensures AllDigits(Padded(s, width)) && Value(Padded(s, width)) == Value(s)
    ensures |Padded(s, width)| == if |s| >= width then |s| else width
    decreases width - |s|
  {
    if |s| < width {
      assert Zeros(1) + s == "0" + s;
      LeadingZeros(1, s);
      PaddedKeepsValue("0" + s, width);
    }
  }

  /** `SG-0001`: padded to four digits below ten thousand, plain above. */
  function Code(n: nat): string {
    "SG-" + if n < 10000 then Padded(Digits(n), 4) else Digits(n)
  }

  /** `substring(code FROM 4)::integer`; no value when the cast would fail. */
  function NumberIn(code: string): Option<nat> {
    if |code| > 3 && AllDigits(code[3..]) then Some(Value(code[3..])) else None
  }

  lemma NumberInCode(n: nat)
    ensures NumberIn(Code(n)) == Some(n)
  {
    ValueOfDigits(n);
    PaddedKeepsValue(Digits(n), 4);
    assert Code(n)[3..] == if n < 10000 then Padded(Digits(n), 4) else Digits(n);
  }

  function Rows(table: Table, tenant: TenantId): set<GrantId> {
    set id | id in table && table[id].tenant == tenant
  }

  /** The numbers already used by a tenant, as its codes read. */
  function Numbers(table: Table, tenant: TenantId): set<nat> {
    set id | id in table && table[id].tenant == tenant && NumberIn(table[id].code).Some? ::
      NumberIn(table[id].code).value
  }

  lemma {:induction false} GreatestExists(s: set<nat>)
    requires s != {}
    ensures exists m :: m in s && forall n | n in s :: n <= m
    decreases s
  {
    var x :| x in s;
    if y :| y in s && y > x {
      assert y in s - {x};
      GreatestExists(s - {x});
      var m :| m in s - {x} && forall n | n in s - {x} :: n <= m;
      assert m in s && forall n | n in s :: n == x || n in s - {x};
    } else {
      assert x in s && forall n | n in s :: n <= x;
    }
  }

  /** `coalesce(max(...), 0)`. */
  function Greatest(s: set<nat>): (m: nat)
    ensures s == {} ==> m == 0
    ensures s != {} ==> m in s && forall n | n in s :: n <= m
  {
    if s == {} then 0
    else
      GreatestExists(s);
      var m :| m in s && forall n | n in s :: n <= m;
      m
  }

  const MaxInteger := 0x7fff_ffff

  /** The code the guard gives a new grant of `tenant`. */
  function NextCode(table: Table, tenant: TenantId): Option<string> {
    var next := Greatest(Numbers(table, tenant)) + 1;
    if next <= MaxInteger then Some(Code(next)) else None
  }

  // ----- Statements -----

  datatype Role = App | Provisioner

  /** The columns of a row, those of the request taken together. */
  datatype Column =
    | AskedFor | StatusColumn
    | GrantedBy | GrantedAt
    | RejectedBy | RejectedAt | RejectReason
    | StaffUserId | AssignedBy | ActivatedAt | ExpiresAt
    | RevokedBy | RevokedAt

  /** The column-level UPDATE grants. */
  function MayUpdate(role: Role): set<Column> {
    match role
    case App => {StatusColumn, GrantedBy, GrantedAt, RejectedBy, RejectedAt, RejectReason, RevokedBy, RevokedAt}
    case Provisioner => {StatusColumn, StaffUserId, AssignedBy, ActivatedAt, ExpiresAt}
  }

  /** `old` with the columns of a SET list taken from `values`. */
  function Assigned(old_: Grant, values: Grant, columns: set<Column>): Grant {
    Grant(
      if AskedFor in columns then values.id else old_.id,
      if AskedFor in columns then values.code else old_.code,
      if AskedFor in columns then values.tenant else old_.tenant,
      if AskedFor in columns then values.request else old_.request,
      if StatusColumn in columns then values.status else old_.status,
      if GrantedBy in columns then values.grantedBy else old_.grantedBy,
      if GrantedAt in columns then values.grantedAt else old_.grantedAt,
      if RejectedBy in columns then values.rejectedBy else old_.rejectedBy,
      if RejectedAt in columns then values.rejectedAt else old_.rejectedAt,
      if RejectReason in columns then values.rejectReason else old_.rejectReason,
      if StaffUserId in columns then values.staff else old_.staff,
      if AssignedBy in columns then values.assignedBy else old_.assignedBy,
      if ActivatedAt in columns then values.activatedAt else old_.activatedAt,
      if ExpiresAt in columns then values.expiresAt else old_.expiresAt,
      if RevokedBy in columns then values.revokedBy else old_.revokedBy,
      if RevokedAt in columns then values.revokedAt else old_.revokedAt)
  }

  /** What `dw_app` may name in an INSERT; every other column takes its default, NULL. */
  datatype NewGrant = NewGrant(
    id: GrantId, tenant: TenantId, request: Request, status: Status,
    grantedBy: Option<UserId>, grantedAt: Option<int>)

  datatype Statement =
    | Insert(role: Role, row: NewGrant)
    | Change(role: Role, id: GrantId, columns: set<Column>, values: Grant)

  function Inserted(row: NewGrant, code: string): Grant {
    Grant(row.id, code, row.tenant, row.request, row.status, row.grantedBy, row.grantedAt,
          None, None, None, None, None, None, None, None, None)
  }

  /** `guard_support_grant` on INSERT, then the constraints. */
  function ApplyInsert(table: Table, role: Role, row: NewGrant): Outcome {
    if !role.App? then Refused(NoPrivilege)
    else if !row.status.PendingApproval? && !row.status.PendingAssignment? then Refused(BadStart)
    else if exists id :: id in Rows(table, row.tenant) && NumberIn(table[id].code).None? then Refused(CodeUnreadable)
    else
      var code := NextCode(table, row.tenant);
      if code.None? then Refused(OutOfNumbers)
      else
        var g := Inserted(row, code.value);
        if !Checks(g) then Refused(CheckFailed)
        else if g.id in table then Refused(IdTaken)
        else if exists id :: id in Rows(table, g.tenant) && table[id].code == g.code then Refused(CodeTaken)
        else Accepted(table[g.id := g])
  }

  predicate Moves(from: Status, to: Status) {
    || (from.PendingApproval? && (to.PendingAssignment? || to.Rejected? || to.Revoked?))
    || (from.PendingAssignment? && (to.Active? || to.Revoked?))
    || (from.Active? && to.Revoked?)
  }

  /** `guard_support_grant` on UPDATE. */
  function GuardUpdate(old_: Grant, new_: Grant): Option<Refusal> {
    if (new_.id, new_.code, new_.tenant, new_.request) != (old_.id, old_.code, old_.tenant, old_.request)
    then Some(RequestChanged)
    else if Moves(old_.status, new_.status) then
      if !old_.status.PendingApproval? && (new_.grantedBy, new_.grantedAt) != (old_.grantedBy, old_.grantedAt)
      then Some(GranterChanged)
      else if old_.status.Active?
              && (new_.staff, new_.assignedBy, new_.activatedAt, new_.expiresAt)
                 != (old_.staff, old_.assignedBy, old_.activatedAt, old_.expiresAt)
      then Some(HolderChanged)
      else None
    else Some(BadMove)
  }

  function ApplyChange(table: Table, role: Role, id: GrantId, columns: set<Column>, values: Grant): Outcome {
    if !(columns <= MayUpdate(role)) then Refused(NoPrivilege)
    else if id !in table then Refused(NoSuchRow)
    else
      var new_ := Assigned(table[id], values, columns);
      var guard := GuardUpdate(table[id], new_);
      if guard.Some? then Refused(guard.value)
      else if !Checks(new_) then Refused(CheckFailed)
      else Accepted(table[id := new_])
  }

  function Apply(table: Table, st: Statement): Outcome {
    match st
    case Insert(role, row) => ApplyInsert(table, role, row)
    case Change(role, id, columns, values) => ApplyChange(table, role, id, columns, values)
  }

  function After(table: Table, st: Statement): Table {
    match Apply(table, st)
    case Accepted(table') => table'
    case Refused(_) => table
  }

  function Run(table: Table, sts: seq<Statement>): Table
    decreases |sts|
  {
    if sts == [] then table else Run(After(table, sts[0]), sts[1..])
  }

  /** The new row of an accepted statement, and the row it replaces if any. */
  lemma Effect(table: Table, st: Statement)
    requires Apply(table, st).Accepted?
    ensures Target(st) in After(table, st)
    ensures After(table, st) == table[Target(st) := After(table, st)[Target(st)]]
    ensures Checks(After(table, st)[Target(st)])
    ensures st.Change? ==>
              && Target(st) in table && st.columns <= MayUpdate(st.role)
              && After(table, st)[st.id] == Assigned(table[st.id], st.values, st.columns)
              && GuardUpdate(table[st.id], After(table, st)[st.id]).None?
    ensures st.Insert? ==>
              && Target(st) !in table && st.role.App?
              && (st.row.status.PendingApproval? || st.row.status.PendingAssignment?)
              && NextCode(table, st.row.tenant).Some?
              && After(table, st)[st.row.id] == Inserted(st.row, NextCode(table, st.row.tenant).value)
  {
  }

  /** What the constraints guarantee of the stored rows. */
  ghost predicate Valid(table: Table) {
    forall id | id in table :: table[id].id == id && Checks(table[id])
  }

  // ----- What each role can do -----

  /** The provisioner's one move is to activate a granted request, and it moves nothing but
      the assignment; everything else is the customer's, and leaves the assignment alone. */
  lemma WhoMoves(table: Table, role: Role, id: GrantId, columns: set<Column>, values: Grant)
    requires Valid(table) && ApplyChange(table, role, id, columns, values).Accepted?
    ensures var old_, new_ := table[id], ApplyChange(table, role, id, columns, values).table[id];
            && Moves(old_.status, new_.status)
            && new_.request == old_.request && new_.tenant == old_.tenant && new_.code == old_.code
            && (role.Provisioner? <==> new_.status.Active?)
            && (role.Provisioner? ==>
                  new_ == old_.(status := Active, staff := new_.staff, assignedBy := new_.assignedBy,
                                activatedAt := new_.activatedAt, expiresAt := new_.expiresAt))
            && (role.App? ==>
                  (new_.staff, new_.assignedBy, new_.activatedAt, new_.expiresAt)
                  == (old_.staff, old_.assignedBy, old_.activatedAt, old_.expiresAt))
  {
    RoleDecides(table[id], values, role, columns);
  }

  /** The CHECKs on what a stage carries, those on the request left aside. */
  predicate StageChecks(g: Grant) {
    GrantedCheck(g) && RejectedCheck(g) && AssignedCheck(g) && RevokedCheck(g)
  }

  lemma RoleDecides(old_: Grant, values: Grant, role: Role, columns: set<Column>)
    requires StageChecks(old_) && columns <= MayUpdate(role) && StageChecks(Assigned(old_, values, columns))
    requires GuardUpdate(old_, Assigned(old_, values, columns)).None?
    ensures var new_ := Assigned(old_, values, columns);
            && (role.Provisioner? <==> new_.status.Active?)
            && (role.Provisioner? ==>
                  new_ == old_.(status := Active, staff := new_.staff, assignedBy := new_.assignedBy,
                                activatedAt := new_.activatedAt, expiresAt := new_.expiresAt))
            && (role.App? ==>
                  (new_.staff, new_.assignedBy, new_.activatedAt, new_.expiresAt)
                  == (old_.staff, old_.assignedBy, old_.activatedAt, old_.expiresAt))
  {
    var new_ := Assigned(old_, values, columns);
    assert Moves(old_.status, new_.status);
  }

  /** The write that takes a grant on to `to`. */
  function MovedTo(old_: Grant, to: Status, person: UserId, at: int): Grant {
    match to
    case PendingAssignment => old_.(status := to, grantedBy := Some(person), grantedAt := Some(at))
    case Active => old_.(status := to, staff := Some(person), assignedBy := Some(person), activatedAt := Some(at),
                         expiresAt := Some(at + 3600 * old_.request.durationHours))
    case Rejected => old_.(status := to, rejectedBy := Some(person), rejectedAt := Some(at), rejectReason := Some("no"))
    case _ => old_.(status := to, revokedBy := Some(person), revokedAt := Some(at))
  }

  /** And every move the guard lists is open: one of the two roles can make it. */
  lemma EveryMoveIsOpen(table: Table, id: GrantId, to: Status, person: UserId, at: int)
    requires Valid(table) && id in table && Moves(table[id].status, to)
    ensures var role := if to.Active? then Provisioner else App;
            var values := MovedTo(table[id], to, person, at);
            && ApplyChange(table, role, id, MayUpdate(role), values).Accepted?
            && ApplyChange(table, role, id, MayUpdate(role), values).table[id] == values
  {
    var role := if to.Active? then Provisioner else App;
    var old_, values := table[id], MovedTo(table[id], to, person, at);
    assert Assigned(old_, values, MayUpdate(role)) == values;
    assert Trimmed("no") == "no";
    assert Checks(old_);
  }

  /** How far a grant still has to go. */
  function Rank(s: Status): nat {
    match s
    case PendingApproval => 3
    case PendingAssignment => 2
    case Active => 1
    case Rejected => 0
    case Revoked => 0
  }

  // ----- The life of a grant -----

  /** One accepted write to a grant: who, and the status it left. */
  datatype Event = Event(role: Role, status: Status)

  /** The write a statement makes to `id`, if it is accepted and makes one. */
  function Touch(table: Table, st: Statement, id: GrantId): seq<Event> {
    if Apply(table, st).Accepted? && Target(st) == id && id in After(table, st)
    then [Event(st.role, After(table, st)[id].status)]
    else []
  }

  /** The accepted writes to `id` over a run, in order. */
  function Trail(table: Table, sts: seq<Statement>, id: GrantId): seq<Event>
    decreases |sts|
  {
    if sts == [] then [] else Touch(table, sts[0], id) + Trail(After(table, sts[0]), sts[1..], id)
  }

  function Target(st: Statement): GrantId {
    match st
    case Insert(_, row) => row.id
    case Change(_, id, _, _) => id
  }

  /** A history of accepted writes that leaves `status`: it opens with the customer's
      request or grant, each write is a permitted move, and the provisioner's are exactly
      the activations. */
  ghost predicate Lawful(trail: seq<Event>) {
    && trail != []
    && (trail[0].status.PendingApproval? || trail[0].status.PendingAssignment?)
    && (forall i | 0 <= i < |trail| :: trail[i].role.Provisioner? <==> trail[i].status.Active?)
    && (forall i | 0 < i < |trail| :: Moves(trail[i - 1].status, trail[i].status))
  }

  ghost predicate WasActive(trail: seq<Event>) {
    exists i | 0 <= i < |trail| :: trail[i].status.Active?
  }

  ghost predicate RowAgrees(g: Grant, trail: seq<Event>) {
    && Lawful(trail)
    && trail[|trail| - 1].status == g.status
    && (g.activatedAt.Some? <==> WasActive(trail))
  }

  /** What is stored under `id`, if anything, agrees with its history. */
  ghost predicate Agrees(table: Table, id: GrantId, trail: seq<Event>) {
    if id in table then RowAgrees(table[id], trail) else trail == []
  }

  lemma StepKeepsValid(table: Table, st: Statement)
    requires Valid(table)
    ensures Valid(After(table, st))
    ensures forall id | id in table :: id in After(table, st)
  {
    if Apply(table, st).Accepted? {
      Effect(table, st);
    }
  }

  lemma OneMoreEvent(trail: seq<Event>, e: Event)
    ensures WasActive(trail + [e]) <==> WasActive(trail) || e.status.Active?
  {
    var longer := trail + [e];
    if i :| 0 <= i < |trail| && trail[i].status.Active? {
      assert longer[i].status.Active?;
    }
    assert longer[|trail|] == e;
  }

  lemma MovedRowAgrees(old_: Grant, new_: Grant, role: Role, trail: seq<Event>)
    requires RowAgrees(old_, trail) && Moves(old_.status, new_.status)
    requires role.Provisioner? <==> new_.status.Active?
    requires new_.status.Active? ==> new_.activatedAt.Some?
    requires role.App? ==> new_.activatedAt == old_.activatedAt
    ensures RowAgrees(new_, trail + [Event(role, new_.status)])
  {
    OneMoreEvent(trail, Event(role, new_.status));
  }

  lemma NewRowAgrees(row: NewGrant, code: string)
    requires row.status.PendingApproval? || row.status.PendingAssignment?
    ensures RowAgrees(Inserted(row, code), [Event(App, row.status)])
  {
  }

  lemma StepKeepsAgreement(table: Table, st: Statement, id: GrantId, trail: seq<Event>)
    requires Valid(table) && Agrees(table, id, trail)
    ensures Agrees(After(table, st), id, trail + Touch(table, st, id))
  {
    assert trail + [] == trail;
    if Apply(table, st).Accepted? {
      AcceptedKeepsAgreement(table, st, id, trail);
    }
  }

  lemma AcceptedKeepsAgreement(table: Table, st: Statement, id: GrantId, trail: seq<Event>)
    requires Valid(table) && Agrees(table, id, trail) && Apply(table, st).Accepted?
    ensures Agrees(After(table, st), id, trail + Touch(table, st, id))
  {
    Effect(table, st);
    if Target(st) != id {
      assert Touch(table, st, id) == [];
      assert trail + [] == trail;
    } else {
      var new_ := After(table, st)[id];
      assert Touch(table, st, id) == [Event(st.role, new_.status)];
      if st.Change? {
        WhoMoves(table, st.role, id, st.columns, st.values);
        MovedRowAgrees(table[id], new_, st.role, trail);
      } else {
        assert trail == [] && trail + [Event(st.role, new_.status)] == [Event(App, st.row.status)];
        NewRowAgrees(st.row, NextCode(table, st.row.tenant).value);
      }
    }
  }

  lemma {:induction false} HistoryAgrees(table: Table, sts: seq<Statement>, id: GrantId, past: seq<Event>)
    requires Valid(table) && Agrees(table, id, past)
    ensures Valid(Run(table, sts))
    ensures Agrees(Run(table, sts), id, past + Trail(table, sts, id))
    decreases |sts|
  {
    if sts == [] {
      assert past + [] == past;
    } else {
      var table', touch := After(table, sts[0]), Touch(table, sts[0], id);
      StepKeepsValid(table, sts[0]);
      StepKeepsAgreement(table, sts[0], id, past);
      HistoryAgrees(table', sts[1..], id, past + touch);
      Associates(past, touch, Trail(table', sts[1..], id));
    }
  }

  lemma Associates(a: seq<Event>, b: seq<Event>, c: seq<Event>)
    ensures a + b + c == a + (b + c)
  {
  }

  function StatusesOf(trail: seq<Event>): seq<Status> {
    seq(|trail|, i requires 0 <= i < |trail| => trail[i].status)
  }

  /** Every life there is. */
  ghost predicate IsLife(s: seq<Status>) {
    || s == [PendingApproval] || s == [PendingApproval, Rejected] || s == [PendingApproval, Revoked]
    || s == [PendingApproval, PendingAssignment]
    || s == [PendingApproval, PendingAssignment, Revoked]
    || s == [PendingApproval, PendingAssignment, Active]
    || s == [PendingApproval, PendingAssignment, Active, Revoked]
    || s == [PendingAssignment] || s == [PendingAssignment, Revoked]
    || s == [PendingAssignment, Active] || s == [PendingAssignment, Active, Revoked]
  }

  lemma {:induction false} RankFalls(trail: seq<Event>, i: nat)
    requires Lawful(trail) && i < |trail|
    ensures Rank(trail[i].status) + i <= Rank(trail[0].status)
    decreases i
  {
    if i > 0 {
      RankFalls(trail, i - 1);
      assert Moves(trail[i - 1].status, trail[i].status);
    }
  }

  lemma LawfulLives(trail: seq<Event>)
    requires Lawful(trail)
    ensures IsLife(StatusesOf(trail))
    ensures |trail| <= 4
  {
    RankFalls(trail, |trail| - 1);
    var s := StatusesOf(trail);
    assert |s| > 1 ==> Moves(s[0], s[1]) by { if |s| > 1 { assert Moves(trail[0].status, trail[1].status); } }
    assert |s| > 2 ==> Moves(s[1], s[2]) by { if |s| > 2 { assert Moves(trail[1].status, trail[2].status); } }
    assert |s| > 3 ==> Moves(s[2], s[3]) by { if |s| > 3 { assert Moves(trail[2].status, trail[3].status); } }
  }

  /** Over any run of the two roles from an empty table: a grant's accepted writes are one of
      eleven lives, so it is updated at most three times; the activations are exactly the
      provisioner's writes; and it carries an activation exactly when it has been active. */
  lemma EveryGrantLivesOneOfEleven(sts: seq<Statement>, id: GrantId)
    requires id in Run(map[], sts)
    ensures var g, trail := Run(map[], sts)[id], Trail(map[], sts, id);
            && IsLife(StatusesOf(trail)) && |trail| - 1 <= 3
            && trail[|trail| - 1].status == g.status
            && (forall i | 0 <= i < |trail| :: trail[i].role.Provisioner? <==> trail[i].status.Active?)
            && (g.activatedAt.Some? <==> WasActive(trail))
  {
    HistoryAgrees(map[], sts, id, []);
    var trail := Trail(map[], sts, id);
    assert [] + trail == trail;
    LawfulLives(trail);
  }

  /** An active grant was granted by the customer's side, and after that activated by the
      provisioner's: these are its last two writes. */
  lemma ActiveWasGrantedFirst(sts: seq<Statement>, id: GrantId)
    requires id in Run(map[], sts) && Run(map[], sts)[id].status.Active?
    ensures var trail := Trail(map[], sts, id);
            && |trail| >= 2
            && trail[|trail| - 2] == Event(App, PendingAssignment)
            && trail[|trail| - 1] == Event(Provisioner, Active)
  {
    EveryGrantLivesOneOfEleven(sts, id);
    var trail := Trail(map[], sts, id);
    var s := StatusesOf(trail);
    assert s[|s| - 1] == Active;
    assert s[|s| - 2] == trail[|s| - 2].status;
  }

  /** A revoked grant carries an activation exactly when it was active just before. */
  lemma RevokedKeepsItsActivation(sts: seq<Statement>, id: GrantId)
    requires id in Run(map[], sts) && Run(map[], sts)[id].status.Revoked?
    ensures var g, trail := Run(map[], sts)[id], Trail(map[], sts, id);
            && |trail| >= 2
            && (g.activatedAt.Some? <==> trail[|trail| - 2].status.Active?)
            && (g.expiresAt.Some? <==> g.activatedAt.Some?)
  {
    EveryGrantLivesOneOfEleven(sts, id);
    HistoryAgrees(map[], sts, id, []);
    var g, trail := Run(map[], sts)[id], Trail(map[], sts, id);
    assert Checks(g);
    var s := StatusesOf(trail);
    assert s[|s| - 1] == Revoked;
    forall i | 0 <= i < |trail|
      ensures s[i] == trail[i].status
    {
    }
  }

  ghost predicate SameDecision(before: Grant, after: Grant) {
    && after.request == before.request && after.tenant == before.tenant && after.code == before.code
    && (before.activatedAt.Some? ==>
          (after.staff, after.assignedBy, after.activatedAt, after.expiresAt)
          == (before.staff, before.assignedBy, before.activatedAt, before.expiresAt))
  }

  lemma StepKeepsDecision(table: Table, st: Statement, id: GrantId)
    requires Valid(table) && id in table
    ensures id in After(table, st) && SameDecision(table[id], After(table, st)[id])
  {
    if Apply(table, st).Accepted? {
      Effect(table, st);
      if st.Change? && st.id == id {
        WhoMoves(table, st.role, id, st.columns, st.values);
      }
    }
  }

  /** What was asked for never changes, and neither do the holder and the expiry once set. */
  lemma {:induction false} DecidedStaysDecided(table: Table, sts: seq<Statement>, id: GrantId)
    requires Valid(table) && id in table
    ensures id in Run(table, sts) && SameDecision(table[id], Run(table, sts)[id])
    decreases |sts|
  {
    if sts != [] {
      StepKeepsValid(table, sts[0]);
      StepKeepsDecision(table, sts[0], id);
      DecidedStaysDecided(After(table, sts[0]), sts[1..], id);
    }
  }

  /** The column grants carry weight: the guard and the CHECKs alone would let a grant that
      was never active be revoked with an activation written on it. */
  lemma GuardAndChecksAreNotEnough(old_: Grant, staff: UserId, at: int)
    requires Checks(old_) && old_.status.PendingAssignment?
    ensures var new_ := old_.(status := Revoked, revokedAt := Some(at), staff := Some(staff), activatedAt := Some(at),
                              expiresAt := Some(at + 3600 * old_.request.durationHours));
            GuardUpdate(old_, new_).None? && Checks(new_)
    ensures !({StatusColumn, RevokedAt, StaffUserId, ActivatedAt, ExpiresAt} <= MayUpdate(App))
    ensures !({StatusColumn, RevokedAt, StaffUserId, ActivatedAt, ExpiresAt} <= MayUpdate(Provisioner))
  {
    assert StaffUserId !in MayUpdate(App);
    assert RevokedAt !in MayUpdate(Provisioner);
  }

  // ----- Numbering -----

  ghost predicate HasCode(table: Table, tenant: TenantId, n: nat) {
    exists id :: id in Rows(table, tenant) && table[id].code == Code(n)
  }

  /** A tenant's codes are those of 1 to `n`, each once. */
  ghost predicate NumberedTo(table: Table, tenant: TenantId, n: nat) {
    && (forall id | id in Rows(table, tenant) :: exists m :: 1 <= m <= n && table[id].code == Code(m))
    && (forall a, b | a in Rows(table, tenant) && b in Rows(table, tenant) && a != b :: table[a].code != table[b].code)
    && (forall m | 1 <= m <= n :: HasCode(table, tenant, m))
  }

  /** ... `n` being how many grants it has. */
  ghost predicate Numbered(table: Table, tenant: TenantId) {
    NumberedTo(table, tenant, |Rows(table, tenant)|)
  }

  /** The number the guard reads off. */
  lemma GreatestIsLast(table: Table, tenant: TenantId, n: nat)
    requires NumberedTo(table, tenant, n)
    ensures Greatest(Numbers(table, tenant)) == n
  {
    forall k | k in Numbers(table, tenant)
      ensures k <= n
    {
      var id :| id in table && table[id].tenant == tenant && NumberIn(table[id].code) == Some(k);
      assert id in Rows(table, tenant);
      var m :| 1 <= m <= n && table[id].code == Code(m);
      NumberInCode(m);
    }
    if n > 0 {
      assert HasCode(table, tenant, n);
      var id :| id in Rows(table, tenant) && table[id].code == Code(n);
      NumberInCode(n);
      assert n in Numbers(table, tenant);
    }
  }

  lemma CodesDiffer(a: nat, b: nat)
    requires a != b
    ensures Code(a) != Code(b)
  {
    NumberInCode(a);
    NumberInCode(b);
  }

  lemma NewCodeIsNew(table: Table, tenant: TenantId, n: nat, id: GrantId)
    requires NumberedTo(table, tenant, n) && id in Rows(table, tenant)
    ensures table[id].code != Code(n + 1) && NumberIn(table[id].code).Some?
  {
    var m :| 1 <= m <= n && table[id].code == Code(m);
    EarlierCode(table[id].code, m, n);
  }

  lemma EarlierCode(code: string, m: nat, n: nat)
    requires m <= n && code == Code(m)
    ensures code != Code(n + 1) && NumberIn(code).Some?
  {
    CodesDiffer(m, n + 1);
    NumberInCode(m);
  }

  lemma OneMoreCode(table: Table, tenant: TenantId, n: nat, g: Grant)
    requires NumberedTo(table, tenant, n) && g.id !in table && g.tenant == tenant && g.code == Code(n + 1)
    ensures NumberedTo(table[g.id := g], tenant, n + 1)
  {
    var table' := table[g.id := g];
    var before, after := Rows(table, tenant), Rows(table', tenant);
    assert after == before + {g.id};
    forall id | id in before
      ensures table'[id].code != g.code && exists m :: 1 <= m <= n + 1 && table'[id].code == Code(m)
    {
      NewCodeIsNew(table, tenant, n, id);
    }
    forall m | 1 <= m <= n + 1
      ensures HasCode(table', tenant, m)
    {
      if m == n + 1 {
        assert g.id in after;
      } else {
        assert HasCode(table, tenant, m);
        var id :| id in before && table[id].code == Code(m);
        assert id in after && table'[id].code == Code(m);
      }
    }
  }

  lemma SameCodes(table: Table, table': Table, tenant: TenantId, n: nat)
    requires NumberedTo(table, tenant, n) && Rows(table', tenant) == Rows(table, tenant)
    requires forall id | id in Rows(table, tenant) :: table'[id].code == table[id].code
    ensures NumberedTo(table', tenant, n)
  {
    forall m | 1 <= m <= n
      ensures HasCode(table', tenant, m)
    {
      assert HasCode(table, tenant, m);
      var id :| id in Rows(table, tenant) && table[id].code == Code(m);
      assert table'[id].code == Code(m);
    }
  }

  lemma InsertKeepsNumbered(table: Table, st: Statement)
    requires st.Insert? && Apply(table, st).Accepted? && Numbered(table, st.row.tenant)
    ensures Numbered(After(table, st), st.row.tenant)
  {
    var tenant, table' := st.row.tenant, After(table, st);
    var n, g := |Rows(table, tenant)|, After(table, st)[st.row.id];
    Effect(table, st);
    GreatestIsLast(table, tenant, n);
    OneMoreCode(table, tenant, n, g);
    OneMoreRow(table, g);
  }

  lemma OneMoreRow(table: Table, g: Grant)
    requires g.id !in table
    ensures |Rows(table[g.id := g], g.tenant)| == |Rows(table, g.tenant)| + 1
  {
    assert Rows(table[g.id := g], g.tenant) == Rows(table, g.tenant) + {g.id};
  }

  lemma RowElsewhere(table: Table, id: GrantId, g: Grant, tenant: TenantId)
    requires Numbered(table, tenant)
    requires if id in table then table[id].tenant == g.tenant && table[id].code == g.code else g.tenant != tenant
    ensures Numbered(table[id := g], tenant)
  {
    assert Rows(table[id := g], tenant) == Rows(table, tenant);
    SameCodes(table, table[id := g], tenant, |Rows(table, tenant)|);
  }

  lemma OtherKeepsNumbered(table: Table, st: Statement, tenant: TenantId)
    requires Valid(table) && Numbered(table, tenant) && Apply(table, st).Accepted?
    requires st.Insert? ==> st.row.tenant != tenant
    ensures Numbered(After(table, st), tenant)
  {
    Effect(table, st);
    if st.Change? {
      WhoMoves(table, st.role, st.id, st.columns, st.values);
    }
    RowElsewhere(table, Target(st), After(table, st)[Target(st)], tenant);
  }

  lemma StepKeepsNumbered(table: Table, st: Statement, tenant: TenantId)
    requires Valid(table) && Numbered(table, tenant)
    ensures Numbered(After(table, st), tenant)
  {
    if Apply(table, st).Accepted? {
      if st.Insert? && st.row.tenant == tenant {
        InsertKeepsNumbered(table, st);
      } else {
        OtherKeepsNumbered(table, st, tenant);
      }
    }
  }

  /** After any run, whatever the tenants' inserts and updates are mixed with, a tenant with
      n grants has exactly the codes of 1 to n. */
  lemma {:induction false} CodesAreOneToN(table: Table, sts: seq<Statement>, tenant: TenantId)
    requires Valid(table) && Numbered(table, tenant)
    ensures Numbered(Run(table, sts), tenant)
    decreases |sts|
  {
    if sts != [] {
      StepKeepsValid(table, sts[0]);
      StepKeepsNumbered(table, sts[0], tenant);
      CodesAreOneToN(After(table, sts[0]), sts[1..], tenant);
    }
  }

  lemma NextCodeIsFree(table: Table, tenant: TenantId)
    requires Numbered(table, tenant)
    ensures NextCode(table, tenant)
            == if |Rows(table, tenant)| < MaxInteger then Some(Code(|Rows(table, tenant)| + 1)) else None
    ensures forall id | id in Rows(table, tenant) ::
              table[id].code != Code(|Rows(table, tenant)| + 1) && NumberIn(table[id].code).Some?
  {
    var n := |Rows(table, tenant)|;
    GreatestIsLast(table, tenant, n);
    forall id | id in Rows(table, tenant)
      ensures table[id].code != Code(n + 1) && NumberIn(table[id].code).Some?
    {
      NewCodeIsNew(table, tenant, n, id);
    }
  }

  /** So no insert is ever refused over its code while the numbers last. */
  lemma NoInsertMeetsItsCode(table: Table, role: Role, row: NewGrant)
    requires Numbered(table, row.tenant)
    ensures ApplyInsert(table, role, row) != Refused(CodeTaken)
    ensures ApplyInsert(table, role, row) != Refused(CodeUnreadable)
    ensures ApplyInsert(table, role, row) == Refused(OutOfNumbers) ==> |Rows(table, row.tenant)| >= MaxInteger
  {
    NextCodeIsFree(table, row.tenant);
  }

  // ----- The table as it is updated -----

  class GrantTable {
    var rows: Table

    constructor ()
      ensures rows == map[]
    {
      rows := map[];
    }

    /** A statement with `guard_support_grant` before it: the guard assigns the code. */
    method Execute(st: Statement) returns (refused: Option<Refusal>)
      modifies this
      ensures match Apply(old(rows), st)
              case Accepted(table) => rows == table && refused == None
              case Refused(why) => rows == old(rows) && refused == Some(why)
    {
      match st {
        case Insert(role, row) =>
          if !role.App? {
            return Some(NoPrivilege);
          }
          if !row.status.PendingApproval? && !row.status.PendingAssignment? {
            return Some(BadStart);
          }
          if exists id :: id in Rows(rows, row.tenant) && NumberIn(rows[id].code).None? {
            return Some(CodeUnreadable);
          }
          var code := NextCode(rows, row.tenant);
          if code.None? {
            return Some(OutOfNumbers);
          }
          var g := Inserted(row, code.value);
          if !Checks(g) {
            return Some(CheckFailed);
          }
          if g.id in rows {
            return Some(IdTaken);
          }
          if exists id :: id in Rows(rows, g.tenant) && rows[id].code == g.code {
            return Some(CodeTaken);
          }
          rows := rows[g.id := g];
        case Change(role, id, columns, values) =>
          if !(columns <= MayUpdate(role)) {
            return Some(NoPrivilege);
          }
          if id !in rows {
            return Some(NoSuchRow);
          }
          var new_ := Assigned(rows[id], values, columns);
          refused := GuardUpdate(rows[id], new_);
          if refused.Some? {
            return;
          }
          if !Checks(new_) {
            return Some(CheckFailed);
          }
          rows := rows[id := new_];
      }
      refused := None;
    }
  }
}
