/** Notifications, the chat deliveries queued with them, their expiry, pruning and audit. */
module ChannelDeliveries {
  import opened Options

  const Day := 86400
  const KeptFor := 90 * Day
  const Unconfigured := "channel_unconfigured"

  type User = string

  // ----- Tables -----

  /** Unique per recipient and source, whatever the tenant. */
  datatype NotificationKey = NotificationKey(recipient: User, source: string)

  datatype Notification = Notification(tenant: string, workspace: string, title: string, body: string,
        link: Option<string>, createdAt: int)

  datatype DeliveryKey = DeliveryKey(tenant: string, channel: string, source: string, recipient: User)

  datatype Status = Pending | Sent | Failed | Cancelled

  /** `born` stands for the row's id: which call queued it. */
  datatype Delivery = Delivery(
    born: nat, workspace: string, title: string, link: Option<string>,
    status: Status, attempts: nat, nextAttemptAt: int, externalId: Option<string>, lastError: Option<string>,
    createdAt: int)

  /** What an audit row is about. */
  datatype Resource = Resource(key: DeliveryKey, born: nat)

  datatype Details = SentAs(externalId: string) | Because(reason: string)

  datatype Audit = Audit(tenant: string, workspace: string, action: string, details: Details, attempts: nat,
        actor: string, at: int)

  /** The audit rows are grouped by what they are about. `serial` counts the calls that deliver. */
  datatype Tables = Tables(
    notifications: map<NotificationKey, Notification>,
    deliveries: map<DeliveryKey, Delivery>,
    audits: map<Resource, seq<Audit>>,
    serial: nat)
  {
    function AuditsOf(r: Resource): seq<Audit> { if r in audits then audits[r] else [] }
  }

  /** Who is where: the workspaces of each tenant, their members, and who linked a chat. */
  datatype Directory = Directory(tenantOf: map<string, string>, members: set<(string, string, User)>, linked: set<User>)

  // ----- Delivering -----

  datatype Message = Message(source: string, title: string, body: string, link: Option<string>)

  predicate IsBlank(s: string) { forall i | 0 <= i < |s| :: s[i] == ' ' }

  predicate IsWordChar(c: char) { 'A' <= c <= 'Z' || 'a' <= c <= 'z' || '0' <= c <= '9' || c == '_' || c == '-' }

  predicate IsLink(s: string) {
    && s != "" && s[0] == '/'
    && (|s| > 1 ==> IsWordChar(s[1]))
    && forall i | 2 <= i < |s| :: IsWordChar(s[i]) || s[i] in "/.?=&"
  }

  /** The CHECK constraints on a notification. */
  predicate Storable(m: Message) {
    && !IsBlank(m.source) && !IsBlank(m.title) && |m.title| <= 200 && |m.body| <= 2000
    && (m.link.Some? ==> IsLink(m.link.value))
  }

  /** The recipients that are members of the workspace; the others are skipped. */
  function Addressed(d: Directory, tenant: string, workspace: string, recipients: set<User>): set<User> {
    set u | u in recipients && (tenant, workspace, u) in d.members
  }

  function Inserted(t: Tables, addressed: set<User>, source: string): set<User> {
    set u | u in addressed && NotificationKey(u, source) !in t.notifications
  }

  function Queued(t: Tables, d: Directory, tenant: string, inserted: set<User>, source: string): set<User> {
    set u | u in inserted && u in d.linked && DeliveryKey(tenant, "zalo", source, u) !in t.deliveries
  }

  function WithNotifications(t: Tables, tenant: string, workspace: string, users: set<User>, m: Message,
        now: int): map<NotificationKey, Notification> {
    t.notifications + map u | u in users ::
      NotificationKey(u, m.source) := Notification(tenant, workspace, m.title, m.body, m.link, now)
  }

  function WithDeliveries(t: Tables, tenant: string, workspace: string, users: set<User>, m: Message,
        now: int): map<DeliveryKey, Delivery> {
    t.deliveries + map u | u in users ::
      DeliveryKey(tenant, "zalo", m.source, u) :=
        Delivery(t.serial, workspace, m.title, m.link, Pending, 0, now, None, None, now)
  }

  datatype Delivered = Refused | Ok(tables: Tables, count: nat)

  /** `tenant` is the one the session is bound to. */
  function Deliver(t: Tables, d: Directory, tenant: Option<string>, workspace: string, recipients: set<User>,
        m: Message, now: int): Delivered {
    if tenant.None? || workspace !in d.tenantOf || d.tenantOf[workspace] != tenant.value then Refused
    else
      var addressed := Addressed(d, tenant.value, workspace, recipients);
      if addressed != {} && !Storable(m) then Refused
      else
        var inserted := Inserted(t, addressed, m.source);
        var queued := Queued(t, d, tenant.value, inserted, m.source);
        Ok(t.(notifications := WithNotifications(t, tenant.value, workspace, inserted, m, now),
              deliveries := WithDeliveries(t, tenant.value, workspace, queued, m, now),
              serial := t.serial + 1),
           |inserted|)
  }

  // ----- Sending -----

  datatype Attempt =
    | Worked(externalId: string)
    | GaveUp(reason: string, error: string)
    | CalledOff(reason: string)
    | TryLater(error: string, at: int)

  const ErrorLimit := 500

  function CutError(error: string): string {
    if |error| > ErrorLimit then error[..ErrorLimit] else error
  }

  function Settled(row: Delivery, a: Attempt): Delivery {
    match a
    case Worked(externalId) =>
      row.(status := Sent, attempts := row.attempts + 1, externalId := Some(externalId), lastError := None)
    case GaveUp(reason, error) =>
      row.(status := Failed, attempts := row.attempts + 1, lastError := Some(CutError(reason + ": " + error)))
    case CalledOff(reason) => row.(status := Cancelled, lastError := Some(CutError(reason)))
    case TryLater(error, at) =>
      row.(attempts := row.attempts + 1, lastError := Some(CutError(error)), nextAttemptAt := at)
  }

  function AuditOf(key: DeliveryKey, row: Delivery, action: string, details: Details, actor: string, now: int): Audit {
    Audit(key.tenant, row.workspace, action, details, row.attempts, actor, now)
  }

  /** What is audited of an attempt, if it is an outcome. */
  function Outcome(a: Attempt): Option<(string, Details)> {
    match a
    case Worked(externalId) => Some(("channel_delivery.sent", SentAs(externalId)))
    case GaveUp(reason, _) => Some(("channel_delivery.failed", Because(reason)))
    case CalledOff(reason) => Some(("channel_delivery.cancelled", Because(reason)))
    case TryLater(_, _) => None
  }

  /** The lane claims a pending row and settles it; an outcome is audited, a retry is not. */
  function Settle(t: Tables, key: DeliveryKey, a: Attempt, actor: string, now: int): Tables {
    if key !in t.deliveries || !t.deliveries[key].status.Pending? then t
    else
      var row := Settled(t.deliveries[key], a);
      var r := Resource(key, row.born);
      var settled := t.(deliveries := t.deliveries[key := row]);
      match Outcome(a)
      case None => settled
      case Some((action, details)) =>
        settled.(audits := t.audits[r := t.AuditsOf(r) + [AuditOf(key, row, action, details, actor, now)]])
  }

  // ----- Expiring and pruning -----

  predicate Stale(row: Delivery, term: int, now: int) { row.status.Pending? && row.createdAt < now - term }

  function Expired(row: Delivery, term: int, now: int): Delivery {
    if Stale(row, term, now) then row.(status := Failed, lastError := Some(Unconfigured)) else row
  }

  /** What this call expires, as the audit sees it. */
  function StaleResources(t: Tables, term: int, now: int): set<Resource> {
    set k | k in t.deliveries && Stale(t.deliveries[k], term, now) :: Resource(k, t.deliveries[k].born)
  }

  function ExpiryAudit(t: Tables, r: Resource, actor: string, now: int): Audit
    requires r.key in t.deliveries
  {
    AuditOf(r.key, t.deliveries[r.key], "channel_delivery.failed", Because(Unconfigured), actor, now)
  }

  function Expire(t: Tables, term: int, actor: string, now: int): Tables {
    var stale := StaleResources(t, term, now);
    t.(deliveries := map k | k in t.deliveries :: Expired(t.deliveries[k], term, now),
       audits := map r | r in t.audits.Keys + stale ::
         t.AuditsOf(r) + if r in stale then [ExpiryAudit(t, r, actor, now)] else [])
  }

  predicate Prunable(row: Delivery, now: int) { row.createdAt < now - KeptFor && !row.status.Pending? }

  function PruneDeliveries(t: Tables, now: int): Tables {
    t.(deliveries := map k | k in t.deliveries && !Prunable(t.deliveries[k], now) :: t.deliveries[k])
  }

  function PruneNotifications(t: Tables, now: int): Tables {
    t.(notifications :=
         map k | k in t.notifications && !(t.notifications[k].createdAt < now - KeptFor) :: t.notifications[k])
  }

  // ----- Runs -----

  datatype Step =
    | DeliverTo(directory: Directory, tenant: Option<string>, workspace: string, recipients: set<User>,
        message: Message)
    | SettleOne(key: DeliveryKey, attempt: Attempt, actor: string)
    | ExpireOlder(term: int, actor: string)
    | PruneSent
    | PruneRead

  /** A step and when it happens. */
  datatype Event = Event(step: Step, now: int)

  function Next(t: Tables, e: Event): Tables {
    match e.step
    case DeliverTo(d, tenant, workspace, recipients, m) =>
      var r := Deliver(t, d, tenant, workspace, recipients, m, e.now);
      if r.Ok? then r.tables else t
    case SettleOne(key, a, actor) => Settle(t, key, a, actor, e.now)
    case ExpireOlder(term, actor) => Expire(t, term, actor, e.now)
    case PruneSent => PruneDeliveries(t, e.now)
    case PruneRead => PruneNotifications(t, e.now)
  }

  function Run(t: Tables, events: seq<Event>): Tables
    decreases |events|
  {
    if events == [] then t else Run(Next(t, events[0]), events[1..])
  }

  const Empty := Tables(map[], map[], map[], 0)

  // ----- Who is told, and how -----

  /** A delivery is queued for exactly the members addressed who had not been told, who linked a
      chat, and whose row of this source is not still there; it is stamped with what the
      notification says, and no other row changes. */
  lemma QueuedForTheNewlyToldWhoLinked(t: Tables, d: Directory, tenant: string, workspace: string,
        recipients: set<User>, m: Message, now: int, k: DeliveryKey)
    requires Deliver(t, d, Some(tenant), workspace, recipients, m, now).Ok?
    ensures var after := Deliver(t, d, Some(tenant), workspace, recipients, m, now).tables;
            var told := NotificationKey(k.recipient, m.source);
            && (k in t.deliveries ==> k in after.deliveries && after.deliveries[k] == t.deliveries[k])
            && (k in after.deliveries && k !in t.deliveries <==>
                  && k == DeliveryKey(tenant, "zalo", m.source, k.recipient) && k !in t.deliveries
                  && k.recipient in recipients && (tenant, workspace, k.recipient) in d.members
                      && k.recipient in d.linked
                  && told !in t.notifications)
            && (k in after.deliveries && k !in t.deliveries ==>
                  && told in after.notifications && after.notifications[told].tenant == k.tenant
                  && after.deliveries[k].title == after.notifications[told].title
                  && after.deliveries[k].link == after.notifications[told].link
                  && after.deliveries[k].workspace == after.notifications[told].workspace
                  && after.deliveries[k].status == Pending && after.deliveries[k].attempts == 0
                  && after.deliveries[k].createdAt == after.deliveries[k].nextAttemptAt == now)
  {
    var after := Deliver(t, d, Some(tenant), workspace, recipients, m, now).tables;
    var queued := Queued(t, d, tenant, Inserted(t, Addressed(d, tenant, workspace, recipients), m.source), m.source);
    if k in after.deliveries && k !in t.deliveries {
      assert k.recipient in queued;
    }
    if k.recipient in queued && k == DeliveryKey(tenant, "zalo", m.source, k.recipient) {
      assert k in after.deliveries;
    }
  }

  // ----- A repeat is silent -----

  /** While a person has the notification, delivering its source again gives that person nothing:
      the inbox row stays and no chat row is queued, in any tenant. */
  lemma RepeatIsSilent(t: Tables, d: Directory, tenant: Option<string>, workspace: string, recipients: set<User>,
        m: Message, now: int, u: User)
    requires NotificationKey(u, m.source) in t.notifications
    requires Deliver(t, d, tenant, workspace, recipients, m, now).Ok?
    ensures var after := Deliver(t, d, tenant, workspace, recipients, m, now).tables;
            && NotificationKey(u, m.source) in after.notifications
            && after.notifications[NotificationKey(u, m.source)] == t.notifications[NotificationKey(u, m.source)]
            && forall k: DeliveryKey | k.source == m.source && k.recipient == u ::
                 && (k in after.deliveries <==> k in t.deliveries)
                 && (k in t.deliveries ==> after.deliveries[k] == t.deliveries[k])
  {}

  lemma NothingToAdd(t: Tables, tenant: string, workspace: string, m: Message, now: int)
    ensures WithNotifications(t, tenant, workspace, {}, m, now) == t.notifications
    ensures WithDeliveries(t, tenant, workspace, {}, m, now) == t.deliveries
  {}

  lemma NobodyIsLeft(t: Tables, tenant: string, workspace: string, addressed: set<User>, m: Message, now: int)
    ensures var told := WithNotifications(t, tenant, workspace, Inserted(t, addressed, m.source), m, now);
            Inserted(t.(notifications := told), addressed, m.source) == {}
  {}

  lemma InsertedLooksAtNotifications(a: Tables, b: Tables, addressed: set<User>, source: string)
    requires a.notifications == b.notifications
    ensures Inserted(a, addressed, source) == Inserted(b, addressed, source)
  {}

  /** Delivering twice is delivering once. */
  lemma DeliveringTwice(t: Tables, d: Directory, tenant: Option<string>, workspace: string, recipients: set<User>,
        m: Message, now: int, later: int)
    requires Deliver(t, d, tenant, workspace, recipients, m, now).Ok?
    ensures var once := Deliver(t, d, tenant, workspace, recipients, m, now).tables;
            var twice := Deliver(once, d, tenant, workspace, recipients, m, later);
            twice == Ok(once.(serial := once.serial + 1), 0)
  {
    var once := Deliver(t, d, tenant, workspace, recipients, m, now).tables;
    var addressed := Addressed(d, tenant.value, workspace, recipients);
    NobodyIsLeft(t, tenant.value, workspace, addressed, m, now);
    var told := WithNotifications(t, tenant.value, workspace, Inserted(t, addressed, m.source), m, now);
    InsertedLooksAtNotifications(once, t.(notifications := told), addressed, m.source);
    assert Queued(once, d, tenant.value, {}, m.source) == {};
    NothingToAdd(once, tenant.value, workspace, m, later);
  }

  /** No pruning of the inbox comes more than ninety days after `since`. */
  predicate WithinTerm(events: seq<Event>, since: int) {
    forall i | 0 <= i < |events| && events[i].step.PruneRead? :: events[i].now <= since + KeptFor
  }

  lemma {:induction false} NotificationStays(t: Tables, events: seq<Event>, k: NotificationKey)
    requires k in t.notifications && WithinTerm(events, t.notifications[k].createdAt)
    ensures k in Run(t, events).notifications && Run(t, events).notifications[k] == t.notifications[k]
    decreases |events|
  {
    if events != [] {
      var s := Next(t, events[0]);
      assert k in s.notifications && s.notifications[k] == t.notifications[k];
      NotificationStays(s, events[1..], k);
    }
  }

  /** So for ninety days, whatever else happens, nobody is told the same thing twice. */
  lemma NobodyIsToldTwice(t: Tables, events: seq<Event>, d: Directory, tenant: Option<string>, workspace: string,
                          recipients: set<User>, m: Message, now: int, u: User)
    requires NotificationKey(u, m.source) in t.notifications
    requires WithinTerm(events, t.notifications[NotificationKey(u, m.source)].createdAt)
    requires Deliver(Run(t, events), d, tenant, workspace, recipients, m, now).Ok?
    ensures var before := Run(t, events);
            var after := Deliver(before, d, tenant, workspace, recipients, m, now).tables;
            && NotificationKey(u, m.source) in after.notifications
            && after.notifications[NotificationKey(u, m.source)] == t.notifications[NotificationKey(u, m.source)]
            && forall k: DeliveryKey | k.source == m.source && k.recipient == u ::
                 k in after.deliveries <==> k in before.deliveries
  {
    NotificationStays(t, events, NotificationKey(u, m.source));
    RepeatIsSilent(Run(t, events), d, tenant, workspace, recipients, m, now, u);
  }

  // ----- Rows leave finished, and only by age -----

  /** A delivery keeps its row, its stamp and its birth through every step, but for a pruning that
      finds it finished and past ninety days. */
  lemma OnlyOldFinishedRowsLeave(t: Tables, e: Event, k: DeliveryKey)
    requires k in t.deliveries
    ensures k !in Next(t, e).deliveries <==>
              e.step.PruneSent? && t.deliveries[k].status != Pending && t.deliveries[k].createdAt < e.now - 90 * 86400
    ensures k in Next(t, e).deliveries ==>
              var row, was := Next(t, e).deliveries[k], t.deliveries[k];
              && row.born == was.born && row.workspace == was.workspace && row.title == was.title
              && row.link == was.link && row.createdAt == was.createdAt
              && (!was.status.Pending? ==> row == was)
  {
    match e.step
    case DeliverTo(d, tenant, workspace, recipients, m) =>
      DeliverLeavesRows(t, d, tenant, workspace, recipients, m, e.now, k);
    case SettleOne(key, a, actor) =>
    case ExpireOlder(term, actor) => ExpiryOfOne(t, term, actor, e.now, k);
    case PruneSent =>
    case PruneRead =>
  }

  lemma DeliverLeavesRows(t: Tables, d: Directory, tenant: Option<string>, workspace: string,
        recipients: set<User>, m: Message, now: int, k: DeliveryKey)
    requires k in t.deliveries
    ensures var r := Deliver(t, d, tenant, workspace, recipients, m, now);
            r.Ok? ==> k in r.tables.deliveries && r.tables.deliveries[k] == t.deliveries[k]
  {}

  /** Expiring with a term and pruning at the same instant leaves nothing past ninety days, exactly
      when nothing pending is both past ninety days and inside the term. */
  lemma ExpireThenPrune(t: Tables, term: int, actor: string, now: int)
    ensures var left := PruneDeliveries(Expire(t, term, actor, now), now).deliveries;
            (forall k | k in left :: left[k].createdAt >= now - KeptFor)
            <==> (forall k | k in t.deliveries && t.deliveries[k].status.Pending?
                             && t.deliveries[k].createdAt < now - KeptFor ::
                    t.deliveries[k].createdAt < now - term)
  {
    var expired := Expire(t, term, actor, now);
    var left := PruneDeliveries(expired, now).deliveries;
    forall k | k in t.deliveries
      ensures k in left <==> !Prunable(Expired(t.deliveries[k], term, now), now)
      ensures k in left ==> left[k] == Expired(t.deliveries[k], term, now)
    {
      assert k in expired.deliveries && expired.deliveries[k] == Expired(t.deliveries[k], term, now);
    }
    assert forall k | k in left :: k in t.deliveries;
  }

  /** A term of at most ninety days always does. */
  lemma TermOfNinetyDaysLeavesNothing(t: Tables, term: int, actor: string, now: int)
    requires term <= 90 * 86400
    ensures var left := PruneDeliveries(Expire(t, term, actor, now), now).deliveries;
            forall k | k in left :: left[k].createdAt >= now - 90 * 86400
  {
    ExpireThenPrune(t, term, actor, now);
  }

  // ----- Every outcome is audited once -----

  /** The error kept opens with the reason, as far as there is room for it. */
  predicate OpensWith(error: Option<string>, reason: string) {
    && error.Some? && |error.value| <= 500
    && if |reason| <= 500 then reason <= error.value else error.value == reason[..500]
  }

  /** The audit row says how the delivery ended, why or under which id, after how many attempts and where. */
  predicate Tells(audit: Audit, row: Delivery) {
    && audit.workspace == row.workspace && audit.attempts == row.attempts
    && match row.status
       case Pending => false
       case Sent =>
         && audit.action == "channel_delivery.sent" && row.lastError == None
         && audit.details.SentAs? && row.externalId == Some(audit.details.externalId)
       case Failed =>
         && audit.action == "channel_delivery.failed"
         && audit.details.Because? && OpensWith(row.lastError, audit.details.reason)
       case Cancelled =>
         && audit.action == "channel_delivery.cancelled"
         && audit.details.Because? && OpensWith(row.lastError, audit.details.reason)
  }

  /** A delivery has no audit row while it is pending and one after, which tells how it ended. */
  predicate AuditedOnce(t: Tables, k: DeliveryKey)
    requires k in t.deliveries
  {
    var audits := t.AuditsOf(Resource(k, t.deliveries[k].born));
    if t.deliveries[k].status.Pending? then audits == [] else |audits| == 1 && Tells(audits[0], t.deliveries[k])
  }

  ghost predicate Audited(t: Tables) {
    && (forall k | k in t.deliveries :: t.deliveries[k].born < t.serial && AuditedOnce(t, k))
    && (forall r | r in t.audits :: r.born < t.serial && |t.audits[r]| == 1 && t.audits[r][0].tenant == r.key.tenant)
  }

  lemma DeliverKeepsAudited(t: Tables, d: Directory, tenant: Option<string>, workspace: string,
        recipients: set<User>, m: Message, now: int)
    requires Audited(t) && Deliver(t, d, tenant, workspace, recipients, m, now).Ok?
    ensures Audited(Deliver(t, d, tenant, workspace, recipients, m, now).tables)
  {
    var after := Deliver(t, d, tenant, workspace, recipients, m, now).tables;
    forall k | k in after.deliveries
      ensures after.deliveries[k].born < after.serial && AuditedOnce(after, k)
    {
      if k in t.deliveries {
        assert after.deliveries[k] == t.deliveries[k] && AuditedOnce(t, k);
      } else {
        assert after.deliveries[k].born == t.serial && after.deliveries[k].status.Pending?;
        assert Resource(k, t.serial) !in t.audits;
      }
    }
  }

  lemma SettleKeepsAudited(t: Tables, key: DeliveryKey, a: Attempt, actor: string, now: int)
    requires Audited(t)
    ensures Audited(Settle(t, key, a, actor, now))
  {
    var after := Settle(t, key, a, actor, now);
    if key in t.deliveries && t.deliveries[key].status.Pending? {
      var r := Resource(key, t.deliveries[key].born);
      assert AuditedOnce(t, key) && t.AuditsOf(r) == [];
      forall k | k in after.deliveries
        ensures after.deliveries[k].born < after.serial && AuditedOnce(after, k)
      {
        assert k in t.deliveries && AuditedOnce(t, k);
        if k != key {
          SettleLeavesOthers(t, key, a, actor, now, k);
        }
      }
    }
  }

  lemma SettleLeavesOthers(t: Tables, key: DeliveryKey, a: Attempt, actor: string, now: int, k: DeliveryKey)
    requires k in t.deliveries && k != key
    ensures var after, r := Settle(t, key, a, actor, now), Resource(k, t.deliveries[k].born);
            k in after.deliveries && after.deliveries[k] == t.deliveries[k] && after.AuditsOf(r) == t.AuditsOf(r)
  {}

  /** What an expiry does to one row: nothing, or fails it and adds one audit row in its tenant. */
  lemma ExpiryOfOne(t: Tables, term: int, actor: string, now: int, k: DeliveryKey)
    requires k in t.deliveries
    ensures var after, r := Expire(t, term, actor, now), Resource(k, t.deliveries[k].born);
            && k in after.deliveries
            && var row := t.deliveries[k];
            && if row.status == Pending && row.createdAt < now - term then
                 && after.deliveries[k] == row.(status := Failed, lastError := Some("channel_unconfigured"))
                 && after.AuditsOf(r) == t.AuditsOf(r) + [ExpiryAudit(t, r, actor, now)]
                 && ExpiryAudit(t, r, actor, now) == Audit(k.tenant, row.workspace, "channel_delivery.failed",
                                                           Because("channel_unconfigured"), row.attempts, actor, now)
               else
                 after.deliveries[k] == t.deliveries[k] && after.AuditsOf(r) == t.AuditsOf(r)
  {
    var stale, r := StaleResources(t, term, now), Resource(k, t.deliveries[k].born);
    assert r in stale <==> Stale(t.deliveries[k], term, now);
    assert t.AuditsOf(r) + [] == t.AuditsOf(r);
  }

  lemma ExpireKeepsAudited(t: Tables, term: int, actor: string, now: int)
    requires Audited(t)
    ensures Audited(Expire(t, term, actor, now))
  {
    var after := Expire(t, term, actor, now);
    forall k | k in after.deliveries
      ensures after.deliveries[k].born < after.serial && AuditedOnce(after, k)
    {
      assert k in t.deliveries && AuditedOnce(t, k);
      ExpiryOfOne(t, term, actor, now, k);
    }
    forall r | r in after.audits
      ensures r.born < after.serial && |after.audits[r]| == 1 && after.audits[r][0].tenant == r.key.tenant
    {
      if r in StaleResources(t, term, now) {
        var k :| k in t.deliveries && Stale(t.deliveries[k], term, now) && r == Resource(k, t.deliveries[k].born);
        assert AuditedOnce(t, k);
        ExpiryOfOne(t, term, actor, now, k);
        assert after.AuditsOf(r) == [ExpiryAudit(t, r, actor, now)];
      } else {
        assert t.AuditsOf(r) + [] == t.audits[r];
      }
    }
  }

  lemma PruneKeepsAudited(t: Tables, now: int)
    requires Audited(t)
    ensures Audited(PruneDeliveries(t, now)) && Audited(PruneNotifications(t, now))
  {
    var after := PruneDeliveries(t, now);
    forall k | k in after.deliveries
      ensures after.deliveries[k].born < after.serial && AuditedOnce(after, k)
    {
      assert k in t.deliveries && AuditedOnce(t, k);
    }
    var read := PruneNotifications(t, now);
    forall k | k in read.deliveries
      ensures read.deliveries[k].born < read.serial && AuditedOnce(read, k)
    {
      assert k in t.deliveries && AuditedOnce(t, k);
    }
  }

  lemma StepKeepsAudited(t: Tables, e: Event)
    requires Audited(t)
    ensures Audited(Next(t, e))
  {
    match e.step
    case DeliverTo(d, tenant, workspace, recipients, m) =>
      if Deliver(t, d, tenant, workspace, recipients, m, e.now).Ok? {
        DeliverKeepsAudited(t, d, tenant, workspace, recipients, m, e.now);
      }
    case SettleOne(key, a, actor) => SettleKeepsAudited(t, key, a, actor, e.now);
    case ExpireOlder(term, actor) => ExpireKeepsAudited(t, term, actor, e.now);
    case PruneSent => PruneKeepsAudited(t, e.now);
    case PruneRead => PruneKeepsAudited(t, e.now);
  }

  lemma {:induction false} RunKeepsAudited(t: Tables, events: seq<Event>)
    requires Audited(t)
    ensures Audited(Run(t, events))
    decreases |events|
  {
    if events != [] {
      StepKeepsAudited(t, events[0]);
      RunKeepsAudited(Next(t, events[0]), events[1..]);
    }
  }

  /** In every run: a delivery that is pending has no audit row, one that is finished has exactly
      one, in its own tenant, that tells how it ended, and nothing is ever audited twice, pruned or not. */
  lemma EveryOutcomeIsAuditedOnce(events: seq<Event>)
    ensures Audited(Run(Empty, events))
  {
    RunKeepsAudited(Empty, events);
  }

  lemma {:induction false} AuditsAreForever(t: Tables, events: seq<Event>, r: Resource)
    requires Audited(t) && r in t.audits
    ensures r in Run(t, events).audits && Run(t, events).audits[r] == t.audits[r]
    decreases |events|
  {
    if events != [] {
      var s := Next(t, events[0]);
      StepKeepsAudited(t, events[0]);
      assert r in s.audits && t.audits[r] <= s.audits[r];
      AuditsAreForever(s, events[1..], r);
    }
  }

  /** The delivery waits in the table, not yet audited. */
  predicate Waits(t: Tables, r: Resource) {
    r.key in t.deliveries && t.deliveries[r.key].born == r.born && t.deliveries[r.key].status.Pending?
    && t.AuditsOf(r) == []
  }

  /** No delivery is lost: through any run it waits or has its one audit row, in its own tenant,
      whether its own row is still there or not. */
  lemma {:induction false} NoDeliveryIsLost(t: Tables, events: seq<Event>, k: DeliveryKey)
    requires Audited(t) && k in t.deliveries
    ensures var u, r := Run(t, events), Resource(k, t.deliveries[k].born);
            || Waits(u, r)
            || (r in u.audits && |u.audits[r]| == 1 && u.audits[r][0].tenant == k.tenant)
    decreases |events|
  {
    var r := Resource(k, t.deliveries[k].born);
    assert AuditedOnce(t, k);
    if r in t.audits {
      AuditsAreForever(t, events, r);
    } else if events != [] {
      StepKeepsAudited(t, events[0]);
      OnlyOldFinishedRowsLeave(t, events[0], k);
      NoDeliveryIsLost(Next(t, events[0]), events[1..], k);
    }
  }

  // ----- The functions of the database -----

  /** The tables, and the functions that are the only doors to them. */
  class ChannelStore {
    var notifications: map<NotificationKey, Notification>
    var deliveries: map<DeliveryKey, Delivery>
    var audits: map<Resource, seq<Audit>>
    var serial: nat

    function State(): Tables
      reads this
    {
      Tables(notifications, deliveries, audits, serial)
    }

    constructor ()
      ensures State() == Empty
    {
      notifications, deliveries, audits, serial := map[], map[], map[], 0;
    }

    /** `None` is the exception or the broken constraint; otherwise how many were told. */
    method DeliverNotification(d: Directory, tenant: Option<string>, workspace: string, recipients: set<User>,
          m: Message, now: int)
      returns (delivered: Option<nat>)
      modifies this
      ensures var r := Deliver(old(State()), d, tenant, workspace, recipients, m, now);
              if r.Ok? then State() == r.tables && delivered == Some(r.count)
              else State() == old(State()) && delivered == None
    {
      if tenant.None? || workspace !in d.tenantOf || d.tenantOf[workspace] != tenant.value {
        return None;
      }
      var addressed := set u | u in recipients && (tenant.value, workspace, u) in d.members;
      if addressed != {} && !Storable(m) {
        return None;
      }
      var told := set u | u in addressed && NotificationKey(u, m.source) !in notifications;
      var queued := set u | u in told && u in d.linked && DeliveryKey(tenant.value, "zalo", m.source, u) !in deliveries;
      notifications := notifications + map u | u in told ::
        NotificationKey(u, m.source) := Notification(tenant.value, workspace, m.title, m.body, m.link, now);
      deliveries := deliveries + map u | u in queued ::
        DeliveryKey(tenant.value, "zalo", m.source, u) :=
          Delivery(serial, workspace, m.title, m.link, Pending, 0, now, None, None, now);
      serial := serial + 1;
      return Some(|told|);
    }

    /** How many deliveries it failed. */
    method ExpirePendingChannelDeliveries(term: int, actor: string, now: int) returns (count: nat)
      modifies this
      ensures State() == Expire(old(State()), term, actor, now)
      ensures count == |StaleResources(old(State()), term, now)|
    {
      var before := State();
      var stale := set k | k in deliveries && deliveries[k].status.Pending? && deliveries[k].createdAt < now - term ::
        Resource(k, deliveries[k].born);
      assert stale == StaleResources(before, term, now);
      deliveries := map k | k in deliveries :: Expired(deliveries[k], term, now);
      audits := map r | r in audits.Keys + stale ::
        before.AuditsOf(r) + if r in stale then [ExpiryAudit(before, r, actor, now)] else [];
      count := |stale|;
    }

    method PruneChannelDeliveries(now: int) returns (count: nat)
      modifies this
      ensures State() == PruneDeliveries(old(State()), now)
      ensures count == |old(deliveries.Keys) - deliveries.Keys|
    {
      var gone := set k | k in deliveries && deliveries[k].createdAt < now - KeptFor && !deliveries[k].status.Pending?;
      assert gone == deliveries.Keys - PruneDeliveries(State(), now).deliveries.Keys;
      deliveries := map k | k in deliveries && k !in gone :: deliveries[k];
      count := |gone|;
    }

    method PruneNotificationsPast(now: int) returns (count: nat)
      modifies this
      ensures State() == PruneNotifications(old(State()), now)
      ensures count == |old(notifications.Keys) - notifications.Keys|
    {
      var gone := set k | k in notifications && notifications[k].createdAt < now - KeptFor;
      assert gone == notifications.Keys - PruneNotifications(State(), now).notifications.Keys;
      notifications := map k | k in notifications && k !in gone :: notifications[k];
      count := |gone|;
    }
  }
}
