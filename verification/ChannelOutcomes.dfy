/** Who a call of `deliver_notification` tells and when it refuses, and what a delivery's attempts count. */
module ChannelOutcomes {
  import opened Options
  import opened ChannelDeliveries

  // ----- Who is told -----

  /** `/`, or `/` and a letter, digit, `_` or `-`, and then any of those or `/`, `.`, `?`, `=`, `&`. */
  predicate ReadsAsLink(s: string) {
    || s == "/"
    || (&& |s| >= 2 && s[0] == '/' && IsWordChar(s[1])
        && forall i | 2 <= i < |s| ::
             IsWordChar(s[i]) || s[i] == '/' || s[i] == '.' || s[i] == '?' || s[i] == '=' || s[i] == '&')
  }

  predicate SaysSomething(s: string) { exists i | 0 <= i < |s| :: s[i] != ' ' }

  lemma LinkMeans(s: string)
    ensures IsLink(s) <==> ReadsAsLink(s)
  {
    var marks := "/.?=&";
    assert marks == ['/', '.', '?', '=', '&'];
    forall c: char
      ensures c in marks <==> c == '/' || c == '.' || c == '?' || c == '=' || c == '&'
    {
    }
    assert |s| == 1 && s[0] == '/' ==> s == "/";
  }

  /** A delivery is taken if and only if the session's tenant has that workspace, and what is said could be
      stored or there is nobody to say it to: no member of the workspace is addressed. */
  lemma DeliveredExactly(t: Tables, d: Directory, tenant: Option<string>, workspace: string, recipients: set<User>,
                         m: Message, now: int)
    ensures Deliver(t, d, tenant, workspace, recipients, m, now).Ok? <==>
              && tenant.Some? && workspace in d.tenantOf && d.tenantOf[workspace] == tenant.value
              && ((forall u | u in recipients :: (tenant.value, workspace, u) !in d.members)
                  || (&& SaysSomething(m.source) && SaysSomething(m.title) && |m.title| <= 200 && |m.body| <= 2000
                      && (m.link.Some? ==> ReadsAsLink(m.link.value))))
  {
    if m.link.Some? {
      LinkMeans(m.link.value);
    }
    if tenant.Some? {
      var addressed := Addressed(d, tenant.value, workspace, recipients);
      if u :| u in recipients && (tenant.value, workspace, u) in d.members {
        assert u in addressed;
      }
    }
  }

  /** Exactly those members addressed who have no notification from this source are told, once each, with what
      is said; whoever has one keeps it as it was. The count is of those told. */
  lemma ToldExactly(t: Tables, d: Directory, tenant: string, workspace: string, recipients: set<User>, m: Message,
                    now: int, k: NotificationKey)
    requires Deliver(t, d, Some(tenant), workspace, recipients, m, now).Ok?
    ensures var r := Deliver(t, d, Some(tenant), workspace, recipients, m, now);
            var after := r.tables.notifications;
            && (k in t.notifications ==> k in after && after[k] == t.notifications[k])
            && (k !in t.notifications ==>
                  (k in after <==> k.source == m.source && k.recipient in recipients
                                   && (tenant, workspace, k.recipient) in d.members))
            && (k in after && k !in t.notifications ==>
                  after[k] == Notification(tenant, workspace, m.title, m.body, m.link, now))
            && r.count == |after.Keys - t.notifications.Keys|
  {
    var inserted := Inserted(t, Addressed(d, tenant, workspace, recipients), m.source);
    var after := Deliver(t, d, Some(tenant), workspace, recipients, m, now).tables.notifications;
    forall u | u in inserted
      ensures NotificationKey(u, m.source) in after.Keys - t.notifications.Keys
    {
    }
    KeysOf(inserted, after.Keys - t.notifications.Keys, m.source);
  }

  lemma {:induction false} KeysOf(users: set<User>, keys: set<NotificationKey>, source: string)
    requires forall u | u in users :: NotificationKey(u, source) in keys
    requires forall k | k in keys :: k.source == source && k.recipient in users
    ensures |users| == |keys|
    decreases users
  {
    if users == {} {
      assert keys == {} by {
        if k :| k in keys {
          assert k.recipient in users;
        }
      }
    } else {
      var u :| u in users;
      KeysOf(users - {u}, keys - {NotificationKey(u, source)}, source);
    }
  }

  /** A pruning of the inbox forgets exactly what is older than ninety days, and a pruning of the chat rows
      nothing there; neither touches the other table, and both leave what stays as it was. */
  lemma PruningForgets(t: Tables, now: int, k: NotificationKey)
    ensures k in PruneNotifications(t, now).notifications <==>
              k in t.notifications && t.notifications[k].createdAt >= now - 90 * 86400
    ensures k in PruneNotifications(t, now).notifications ==>
              PruneNotifications(t, now).notifications[k] == t.notifications[k]
    ensures PruneNotifications(t, now).deliveries == t.deliveries
    ensures PruneDeliveries(t, now).notifications == t.notifications
    ensures PruneDeliveries(t, now).audits == t.audits == PruneNotifications(t, now).audits
  {
  }

  // ----- What the attempts count -----

  /** The event is an attempt on this pending delivery: any settling of it but calling it off. */
  predicate Tries(t: Tables, e: Event, k: DeliveryKey) {
    && e.step.SettleOne? && e.step.key == k && !e.step.attempt.CalledOff?
    && k in t.deliveries && t.deliveries[k].status.Pending?
  }

  function TriesIn(t: Tables, events: seq<Event>, k: DeliveryKey): nat
    decreases |events|
  {
    if events == [] then 0 else (if Tries(t, events[0], k) then 1 else 0) + TriesIn(Next(t, events[0]), events[1..], k)
  }

  lemma {:induction false} BornLater(t: Tables, events: seq<Event>, k: DeliveryKey, since: nat)
    requires k in t.deliveries ==> t.deliveries[k].born >= since
    requires since <= t.serial
    ensures k in Run(t, events).deliveries ==> Run(t, events).deliveries[k].born >= since
    decreases |events|
  {
    if events != [] {
      StepBornLater(t, events[0], k, since);
      BornLater(Next(t, events[0]), events[1..], k, since);
    }
  }

  lemma StepBornLater(t: Tables, e: Event, k: DeliveryKey, since: nat)
    requires k in t.deliveries ==> t.deliveries[k].born >= since
    requires since <= t.serial
    ensures since <= Next(t, e).serial
    ensures k in Next(t, e).deliveries ==> Next(t, e).deliveries[k].born >= since
  {
    if k in t.deliveries {
      OnlyOldFinishedRowsLeave(t, e, k);
    }
  }

  lemma StepCounts(t: Tables, e: Event, k: DeliveryKey)
    requires k in t.deliveries && k in Next(t, e).deliveries
    ensures Next(t, e).deliveries[k].attempts == t.deliveries[k].attempts + if Tries(t, e, k) then 1 else 0
  {
    match e.step
    case DeliverTo(d, tenant, workspace, recipients, m) =>
      DeliverLeavesRows(t, d, tenant, workspace, recipients, m, e.now, k);
    case SettleOne(_, _, _) =>
    case ExpireOlder(term, actor) => ExpiryOfOne(t, term, actor, e.now, k);
    case PruneSent =>
    case PruneRead =>
  }

  /** Through any run, a delivery's attempts count the times it was tried: neither calling it off nor its
      expiry is one. */
  lemma {:induction false} AttemptsAreTries(t: Tables, events: seq<Event>, k: DeliveryKey)
    requires k in t.deliveries && t.deliveries[k].born < t.serial
    requires k in Run(t, events).deliveries && Run(t, events).deliveries[k].born == t.deliveries[k].born
    ensures Run(t, events).deliveries[k].attempts == t.deliveries[k].attempts + TriesIn(t, events, k)
    decreases |events|
  {
    if events != [] {
      var s := Next(t, events[0]);
      if k in s.deliveries {
        OnlyOldFinishedRowsLeave(t, events[0], k);
        StepCounts(t, events[0], k);
        SerialGrows(t, events[0]);
        AttemptsAreTries(s, events[1..], k);
      } else {
        SerialGrows(t, events[0]);
        BornLater(s, events[1..], k, t.serial);
      }
    }
  }

  lemma SerialGrows(t: Tables, e: Event)
    ensures t.serial <= Next(t, e).serial
  {
  }

  /** What settling does to the delivery it claimed: sent under the id given, failed with the reason before the
      error, called off without a further attempt, or put off to a later time with nothing audited. Every other
      delivery and its audit rows stay, and one no longer pending is not settled again. */
  lemma SettledExactly(t: Tables, key: DeliveryKey, a: Attempt, actor: string, now: int, k: DeliveryKey)
    requires key in t.deliveries && k in t.deliveries
    ensures var after, was, r := Settle(t, key, a, actor, now), t.deliveries[k], Resource(k, t.deliveries[k].born);
            && k in after.deliveries && after.notifications == t.notifications && after.serial == t.serial
            && var row := after.deliveries[k];
            && (k != key || was.status != Pending ==> row == was && after.AuditsOf(r) == t.AuditsOf(r))
            && (k == key && was.status == Pending ==>
                  match a
                  case Worked(id) =>
                    && row == was.(status := Sent, attempts := was.attempts + 1, externalId := Some(id),
                                   lastError := None)
                    && after.AuditsOf(r) == t.AuditsOf(r) + [Audit(k.tenant, was.workspace, "channel_delivery.sent",
                                                                   SentAs(id), row.attempts, actor, now)]
                  case GaveUp(reason, error) =>
                    && row.status == Failed && row.attempts == was.attempts + 1 && OpensWith(row.lastError, reason)
                    && after.AuditsOf(r) == t.AuditsOf(r) + [Audit(k.tenant, was.workspace, "channel_delivery.failed",
                                                                   Because(reason), row.attempts, actor, now)]
                  case CalledOff(reason) =>
                    && row.status == Cancelled && row.attempts == was.attempts && OpensWith(row.lastError, reason)
                    && after.AuditsOf(r) == t.AuditsOf(r) +
                         [Audit(k.tenant, was.workspace, "channel_delivery.cancelled", Because(reason), row.attempts,
                                actor, now)]
                  case TryLater(error, at) =>
                    && row.status == Pending && row.attempts == was.attempts + 1 && row.nextAttemptAt == at
                    && OpensWith(row.lastError, error) && after.AuditsOf(r) == t.AuditsOf(r))
  {
    if k != key {
      SettleLeavesOthers(t, key, a, actor, now, k);
    }
  }
}
