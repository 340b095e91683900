/**
 What each Stripe event leaves behind: for whom it is, which values both rows hold after its commit, how
 many devices stay enabled, and what does not change.
 */
module BillingOutcomes {
  import opened Wrappers
  import opened Plans
  import opened Reconcile
  import opened Billing

  // ---------------------------------------------------------------- for whom an event is

  /** The event is for this tenant. */
  predicate IsFor(db: Db, e: StripeEvent, t: string) {
    match e
    case CheckoutCompleted(tenantId, _, subscription, _) => tenantId == Some(t) && t != "" && Truthy(subscription)
    case SubscriptionUpdated(tenantId, subscription, customer, _, _, _, _, _) =>
      if Truthy(tenantId) then tenantId == Some(t) && t in db.billing && t in db.tenants
      else Holds(db, t, subscription, customer)
    case SubscriptionDeleted(subscription, customer) => Holds(db, t, subscription, customer)
    case PaymentSucceeded(subscription, customer, _) => Holds(db, t, subscription, customer)
    case PaymentFailed(subscription, customer) => Holds(db, t, subscription, customer)
    case TrialWillEnd(_, _) => false
    case Unhandled => false
  }

  /** An event changes the rows of exactly the tenant it is for. */
  lemma {:induction false} ChangesTheTenant(s: State, e: StripeEvent, now: int, t: string)
    requires Inv(s)
    ensures Effect(s.db, e, now).Change? && Effect(s.db, e, now).tenant == t <==> IsFor(s.db, e, t)
  {
    match e
    case SubscriptionUpdated(_, subscription, customer, _, _, _, _, _) => FoundIsHolder(s, t, subscription, customer);
    case SubscriptionDeleted(subscription, customer) => FoundIsHolder(s, t, subscription, customer);
    case PaymentSucceeded(subscription, customer, _) => FoundIsHolder(s, t, subscription, customer);
    case PaymentFailed(subscription, customer) => FoundIsHolder(s, t, subscription, customer);
    case _ =>
  }

  // ---------------------------------------------------------------- what the rows hold

  /** The value of a text field that was sent and is not empty. */
  predicate Says(sent: Option<string>, value: string) {
    sent == Some(value) && value != ""
  }

  /** Sent values that count replace the stored one; an empty text counts as none, but a missing metadata
      plan gives way to the plan of the price. */
  predicate PlanAfter(metadataPlan: Option<string>, pricePlan: Option<string>, stored: string, plan: string) {
    || Says(metadataPlan, plan)
    || (metadataPlan.None? && Says(pricePlan, plan))
    || (!Truthy(metadataPlan) && (metadataPlan.Some? || !Truthy(pricePlan)) && plan == stored)
  }

  /** A column keeps its value unless one is sent. */
  predicate KeptOrSent<T(==)>(sent: Option<T>, stored: Option<T>, after: Option<T>) {
    after == if sent.Some? then sent else stored
  }

  predicate SameIds(b: BillingRow, b': BillingRow) {
    b'.customer == b.customer && b'.subscription == b.subscription && b'.trialEnds == b.trialEnds
  }

  /** Both rows after the event, in terms of the event and the rows before. */
  predicate Leaves(e: StripeEvent, b: Option<BillingRow>, row: TenantRow, b': BillingRow, row': TenantRow) {
    b'.plan == row'.plan && b'.status == row'.status &&
    match e
    case CheckoutCompleted(_, plan, subscription, customer) =>
      && row'.status == "active" && (Says(plan, row'.plan) || (!Truthy(plan) && row'.plan == "free"))
      && row'.periodEnd == row.periodEnd && b'.subscription == subscription
      && KeptOrSent(customer, if b.Some? then b.value.customer else None, b'.customer)
      && b'.trialEnds == (if b.Some? then b.value.trialEnds else None)
    case SubscriptionUpdated(_, subscription, customer, metadataPlan, pricePlan, status, periodEnd, trialEnd) =>
      && b.Some? && PlanAfter(metadataPlan, pricePlan, b.value.plan, row'.plan)
      && (Says(status, row'.status) || (!Truthy(status) && row'.status == b.value.status))
      && row'.periodEnd == periodEnd && b'.subscription == subscription && b'.trialEnds == trialEnd
      && KeptOrSent(customer, b.value.customer, b'.customer)
    case SubscriptionDeleted(_, _) =>
      && b.Some? && row' == TenantRow("free", "cancelled", None)
      && b'.subscription.None? && b'.trialEnds.None? && b'.customer == b.value.customer
    case PaymentSucceeded(_, _, periodEnd) =>
      && b.Some? && row'.status == "active" && row'.plan == row.plan
      && KeptOrSent(periodEnd, row.periodEnd, row'.periodEnd) && SameIds(b.value, b')
    case PaymentFailed(_, _) =>
      && b.Some? && row'.status == "past_due" && row'.plan == row.plan && row'.periodEnd == row.periodEnd
      && SameIds(b.value, b')
    case TrialWillEnd(_, _) => false
    case Unhandled => false
  }

  lemma {:induction false} EffectLeaves(s: State, e: StripeEvent, now: int)
    requires Inv(s) && Effect(s.db, e, now).Change? && Effect(s.db, e, now).tenant in s.db.tenants
    ensures var c := Effect(s.db, e, now);
            Leaves(e, Lookup(s.db.billing, c.tenant), s.db.tenants[c.tenant], c.billing, c.row)
  {
    EffectIsConsistent(s.db, e, now);
  }

  // ---------------------------------------------------------------- over runs

  /** The n-th action commits a Stripe event for the first time. */
  ghost predicate Commits(run: seq<State>, actions: seq<Action>, n: nat) {
    && IsRun(run, actions) && n < |actions|
    && actions[n].Stripe? && actions[n].commits && actions[n].job.id !in run[n].db.processed
  }

  /** After the commit of an event both rows of the tenant it is for hold what the event says, with the
      fallbacks of its kind; every other tenant keeps both rows and all devices. */
  lemma {:induction false} RowsAfterEvent(run: seq<State>, actions: seq<Action>, n: nat, t: string)
    requires Commits(run, actions, n)
    ensures var db, db', e := run[n].db, run[n + 1].db, actions[n].job.event;
            && (IsFor(db, e, t) ==>
                  && t in db.tenants && t in db'.tenants && t in db'.billing
                  && Leaves(e, Lookup(db.billing, t), db.tenants[t], db'.billing[t], db'.tenants[t]))
            && (!IsFor(db, e, t) ==>
                  && Lookup(db'.billing, t) == Lookup(db.billing, t) && Lookup(db'.tenants, t) == Lookup(db.tenants, t)
                  && forall d :: d in db.devices && db.devices[d].tenant == t ==> d in db'.devices && db'.devices[d] == db.devices[d])
            && db'.processed == db.processed + {actions[n].job.id} && db'.devices.Keys == db.devices.Keys
  {
    var s, e := run[n], actions[n].job.event;
    RunsKeepInv(run, actions, n);
    assert Follows(run, n, actions[n]);
    ChangesTheTenant(s, e, actions[n].now, t);
    if IsFor(s.db, e, t) {
      EffectLeaves(s, e, actions[n].now);
    }
  }

  /** An event that is for nobody, or of a kind that is not handled, changes nothing but the list of
      processed events; and no event is for two tenants. */
  lemma {:induction false} ForNobodyOrOne(run: seq<State>, actions: seq<Action>, n: nat)
    requires Commits(run, actions, n)
    ensures (forall t :: !IsFor(run[n].db, actions[n].job.event, t)) ==>
              run[n + 1].db == run[n].db.(processed := run[n].db.processed + {actions[n].job.id})
    ensures forall t, u :: IsFor(run[n].db, actions[n].job.event, t) && IsFor(run[n].db, actions[n].job.event, u) ==> t == u
  {
    RunsKeepInv(run, actions, n);
    assert Follows(run, n, actions[n]);
    forall t ensures IsFor(run[n].db, actions[n].job.event, t) <==>
                       Effect(run[n].db, actions[n].job.event, actions[n].now).Change?
                       && Effect(run[n].db, actions[n].job.event, actions[n].now).tenant == t
    {
      ChangesTheTenant(run[n], actions[n].job.event, actions[n].now, t);
    }
    if Effect(run[n].db, actions[n].job.event, actions[n].now).Change? {
      assert IsFor(run[n].db, actions[n].job.event, Effect(run[n].db, actions[n].job.event, actions[n].now).tenant);
    }
  }

  /** How many devices stay enabled: all below the limit that the price list gives for the rows just written. */
  lemma {:induction false} DevicesAfterEvent(run: seq<State>, actions: seq<Action>, n: nat, t: string)
    requires Commits(run, actions, n) && IsFor(run[n].db, actions[n].job.event, t)
    ensures FlagsAgree(run[n + 1].db, t, actions[n].now)
    ensures var row := run[n + 1].db.tenants[t];
            var limit := WorkerLimit(row.plan, row.status, row.periodEnd, actions[n].now);
            |Reconcile.Enabled(run[n + 1].db.devices, t)| ==
              if limit < 0 then |Owned(run[n].db.devices, t)| else Min(limit, |Owned(run[n].db.devices, t)|)
  {
    var s, e, now := run[n], actions[n].job.event, actions[n].now;
    RunsKeepInv(run, actions, n);
    assert Follows(run, n, actions[n]);
    ChangesTheTenant(s, e, now, t);
    BillingAgreement(run, actions, n);
    EffectIsConsistent(s.db, e, now);
    var row := run[n + 1].db.tenants[t];
    var limit := WorkerLimit(row.plan, row.status, row.periodEnd, now);
    assert run[n + 1].db.devices == Reconciled(s.db.devices, t, limit);
    if limit >= 0 {
      EnabledCount(s.db.devices, t, limit);
    } else {
      assert Reconcile.Enabled(run[n + 1].db.devices, t) == Owned(s.db.devices, t);
    }
  }

  /** A payment that fails after the paid period leaves the five oldest devices enabled, whatever the plan; one
      that fails within the period leaves as many as the plan allows. */
  lemma {:induction false} FailedPayment(run: seq<State>, actions: seq<Action>, n: nat, t: string)
    requires Commits(run, actions, n) && actions[n].job.event.PaymentFailed? && IsFor(run[n].db, actions[n].job.event, t)
    ensures t in run[n].db.tenants
    ensures var row, owned := run[n].db.tenants[t], |Owned(run[n].db.devices, t)|;
            var enabled := |Reconcile.Enabled(run[n + 1].db.devices, t)|;
            if row.periodEnd.Some? && actions[n].now < row.periodEnd.value && row.plan in {"starter", "professional", "enterprise"}
            then enabled == (if row.plan == "starter" then Min(10, owned) else if row.plan == "professional" then Min(100, owned) else owned)
            else enabled == Min(5, owned)
  {
    RowsAfterEvent(run, actions, n, t);
    DevicesAfterEvent(run, actions, n, t);
    var row := run[n + 1].db.tenants[t];
    assert |"past_due"| == 8;
    PriceList(row.plan, row.status, row.periodEnd, actions[n].now);
  }

  // ---------------------------------------------------------------- when an event commits

  /** Another tenant's row has this id. */
  predicate Taken(db: Db, t: string, subscription: Option<string>, customer: Option<string>) {
    exists u :: u in db.billing && u != t &&
                (|| (subscription.Some? && db.billing[u].subscription == subscription)
                 || (customer.Some? && db.billing[u].customer == customer))
  }

  /** The ids a checkout or an update would write for the tenant. */
  predicate IdsTaken(db: Db, e: StripeEvent, t: string) {
    (e.CheckoutCompleted? || e.SubscriptionUpdated?) &&
    Taken(db, t, e.subscription,
          if e.customer.Some? then e.customer else if t in db.billing then db.billing[t].customer else None)
  }

  /** A new event is processed if and only if the tenant it is for exists and none of the ids it would write
      is taken; so payments and deletions always are. */
  lemma {:induction false} ProcessedIff(s: State, job: Job, now: int)
    requires Inv(s) && job.id !in s.db.processed
    ensures Process(s.db, job, now).Some? <==>
              forall t :: IsFor(s.db, job.event, t) ==> t in s.db.tenants && !IdsTaken(s.db, job.event, t)
  {
    var c := Effect(s.db, job.event, now);
    forall t ensures IsFor(s.db, job.event, t) <==> c.Change? && c.tenant == t {
      ChangesTheTenant(s, job.event, now, t);
    }
    if c.Change? && c.tenant in s.db.tenants {
      EffectLeaves(s, job.event, now);
      UniqueIffNotTaken(s, c.tenant, c.billing);
      TakenIff(s, job.event, c.tenant, c.billing, c.row);
    }
  }

  lemma {:induction false} UniqueIffNotTaken(s: State, t: string, b: BillingRow)
    requires Inv(s)
    ensures UniqueStripeIds(s.db.billing[t := b]) <==> !Taken(s.db, t, b.subscription, b.customer)
  {
    var after := s.db.billing[t := b];
    if u :| u in s.db.billing && u != t &&
            (|| (b.subscription.Some? && s.db.billing[u].subscription == b.subscription)
             || (b.customer.Some? && s.db.billing[u].customer == b.customer)) {
      assert SharesStripeId(after[t], after[u]);
    }
  }

  lemma {:induction false} TakenIff(s: State, e: StripeEvent, t: string, b': BillingRow, row': TenantRow)
    requires Inv(s) && t in s.db.tenants && Leaves(e, Lookup(s.db.billing, t), s.db.tenants[t], b', row')
    ensures Taken(s.db, t, b'.subscription, b'.customer) <==> IdsTaken(s.db, e, t)
  {
    if !e.CheckoutCompleted? && !e.SubscriptionUpdated? {
      forall u | u in s.db.billing && u != t ensures !SharesStripeId(s.db.billing[u], b') {
        assert !SharesStripeId(s.db.billing[u], s.db.billing[t]);
      }
    }
  }
}
