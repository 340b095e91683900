/** The Stripe worker's transaction, statement by statement, against `Billing.Process`. */
module StripeWorker {
  import opened Wrappers
  import opened Plans
  import opened Reconcile
  import opened Billing

  class Worker {
    var tenants: map<string, TenantRow>
    var billing: map<string, BillingRow>
    var processed: set<string>
    const table: DeviceTable

    constructor (table: DeviceTable)
      ensures tenants == map[] && billing == map[] && processed == {} && this.table == table
    {
      tenants, billing, processed := map[], map[], {};
      this.table := table;
    }

    ghost function Database(): Db
      reads this, table
    {
      Db(tenants, billing, table.devices, processed)
    }

    method FindBy(subscription: Option<string>, customer: Option<string>) returns (found: Option<string>)
      requires UniqueStripeIds(billing)
      requires Truthy(subscription) || Truthy(customer)
      ensures found == FindContext(Database(), None, subscription, customer)
    {
      found := None;
      var todo := billing.Keys;
      while todo != {}
        invariant todo <= billing.Keys
        invariant forall t :: t in billing && t !in todo ==>
                    !(if Truthy(subscription) then HasSubscription(Database(), t, subscription.value)
                      else HasCustomer(Database(), t, customer.value))
        decreases |todo|
      {
        var t :| t in todo;
        if t in tenants && (if Truthy(subscription) then billing[t].subscription == subscription
                            else billing[t].customer == customer) {
          found := Some(t);
          assert if Truthy(subscription) then HasSubscription(Database(), t, subscription.value)
                 else HasCustomer(Database(), t, customer.value);
          forall u | u in billing && u != t
            ensures !(if Truthy(subscription) then HasSubscription(Database(), u, subscription.value)
                      else HasCustomer(Database(), u, customer.value))
          {
            assert !SharesStripeId(billing[u], billing[t]);
          }
          return;
        }
        todo := todo - {t};
      }
    }

    /** Looks a tenant up by the first key that is given. */
    method FindBillingContext(tenantId: Option<string>, subscription: Option<string>, customer: Option<string>)
      returns (found: Option<string>)
      requires UniqueStripeIds(billing)
      ensures found == FindContext(Database(), tenantId, subscription, customer)
    {
      if Truthy(tenantId) {
        found := if tenantId.value in billing && tenantId.value in tenants then tenantId else None;
      } else if Truthy(subscription) || Truthy(customer) {
        found := FindBy(subscription, customer);
      } else {
        found := None;
      }
    }

    /** The change an event asks for: the rows to write and the limit to reconcile to. */
    method Decide(e: StripeEvent, now: int) returns (c: Change)
      requires UniqueStripeIds(billing)
      ensures c == Effect(Database(), e, now)
    {
      c := NoChange;
      match e {
        case CheckoutCompleted(tenantId, plan, subscription, customer) =>
          if Truthy(tenantId) && Truthy(subscription) {
            var t, p := tenantId.value, Normalize(plan, "free");
            var kept := if t in billing then billing[t] else BillingRow(p, "active", None, None, None);
            var row := if t in tenants then tenants[t] else TenantRow(p, "active", None);
            c := Change(t, BillingRow(p, "active", Either(customer, kept.customer), subscription, kept.trialEnds),
                        row.(plan := p, status := "active"), WorkerLimit(p, "active", None, now));
          }
        case SubscriptionUpdated(tenantId, subscription, customer, metadataPlan, pricePlan, status, periodEnd, trialEnd) =>
          var t := FindBillingContext(tenantId, subscription, customer);
          if t.Some? {
            var b := billing[t.value];
            var p := Normalize(Either(metadataPlan, pricePlan), b.plan);
            var st := Normalize(status, b.status);
            c := Change(t.value, BillingRow(p, st, Either(customer, b.customer), subscription, trialEnd),
                        TenantRow(p, st, periodEnd), WorkerLimit(p, st, periodEnd, now));
          }
        case SubscriptionDeleted(subscription, customer) =>
          var t := FindBillingContext(None, subscription, customer);
          if t.Some? {
            c := Change(t.value, billing[t.value].(plan := "free", status := "cancelled", subscription := None, trialEnds := None),
                        TenantRow("free", "cancelled", None), FREE_DEVICE_LIMIT);
          }
        case PaymentSucceeded(subscription, customer, periodEnd) =>
          var t := FindBillingContext(None, subscription, customer);
          if t.Some? {
            var end := Either(periodEnd, tenants[t.value].periodEnd);
            c := Change(t.value, billing[t.value].(status := "active"), tenants[t.value].(status := "active", periodEnd := end),
                        WorkerLimit(billing[t.value].plan, "active", end, now));
          }
        case PaymentFailed(subscription, customer) =>
          var t := FindBillingContext(None, subscription, customer);
          if t.Some? {
            c := Change(t.value, billing[t.value].(status := "past_due"), tenants[t.value].(status := "past_due"),
                        WorkerLimit(billing[t.value].plan, "past_due", tenants[t.value].periodEnd, now));
          }
        case TrialWillEnd(_, _) =>
        case Unhandled =>
      }
    }

    /** One delivery: claim the id, write, commit. It succeeds for a repeated id without doing anything,
        and a failure anywhere leaves every table as it was. */
    method ProcessStripeEvent(job: Job, now: int, fails: bool) returns (ok: bool)
      requires UniqueStripeIds(billing)
      modifies this, table
      ensures var after := Process(old(Database()), job, now);
              if job.id in old(processed) then (ok ==> Database() == old(Database()))
              else if fails || after.None? then !ok && Database() == old(Database())
              else ok && Database() == after.value
      ensures !ok ==> Database() == old(Database())
      ensures ok <==> !fails && Process(old(Database()), job, now).Some?
      ensures UniqueStripeIds(billing)
    {
      if fails {
        return false;
      }
      if job.id in processed {
        return true;
      }
      var c := Decide(job.event, now);
      if c.Change? {
        if c.tenant !in tenants || !UniqueStripeIds(billing[c.tenant := c.billing]) {
          return false;
        }
        billing := billing[c.tenant := c.billing];
        tenants := tenants[c.tenant := c.row];
        table.ReconcileTenantDevices(c.tenant, c.limit);
      }
      processed := processed + {job.id};
      ok := true;
    }
  }
}
