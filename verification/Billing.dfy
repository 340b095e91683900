/**
 Billing. The Stripe worker applies each webhook event in one transaction to the billing row, the
 tenant row and the device flags; the gateway registers tenants and opens checkouts; devices come and
 go. Transactions are atomic steps of a run.
 */
module Billing {
  import opened Wrappers
  import opened Plans
  import opened Reconcile

  datatype BillingRow = BillingRow(
    plan: string, status: string, customer: Option<string>, subscription: Option<string>, trialEnds: Option<int>)

  datatype Db = Db(
    tenants: map<string, TenantRow>, billing: map<string, BillingRow>, devices: Devices, processed: set<string>)

  const EmptyDb := Db(map[], map[], map[], {})

  /** The webhook events, reduced to the fields that are read. An absent field is None. */
  datatype StripeEvent =
    | CheckoutCompleted(tenantId: Option<string>, plan: Option<string>, subscription: Option<string>, customer: Option<string>)
    | SubscriptionUpdated(
        tenantId: Option<string>, subscription: Option<string>, customer: Option<string>,
        metadataPlan: Option<string>, pricePlan: Option<string>, status: Option<string>,
        periodEnd: Option<int>, trialEnd: Option<int>)
    | SubscriptionDeleted(subscription: Option<string>, customer: Option<string>)
    | PaymentSucceeded(subscription: Option<string>, customer: Option<string>, periodEnd: Option<int>)
    | PaymentFailed(subscription: Option<string>, customer: Option<string>)
    | TrialWillEnd(subscription: Option<string>, customer: Option<string>)
    | Unhandled

  datatype Job = Job(id: string, event: StripeEvent)

  predicate Truthy(s: Option<string>) {
    s.Some? && s.value != ""
  }

  function Normalize(value: Option<string>, fallback: string): string {
    if Truthy(value) then value.value else fallback
  }

  function Either<T>(a: Option<T>, b: Option<T>): Option<T> {
    if a.Some? then a else b
  }

  // ---------------------------------------------------------------- finding the tenant

  predicate HasSubscription(db: Db, t: string, id: string) {
    t in db.billing && t in db.tenants && db.billing[t].subscription == Some(id)
  }

  predicate HasCustomer(db: Db, t: string, id: string) {
    t in db.billing && t in db.tenants && db.billing[t].customer == Some(id)
  }

  /** The first key that is given decides, even if it finds nothing. */
  ghost function FindContext(db: Db, tenantId: Option<string>, subscription: Option<string>, customer: Option<string>): (r: Option<string>)
    ensures r.Some? ==> r.value in db.billing && r.value in db.tenants
  {
    if Truthy(tenantId) then
      if tenantId.value in db.billing && tenantId.value in db.tenants then tenantId else None
    else if Truthy(subscription) then
      if t :| HasSubscription(db, t, subscription.value) then Some(t) else None
    else if Truthy(customer) then
      if t :| HasCustomer(db, t, customer.value) then Some(t) else None
    else None
  }

  predicate SharesStripeId(a: BillingRow, b: BillingRow) {
    (a.customer.Some? && a.customer == b.customer) || (a.subscription.Some? && a.subscription == b.subscription)
  }

  /** The unique columns of the billing table. */
  predicate UniqueStripeIds(billing: map<string, BillingRow>) {
    forall t, u :: t in billing && u in billing && t != u ==> !SharesStripeId(billing[t], billing[u])
  }

  // ---------------------------------------------------------------- one event

  /** What an event does to its tenant: both rows, and the limit it reconciles the devices to. */
  datatype Change = NoChange | Change(tenant: string, billing: BillingRow, row: TenantRow, limit: int)

  ghost function Effect(db: Db, e: StripeEvent, now: int): Change {
    match e
    case CheckoutCompleted(tenantId, plan, subscription, customer) =>
      if Truthy(tenantId) && Truthy(subscription) then
        var t, p := tenantId.value, Normalize(plan, "free");
        var stored := Lookup(db.billing, t);
        var kept := if stored.Some? then stored.value else BillingRow(p, "active", None, None, None);
        var row := if t in db.tenants then db.tenants[t] else TenantRow(p, "active", None);
        Change(t, BillingRow(p, "active", Either(customer, kept.customer), subscription, kept.trialEnds),
               row.(plan := p, status := "active"), WorkerLimit(p, "active", None, now))
      else NoChange
    case SubscriptionUpdated(tenantId, subscription, customer, metadataPlan, pricePlan, status, periodEnd, trialEnd) =>
      var t := FindContext(db, tenantId, subscription, customer);
      if t.None? then NoChange
      else
        var b := db.billing[t.value];
        var p := Normalize(Either(metadataPlan, pricePlan), b.plan);
        var st := Normalize(status, b.status);
        Change(t.value, BillingRow(p, st, Either(customer, b.customer), subscription, trialEnd),
               TenantRow(p, st, periodEnd), WorkerLimit(p, st, periodEnd, now))
    case SubscriptionDeleted(subscription, customer) =>
      var t := FindContext(db, None, subscription, customer);
      if t.None? then NoChange
      else
        Change(t.value, db.billing[t.value].(plan := "free", status := "cancelled", subscription := None, trialEnds := None),
               TenantRow("free", "cancelled", None), FREE_DEVICE_LIMIT)
    case PaymentSucceeded(subscription, customer, periodEnd) =>
      var t := FindContext(db, None, subscription, customer);
      if t.None? then NoChange
      else
        var b, row := db.billing[t.value], db.tenants[t.value];
        Change(t.value, b.(status := "active"), row.(status := "active", periodEnd := Either(periodEnd, row.periodEnd)),
               WorkerLimit(b.plan, "active", Either(periodEnd, row.periodEnd), now))
    case PaymentFailed(subscription, customer) =>
      var t := FindContext(db, None, subscription, customer);
      if t.None? then NoChange
      else
        var b, row := db.billing[t.value], db.tenants[t.value];
        Change(t.value, b.(status := "past_due"), row.(status := "past_due"),
               WorkerLimit(b.plan, "past_due", row.periodEnd, now))
    case TrialWillEnd(_, _) => NoChange
    case Unhandled => NoChange
  }

  /** The statements of the transaction; a violated foreign or unique key makes it fail. */
  function ApplyChange(db: Db, c: Change): Option<Db> {
    match c
    case NoChange => Some(db)
    case Change(t, billing, row, limit) =>
      if t in db.tenants && UniqueStripeIds(db.billing[t := billing]) then
        Some(db.(billing := db.billing[t := billing], tenants := db.tenants[t := row],
                 devices := Reconciled(db.devices, t, limit)))
      else None
  }

  /** A job whose transaction commits; a repeated id changes nothing, a failure is None. */
  ghost function Process(db: Db, job: Job, now: int): Option<Db> {
    if job.id in db.processed then Some(db)
    else
      var r := ApplyChange(db, Effect(db, job.event, now));
      if r.Some? then Some(r.value.(processed := db.processed + {job.id})) else None
  }

  // ---------------------------------------------------------------- runs

  /** `written` remembers the tenants whose status some Stripe event has written. */
  datatype State = State(db: Db, written: set<string>)

  datatype Action =
    | Stripe(job: Job, now: int, commits: bool)
    | RegisterTenant(tenant: string)
    | OpenCheckout(tenant: string, customer: string)
    | AddDevice(id: DeviceId, device: Device)
    | RemoveDevice(id: DeviceId)
    | DeleteAccount(tenant: string)

  function OpenedBilling(db: Db, t: string, customer: string): BillingRow {
    if t in db.billing then db.billing[t].(customer := Some(customer))
    else BillingRow("free", "none", Some(customer), None, None)
  }

  ghost predicate Enabled(s: State, a: Action) {
    match a
    case Stripe(job, now, commits) => commits ==> Process(s.db, job, now).Some?
    case RegisterTenant(t) => t !in s.db.tenants && t !in s.db.billing
    case OpenCheckout(t, customer) =>
      t in s.db.tenants && (t in s.db.billing ==> !Truthy(s.db.billing[t].customer))
      && UniqueStripeIds(s.db.billing[t := OpenedBilling(s.db, t, customer)])
    case AddDevice(id, _) => id !in s.db.devices
    case _ => true
  }

  ghost function Apply(s: State, a: Action): State
    requires Enabled(s, a)
  {
    match a
    case Stripe(job, now, commits) =>
      if !commits || job.id in s.db.processed then s
      else
        var c := Effect(s.db, job.event, now);
        State(Process(s.db, job, now).value, if c.Change? then s.written + {c.tenant} else s.written)
    case RegisterTenant(t) => s.(db := s.db.(tenants := s.db.tenants[t := TenantRow("free", "trialing", None)]))
    case OpenCheckout(t, customer) => s.(db := s.db.(billing := s.db.billing[t := OpenedBilling(s.db, t, customer)]))
    case AddDevice(id, device) => s.(db := s.db.(devices := s.db.devices[id := device]))
    case RemoveDevice(id) => s.(db := s.db.(devices := s.db.devices - {id}))
    case DeleteAccount(t) =>
      State(s.db.(tenants := s.db.tenants - {t}, billing := s.db.billing - {t},
                  devices := s.db.devices - Owned(s.db.devices, t)), s.written - {t})
  }

  /** The two plan columns say the same, and so do the two status columns from the first status-writing
      event on. A tenant without a billing row is on the free plan. */
  predicate Inv(s: State) {
    && s.db.billing.Keys <= s.db.tenants.Keys
    && UniqueStripeIds(s.db.billing)
    && (forall t :: t in s.db.billing ==> s.db.billing[t].plan == s.db.tenants[t].plan)
    && (forall t :: t in s.db.tenants && t !in s.db.billing ==> s.db.tenants[t].plan == "free")
    && (forall t :: t in s.written ==>
          t in s.db.billing && s.db.billing[t].status == s.db.tenants[t].status)
  }

  /** Both rows of a change carry the same plan and status, and its limit is the one those rows imply. */
  lemma {:induction false} EffectIsConsistent(db: Db, e: StripeEvent, now: int)
    requires forall t :: t in db.billing && t in db.tenants ==> db.billing[t].plan == db.tenants[t].plan
    requires Effect(db, e, now).Change?
    ensures var c := Effect(db, e, now);
            && c.billing.plan == c.row.plan && c.billing.status == c.row.status
            && c.limit == WorkerLimit(c.row.plan, c.row.status, c.row.periodEnd, now)
  {}

  lemma {:induction false} ActionKeepsInv(s: State, a: Action)
    requires Inv(s) && Enabled(s, a)
    ensures Inv(Apply(s, a))
  {
    if a.Stripe? && a.commits && a.job.id !in s.db.processed && Effect(s.db, a.job.event, a.now).Change? {
      EffectIsConsistent(s.db, a.job.event, a.now);
    }
  }

  /** The flags of the tenant's devices against the limits the other services compute from the stored
      tenant row: a device is disabled exactly when its age rank exceeds the limit. */
  ghost predicate FlagsAgree(db: Db, t: string, now: int) {
    && t in db.tenants
    && var row := db.tenants[t];
    && GatewayLimit(row.plan, row.status, row.periodEnd, now) == RegistryLimit(row.plan, row.status, row.periodEnd, now)
    && (forall d :: d in db.devices && db.devices[d].tenant == t ==>
          (db.devices[d].disabled <==>
           OverLimit(db.devices, t, GatewayLimit(row.plan, row.status, row.periodEnd, now), d)))
  }

  lemma {:induction false} ReconcilingAgrees(s: State, job: Job, now: int)
    requires Inv(s) && job.id !in s.db.processed && Process(s.db, job, now).Some?
    requires Effect(s.db, job.event, now).Change?
    ensures FlagsAgree(Process(s.db, job, now).value, Effect(s.db, job.event, now).tenant, now)
  {
    var c := Effect(s.db, job.event, now);
    EffectIsConsistent(s.db, job.event, now);
    LimitsAgree(c.row.plan, c.row.status, c.row.periodEnd, now);
    forall d | d in s.db.devices
      ensures Rank(Reconciled(s.db.devices, c.tenant, c.limit), c.tenant, d) == Rank(s.db.devices, c.tenant, d)
    {
      RanksSurvive(s.db.devices, c.tenant, c.limit, d);
    }
  }

  ghost predicate Follows(run: seq<State>, i: nat, a: Action)
    requires i + 1 < |run|
  {
    Enabled(run[i], a) && run[i + 1] == Apply(run[i], a)
  }

  ghost predicate IsRun(run: seq<State>, actions: seq<Action>) {
    |run| == |actions| + 1 && run[0] == State(EmptyDb, {}) &&
    forall i :: 0 <= i < |actions| ==> Follows(run, i, actions[i])
  }

  lemma {:induction false} RunsKeepInv(run: seq<State>, actions: seq<Action>, n: nat)
    requires IsRun(run, actions) && n < |run|
    ensures Inv(run[n])
  {
    if n > 0 {
      RunsKeepInv(run, actions, n - 1);
      assert Follows(run, n - 1, actions[n - 1]);
      ActionKeepsInv(run[n - 1], actions[n - 1]);
    }
  }

  /** Billing agreement: after every committed Stripe event that reconciles a tenant, in every run, the
      device flags are what gateway and registry compute from the stored row at that instant. */
  lemma {:induction false} BillingAgreement(run: seq<State>, actions: seq<Action>, n: nat)
    requires IsRun(run, actions) && n < |actions|
    requires actions[n].Stripe? && actions[n].commits && actions[n].job.id !in run[n].db.processed
    requires Effect(run[n].db, actions[n].job.event, actions[n].now).Change?
    ensures FlagsAgree(run[n + 1].db, Effect(run[n].db, actions[n].job.event, actions[n].now).tenant, actions[n].now)
  {
    RunsKeepInv(run, actions, n);
    assert Follows(run, n, actions[n]);
    ReconcilingAgrees(run[n], actions[n].job, actions[n].now);
  }

  /** The mirrored columns over whole runs. */
  lemma {:induction false} PlansAndStatusesMirror(run: seq<State>, actions: seq<Action>, n: nat, t: string)
    requires IsRun(run, actions) && n < |run| && t in run[n].db.billing
    ensures t in run[n].db.tenants && run[n].db.billing[t].plan == run[n].db.tenants[t].plan
    ensures t in run[n].written ==> run[n].db.billing[t].status == run[n].db.tenants[t].status
  {
    RunsKeepInv(run, actions, n);
  }

  /** The unique columns make every lookup unambiguous. */
  lemma {:induction false} OneHolder(db: Db, t: string, u: string, id: string)
    requires UniqueStripeIds(db.billing)
    requires (HasSubscription(db, t, id) && HasSubscription(db, u, id)) || (HasCustomer(db, t, id) && HasCustomer(db, u, id))
    ensures t == u
  {
    if t != u {
      assert SharesStripeId(db.billing[t], db.billing[u]);
    }
  }

  /** The tenant whose row holds the subscription, or without a subscription the customer. */
  predicate Holds(db: Db, t: string, subscription: Option<string>, customer: Option<string>) {
    if Truthy(subscription) then HasSubscription(db, t, subscription.value)
    else Truthy(customer) && HasCustomer(db, t, customer.value)
  }

  lemma {:induction false} FoundIsHolder(s: State, t: string, subscription: Option<string>, customer: Option<string>)
    requires Inv(s)
    ensures FindContext(s.db, None, subscription, customer) == Some(t) <==> Holds(s.db, t, subscription, customer)
  {
    var found := FindContext(s.db, None, subscription, customer);
    if found.Some? && Holds(s.db, t, subscription, customer) {
      OneHolder(s.db, t, found.value, if Truthy(subscription) then subscription.value else customer.value);
    }
  }

  /** So in every run an event that names no tenant is for the one that holds its subscription or customer,
      and for nobody else. */
  lemma {:induction false} LookupFindsTheHolder(run: seq<State>, actions: seq<Action>, n: nat, t: string,
                                                subscription: Option<string>, customer: Option<string>)
    requires IsRun(run, actions) && n < |run|
    ensures FindContext(run[n].db, None, subscription, customer) == Some(t) <==> Holds(run[n].db, t, subscription, customer)
  {
    RunsKeepInv(run, actions, n);
    FoundIsHolder(run[n], t, subscription, customer);
  }

  // ---------------------------------------------------------------- exactly once

  ghost predicate ValidRun(s: State, actions: seq<Action>)
    decreases |actions|
  {
    actions == [] || (Enabled(s, actions[0]) && ValidRun(Apply(s, actions[0]), actions[1..]))
  }

  ghost function Run(s: State, actions: seq<Action>): State
    requires ValidRun(s, actions)
    decreases |actions|
  {
    if actions == [] then s else Run(Apply(s, actions[0]), actions[1..])
  }

  /** The actions without failed deliveries and without repetitions of an event already committed: what
      is left is every committed event once, in first-commit order, among the other actions. */
  function OncePerEvent(seen: set<string>, actions: seq<Action>): seq<Action>
    decreases |actions|
  {
    if actions == [] then []
    else
      var a, rest := actions[0], actions[1..];
      if !a.Stripe? then [a] + OncePerEvent(seen, rest)
      else if !a.commits || a.job.id in seen then OncePerEvent(seen, rest)
      else [a] + OncePerEvent(seen + {a.job.id}, rest)
  }

  function StripeIds(actions: seq<Action>): seq<string>
    decreases |actions|
  {
    if actions == [] then []
    else (if actions[0].Stripe? then [actions[0].job.id] else []) + StripeIds(actions[1..])
  }

  /** No id twice and none of the seen ones. */
  predicate NewAndDistinct(seen: set<string>, ids: seq<string>) {
    (forall i :: 0 <= i < |ids| ==> ids[i] !in seen) && (forall i, j :: 0 <= i < j < |ids| ==> ids[i] != ids[j])
  }

  lemma {:induction false} StripeIdsCons(a: Action, tail: seq<Action>)
    ensures StripeIds([a] + tail) == (if a.Stripe? then [a.job.id] + StripeIds(tail) else StripeIds(tail))
  {
    assert ([a] + tail)[1..] == tail;
  }

  lemma {:induction false} OncePerEventIsDistinct(seen: set<string>, actions: seq<Action>)
    ensures NewAndDistinct(seen, StripeIds(OncePerEvent(seen, actions)))
    decreases |actions|
  {
    if actions != [] {
      var a, rest := actions[0], actions[1..];
      if a.Stripe? && a.commits && a.job.id !in seen {
        OncePerEventIsDistinct(seen + {a.job.id}, rest);
        StripeIdsCons(a, OncePerEvent(seen + {a.job.id}, rest));
        var ids := StripeIds(OncePerEvent(seen + {a.job.id}, rest));
        assert forall i :: 0 <= i < |ids| ==> ids[i] !in seen + {a.job.id};
        assert NewAndDistinct(seen, [a.job.id] + ids);
      } else {
        OncePerEventIsDistinct(seen, rest);
        StripeIdsCons(a, OncePerEvent(seen, rest));
      }
    }
  }

  /** Stripe exactly-once: whatever is redelivered or rolled back, the database is the one that results
      from applying every committed event once, in the order of first commits. */
  lemma {:induction false} ExactlyOnce(s: State, actions: seq<Action>)
    requires ValidRun(s, actions)
    ensures ValidRun(s, OncePerEvent(s.db.processed, actions))
    ensures Run(s, OncePerEvent(s.db.processed, actions)) == Run(s, actions)
    decreases |actions|
  {
    if actions != [] {
      var a, rest := actions[0], actions[1..];
      var s' := Apply(s, a);
      ExactlyOnce(s', rest);
      if !a.Stripe? || (a.commits && a.job.id !in s.db.processed) {
        var tail := OncePerEvent(s'.db.processed, rest);
        assert ([a] + tail)[1..] == tail;
      }
    }
  }
}
