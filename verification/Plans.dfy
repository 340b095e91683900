/**
 Device limits. Three services compute the limit of a tenant on their own: the Stripe worker when it
 reconciles devices, the gateway before it creates a device, and the asset registry when it allocates
 quota.
 */
module Plans {
  import opened Wrappers

  const FREE_DEVICE_LIMIT := 5
  const UNLIMITED := -1

  /** Stripe worker. */
  predicate WorkerPaidAccess(status: string, periodEnd: Option<int>, now: int) {
    status == "active" || status == "trialing" ||
    ((status == "past_due" || status == "cancelled") && periodEnd.Some? && periodEnd.value > now)
  }

  function WorkerLimit(plan: string, status: string, periodEnd: Option<int>, now: int): int {
    if !WorkerPaidAccess(status, periodEnd, now) then FREE_DEVICE_LIMIT
    else if plan == "enterprise" then UNLIMITED
    else if plan == "professional" then 100
    else if plan == "starter" then 10
    else FREE_DEVICE_LIMIT
  }

  /** Gateway: the paid plans are the keys of a price table. */
  const PaidPlans: map<string, int> := map["starter" := 10, "professional" := 100, "enterprise" := -1]

  predicate GatewayPaidAccess(plan: string, status: string, periodEnd: Option<int>, now: int) {
    plan in PaidPlans &&
    (status == "active" || status == "trialing" ||
     (status in {"past_due", "cancelled"} && periodEnd.Some? && periodEnd.value > now))
  }

  function QuotaLimitForPlan(plan: string): int {
    if plan == "enterprise" then UNLIMITED
    else if plan in PaidPlans then PaidPlans[plan]
    else FREE_DEVICE_LIMIT
  }

  function GatewayLimit(plan: string, status: string, periodEnd: Option<int>, now: int): int {
    var effectiveStatus := if status == "" then "none" else status;
    QuotaLimitForPlan(if GatewayPaidAccess(plan, effectiveStatus, periodEnd, now) then plan else "free")
  }

  datatype QuotaResult = QuotaResult(allowed: bool, currentCount: nat, maxDevices: int)

  datatype TenantRow = TenantRow(plan: string, status: string, periodEnd: Option<int>)

  /** The gateway's check before a creation; an unknown tenant is refused. */
  function CheckDeviceQuota(row: Option<TenantRow>, count: nat, now: int): QuotaResult {
    match row
    case None => QuotaResult(false, 0, 0)
    case Some(t) =>
      var limit := GatewayLimit(t.plan, t.status, t.periodEnd, now);
      QuotaResult(limit == UNLIMITED || count < limit, count, limit)
  }

  /** Asset registry. */
  predicate RegistryPaidAccess(plan: string, status: string, periodEnd: Option<int>, now: int) {
    if status == "active" || status == "trialing" then plan != "free"
    else plan != "free" && (status == "past_due" || status == "cancelled") && periodEnd.Some? && periodEnd.value > now
  }

  function RegistryLimit(plan: string, status: string, periodEnd: Option<int>, now: int): int {
    if !RegistryPaidAccess(plan, status, periodEnd, now) then FREE_DEVICE_LIMIT
    else
      match plan
      case "enterprise" => UNLIMITED
      case "professional" => 100
      case "starter" => 10
      case _ => FREE_DEVICE_LIMIT
  }

  /** The registry's verdict for a device that is already counted. */
  predicate RegistryGrants(t: TenantRow, count: nat, now: int) {
    var limit := RegistryLimit(t.plan, t.status, t.periodEnd, now);
    limit == UNLIMITED || count <= limit
  }

  /** The three rules are written differently and agree on every plan, status, period and clock. */
  lemma {:induction false} LimitsAgree(plan: string, status: string, periodEnd: Option<int>, now: int)
    ensures WorkerLimit(plan, status, periodEnd, now) == GatewayLimit(plan, status, periodEnd, now)
    ensures WorkerLimit(plan, status, periodEnd, now) == RegistryLimit(plan, status, periodEnd, now)
  {
    assert "starter" != "professional" && "starter" != "enterprise" && "professional" != "enterprise";
    assert "free" !in PaidPlans by {
      assert |"free"| == 4;
    }
  }

  /** A subscription is in force: it is active or on trial, or it lapsed and its paid period still runs. */
  predicate InForce(status: string, periodEnd: Option<int>, now: int) {
    status in {"active", "trialing"} ||
    (status in {"past_due", "cancelled"} && periodEnd.Some? && now < periodEnd.value)
  }

  /** The price list: ten, a hundred or any number of devices while the subscription is in force, and five
      without it or without a paid plan. */
  lemma {:induction false} PriceList(plan: string, status: string, periodEnd: Option<int>, now: int)
    ensures InForce(status, periodEnd, now) ==>
              && WorkerLimit("starter", status, periodEnd, now) == 10
              && WorkerLimit("professional", status, periodEnd, now) == 100
              && WorkerLimit("enterprise", status, periodEnd, now) == -1
    ensures !InForce(status, periodEnd, now) || plan !in {"starter", "professional", "enterprise"} ==>
              WorkerLimit(plan, status, periodEnd, now) == 5
  {
    assert |"starter"| == 7 && |"professional"| == 12 && |"enterprise"| == 10;
  }

  /** The gateway admits another device exactly while there are fewer than the limit, any number without a
      limit, and none for a tenant it does not know. */
  lemma {:induction false} AdmitsIffBelow(row: Option<TenantRow>, count: nat, now: int)
    ensures CheckDeviceQuota(row, count, now).allowed <==>
              row.Some? && var limit := WorkerLimit(row.value.plan, row.value.status, row.value.periodEnd, now);
                           limit == -1 || count < limit
    ensures row.Some? ==>
              && CheckDeviceQuota(row, count, now).currentCount == count
              && CheckDeviceQuota(row, count, now).maxDevices == WorkerLimit(row.value.plan, row.value.status, row.value.periodEnd, now)
  {
    if row.Some? {
      LimitsAgree(row.value.plan, row.value.status, row.value.periodEnd, now);
    }
  }

  /** A device the gateway lets in is, once counted, granted by the registry, and conversely. */
  lemma {:induction false} AdmissionMatchesAllocation(t: TenantRow, count: nat, now: int)
    ensures CheckDeviceQuota(Some(t), count, now).allowed <==> RegistryGrants(t, count + 1, now)
  {
    LimitsAgree(t.plan, t.status, t.periodEnd, now);
  }
}
