/** The create transaction: device row and outbox row together, or neither. */
module DeviceRegistration {
  import opened Wrappers
  import opened SagaModel
  import opened Provisioning

  class DeviceStore {
    var devices: map<string, Device>
    var outbox: set<OutboxRow>
    ghost var born: map<string, string>

    constructor ()
      ensures View() == Empty
    {
      devices, outbox, born := map[], {}, map[];
    }

    /** The part of the provisioning state that this transaction touches. */
    ghost function View(): State
      reads this
    {
      Empty.(devices := devices, outbox := outbox, born := born)
    }

    /** The id of the device that already has this serial, if any. */
    method FindBySerial(tenant: string, serial: string) returns (found: Option<string>)
      ensures found.Some? ==> found.value in devices && devices[found.value] == Device(tenant, serial)
      ensures found.None? ==> !SerialTaken(View(), tenant, serial)
    {
      var todo := devices.Keys;
      while todo != {}
        invariant todo <= devices.Keys
        invariant forall d :: d in devices && d !in todo ==> devices[d] != Device(tenant, serial)
        decreases |todo|
      {
        var d :| d in todo;
        if devices[d] == Device(tenant, serial) {
          return Some(d);
        }
        todo := todo - {d};
      }
      found := None;
    }

    /** `id` is the generated id. On a serial conflict the upsert returns the id of the existing device
        instead, and the outbox row names that one. Any failure leaves both tables as they were. */
    method Execute(id: string, tenant: string, serial: string, fails: bool) returns (created: Option<string>)
      requires id !in born && id != "" && tenant != ""
      requires forall d :: d in devices ==> d != "" && d in born && born[d] == devices[d].tenant
      modifies this
      ensures created.Some? <==> !fails
      ensures fails ==> View() == old(View())
      ensures created.Some? ==>
                && Enabled(old(View()), CreateDevice(created.value, tenant, serial))
                && View() == Apply(old(View()), CreateDevice(created.value, tenant, serial))
      ensures created.Some? ==> (created.value == id <==> !SerialTaken(old(View()), tenant, serial))
      ensures forall d :: d in devices ==> d != "" && d in born && born[d] == devices[d].tenant
    {
      var existing := FindBySerial(tenant, serial);
      if fails {
        return None;
      }
      var saved := if existing.Some? then existing.value else id;
      devices := devices[saved := Device(tenant, serial)];
      outbox := outbox + {OutboxRow(saved, tenant)};
      born := born[saved := tenant];
      created := Some(saved);
    }
  }
}
