/**
 * Request sequences from the seed state, and properties that relate several handlers (a delete undoes a create,
 * repeating an update changes nothing more).
 */
module Scenarios {
  import opened Wrappers
  import opened JsValues
  import opened Collections
  import opened Records
  import opened ClicaServer

  /**
   * From the seed: creating "Room B" gets id 3 (the seed holds ids 1 and 2); a second
   * request with the same name is rejected.
   */
  method DuplicateServiceName() returns (first: Status, created: Option<Service>, second: Status)
    ensures first == Ok && created == Some(Service(3, "Room B", "x", Finite(100)))
    ensures second == BadRequest
  {
    var store := new Store();
    assert Ids(SEED_SERVICES, ServiceId) == [1, 2];
    assert SEED_SERVICES[0].name != "Room B" && SEED_SERVICES[1].name != "Room B";
    first, created := store.CreateService(Some("Room B"), Some("x"), Some(Finite(100)));
    var again;
    second, again := store.CreateService(Some("Room B"), Some("y"), Some(Finite(5)));
    assert store.services[2].name == "Room B";
  }

  /** From the seed: the first appointment gets id 1; a second one in the same slot is a Conflict. */
  method DoubleBookedSlot() returns (first: Status, created: Option<Appointment>, second: Status)
    ensures first == Ok && created == Some(Appointment(1, Num(1), "2024-01-01T10:00", "A", "050"))
    ensures second == Conflict
  {
    var store := new Store();
    first, created := store.CreateAppointment(Some(Num(1)), Some("2024-01-01T10:00"), Some("A"), Some("050"));
    var again;
    second, again := store.CreateAppointment(Some(Num(2)), Some("2024-01-01T10:00"), Some("B"), Some("051"));
    assert store.appointments[0].dateTime == "2024-01-01T10:00";
  }

  /** From the seed: the password "1234" logs the admin in without a name; "wrong" does not. */
  method SeedLogin() returns (good: Option<string>, bad: Option<string>)
    ensures good == Some("admin") && bad == None
  {
    var store := new Store();
    good := store.Login(None, Some("1234"));
    bad := store.Login(None, Some("wrong"));
  }

  /** After changing the password from "1234" to "5678", only the new one logs in. */
  method PasswordChange() returns (status: Status, withOld: Option<string>, withNew: Option<string>)
    ensures status == Ok && withOld == None && withNew == Some("admin")
  {
    var store := new Store();
    status := store.ChangePassword(Some("1234"), Some("5678"));
    withOld := store.Login(None, Some("1234"));
    withNew := store.Login(Some("admin"), Some("5678"));
  }

  /**
   * An update that renames a service and then gives a non-numeric cost is rejected, and
   * the rename made before the cost check is not kept.
   */
  method BadCostDiscardsRename() returns (status: Status, services: seq<Service>)
    ensures status == BadRequest && services == SEED_SERVICES
  {
    var store := new Store();
    var updated;
    status, updated := store.UpdateService(1, Some("Hall"), None, Some(NaN));
    services := store.ListServices();
  }

  /**
   * An empty name skips the duplicate check but is still stored, so two services can
   * end up sharing the name "": uniqueness holds for non-empty names only.
   */
  method EmptyNamesMayRepeat() returns (first: Status, second: Status, names: seq<string>)
    ensures first == Ok && second == Ok && names == ["", ""]
  {
    var store := new Store();
    var updated;
    first, updated := store.UpdateService(1, Some(""), None, None);
    second, updated := store.UpdateService(2, Some(""), None, None);
    names := [store.services[0].name, store.services[1].name];
  }

  /** Deleting the service just created restores the services as they were. */
  method DeleteUndoesCreateService(store: Store, name: Option<string>, description: Option<string>, cost: Option<Number>)
    returns (created: Status, deleted: Status)
    modifies store
    ensures created == Ok ==> deleted == Ok
    ensures store.services == old(store.services) && store.appointments == old(store.appointments)
  {
    var service;
    created, service := store.CreateService(name, description, cost);
    deleted := Ok;
    if created == Ok {
      ghost var before := old(store.services);
      var id := service.value.id;
      assert forall k :: 0 <= k < |before| ==> Ids(before, ServiceId)[k] == ServiceId(before[k]);
      WithoutFreshAppended(before, service.value, ServiceId);
      deleted := store.DeleteService(id);
    }
  }

  /** Deleting the appointment just created restores the appointments as they were. */
  method DeleteUndoesCreateAppointment(store: Store, service: Option<Scalar>, dateTime: Option<string>,
                                       name: Option<string>, phone: Option<string>)
    returns (created: Status, deleted: Status)
    modifies store
    ensures created == Ok ==> deleted == Ok
    ensures store.services == old(store.services) && store.appointments == old(store.appointments)
  {
    var appointment;
    created, appointment := store.CreateAppointment(service, dateTime, name, phone);
    deleted := Ok;
    if created == Ok {
      ghost var before := old(store.appointments);
      var id := appointment.value.id;
      assert forall k :: 0 <= k < |before| ==> Ids(before, AppointmentId)[k] == AppointmentId(before[k]);
      WithoutFreshAppended(before, appointment.value, AppointmentId);
      deleted := store.DeleteAppointment(id);
    }
  }

  /**
   * Repeating a successful service update succeeds again, returns the same record and
   * leaves the services as the first update left them.
   */
  method RepeatServiceUpdate(store: Store, id: int, name: Option<string>, description: Option<string>, cost: Option<Number>)
    returns (first: Status, once: Option<Service>, second: Status, twice: Option<Service>)
    modifies store
    ensures first == Ok ==> once.Some? && 0 <= FindIndex(old(store.services), ServiceId, id) < |old(store.services)|
    ensures first == Ok ==>
      && second == Ok && twice == once
      && store.services == old(store.services)[FindIndex(old(store.services), ServiceId, id) := once.value]
      && store.appointments == old(store.appointments) && store.business == old(store.business) && store.admin == old(store.admin)
  {
    first, once := store.UpdateService(id, name, description, cost);
    second, twice := first, once;
    if first == Ok {
      ghost var before := old(store.services);
      ghost var after := store.services;
      FindIndexSameIds(before, after, ServiceId, id);
      assert forall k :: 0 <= k < |after| && after[k].id != id ==> after[k] == before[k];
      second, twice := store.UpdateService(id, name, description, cost);
      assert store.services == after;
    }
  }

  /**
   * Repeating a successful appointment update succeeds again, returns the same record
   * and leaves the appointments as the first update left them.
   */
  method RepeatAppointmentUpdate(store: Store, id: int, service: Option<Scalar>, dateTime: Option<string>,
                                 name: Option<string>, phone: Option<string>)
    returns (first: Status, once: Option<Appointment>, second: Status, twice: Option<Appointment>)
    modifies store
    ensures first == Ok ==> once.Some? && 0 <= FindIndex(old(store.appointments), AppointmentId, id) < |old(store.appointments)|
    ensures first == Ok ==>
      && second == Ok && twice == once
      && store.appointments == old(store.appointments)[FindIndex(old(store.appointments), AppointmentId, id) := once.value]
      && store.services == old(store.services) && store.business == old(store.business) && store.admin == old(store.admin)
  {
    first, once := store.UpdateAppointment(id, service, dateTime, name, phone);
    second, twice := first, once;
    if first == Ok {
      ghost var before := old(store.appointments);
      ghost var after := store.appointments;
      FindIndexSameIds(before, after, AppointmentId, id);
      assert forall k :: 0 <= k < |after| && after[k].id != id ==> after[k] == before[k];
      second, twice := store.UpdateAppointment(id, service, dateTime, name, phone);
      assert store.appointments == after;
    }
  }
}
