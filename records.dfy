/**
 * The records of the dataset, the lookups the route handlers make on them, and the
 * invariants the collections keep: positive and distinct ids, distinct non-empty
 * service names, distinct appointment slots.
 */
module Records {
  import opened JsValues
  import opened Collections

  datatype Service = Service(id: int, name: string, description: string, cost: Number)

  datatype Appointment = Appointment(id: int, service: Scalar, dateTime: string, name: string, phone: string)

  datatype Business = Business(name: string, address: string, phone: string, email: string)

  datatype Admin = Admin(username: string, password: string)

  function ServiceId(s: Service): int { s.id }

  function AppointmentId(a: Appointment): int { a.id }

  /** `services.find(s => s.name === name)` finds a record. */
  predicate NameTaken(ss: seq<Service>, name: string) {
    exists k | 0 <= k < |ss| :: ss[k].name == name
  }

  /** `services.some(s => s.name === name && s.id !== id)`. */
  predicate NameTakenByOther(ss: seq<Service>, name: string, id: int) {
    exists k | 0 <= k < |ss| :: ss[k].name == name && ss[k].id != id
  }

  /** `appointments.find(a => a.dateTime === dateTime)` finds a record. */
  predicate SlotTaken(appts: seq<Appointment>, dateTime: string) {
    exists k | 0 <= k < |appts| :: appts[k].dateTime == dateTime
  }

  /** `appointments.find(a => a.id !== id && a.dateTime === dateTime)` finds a record. */
  predicate SlotTakenByOther(appts: seq<Appointment>, dateTime: string, id: int) {
    exists k | 0 <= k < |appts| :: appts[k].id != id && appts[k].dateTime == dateTime
  }

  /** Two services may coexist: their ids differ, and so do their names unless both are empty. */
  predicate ServicesApart(a: Service, b: Service) {
    a.id != b.id && (a.name == b.name ==> a.name == "")
  }

  /** Two appointments may coexist: their ids and their slots differ. */
  predicate AppointmentsApart(a: Appointment, b: Appointment) {
    a.id != b.id && a.dateTime != b.dateTime
  }

  ghost predicate ServicesValid(ss: seq<Service>) {
    && Pairwise(ss, ServicesApart)
    && forall k :: 0 <= k < |ss| ==> ss[k].id > 0
  }

  ghost predicate AppointmentsValid(appts: seq<Appointment>) {
    && Pairwise(appts, AppointmentsApart)
    && forall k :: 0 <= k < |appts| ==> appts[k].id > 0
  }

  /** The next id is positive while all ids in use are. */
  lemma NextIdPositive<T>(xs: seq<T>, idOf: T -> int)
    requires forall k :: 0 <= k < |xs| ==> idOf(xs[k]) > 0
    ensures NextId(Ids(xs, idOf)) > 0
  {
    if xs != [] {
      assert Ids(xs, idOf)[0] > 0;
    }
  }

  /** Appending a service with the next id and a fresh non-empty name keeps the invariant. */
  lemma AddServiceKeepsValid(ss: seq<Service>, s: Service)
    requires ServicesValid(ss)
    requires s.id == NextId(Ids(ss, ServiceId))
    requires s.name != "" && !NameTaken(ss, s.name)
    ensures ServicesValid(ss + [s])
  {
    NextIdPositive(ss, ServiceId);
    forall k | 0 <= k < |ss| ensures ServicesApart(ss[k], s) {
      assert Ids(ss, ServiceId)[k] == ss[k].id;
    }
    PairwiseAppend(ss, s, ServicesApart);
  }

  /**
   * Replacing the service at `i` by one with the same id keeps the invariant when its
   * name is the old one, empty, or held by no service with another id.
   */
  lemma ReplaceServiceKeepsValid(ss: seq<Service>, i: int, s: Service)
    requires ServicesValid(ss) && 0 <= i < |ss| && s.id == ss[i].id
    requires s.name == ss[i].name || s.name == "" || !NameTakenByOther(ss, s.name, s.id)
    ensures ServicesValid(ss[i := s])
  {
    forall k | 0 <= k < i ensures ServicesApart(ss[k], s) {
      assert ServicesApart(ss[k], ss[i]);
    }
    forall k | i < k < |ss| ensures ServicesApart(s, ss[k]) {
      assert ServicesApart(ss[i], ss[k]);
    }
    PairwiseReplace(ss, i, s, ServicesApart);
  }

  lemma RemoveServiceKeepsValid(ss: seq<Service>, id: int)
    requires ServicesValid(ss)
    ensures ServicesValid(WithoutId(ss, ServiceId, id))
  {
    WithoutIdKeepsPairwise(ss, ServiceId, id, ServicesApart);
    var r := WithoutId(ss, ServiceId, id);
    forall k | 0 <= k < |r| ensures r[k].id > 0 {
      assert r[k] in ss;
    }
  }

  /** Appending an appointment with the next id and a free slot keeps the invariant. */
  lemma AddAppointmentKeepsValid(appts: seq<Appointment>, a: Appointment)
    requires AppointmentsValid(appts)
    requires a.id == NextId(Ids(appts, AppointmentId))
    requires !SlotTaken(appts, a.dateTime)
    ensures AppointmentsValid(appts + [a])
  {
    NextIdPositive(appts, AppointmentId);
    forall k | 0 <= k < |appts| ensures AppointmentsApart(appts[k], a) {
      assert Ids(appts, AppointmentId)[k] == appts[k].id;
    }
    PairwiseAppend(appts, a, AppointmentsApart);
  }

  /**
   * Replacing the appointment at `i` by one with the same id keeps the invariant when its
   * slot is the old one or held by no appointment with another id.
   */
  lemma ReplaceAppointmentKeepsValid(appts: seq<Appointment>, i: int, a: Appointment)
    requires AppointmentsValid(appts) && 0 <= i < |appts| && a.id == appts[i].id
    requires a.dateTime == appts[i].dateTime || !SlotTakenByOther(appts, a.dateTime, a.id)
    ensures AppointmentsValid(appts[i := a])
  {
    forall k | 0 <= k < i ensures AppointmentsApart(appts[k], a) {
      assert AppointmentsApart(appts[k], appts[i]);
    }
    forall k | i < k < |appts| ensures AppointmentsApart(a, appts[k]) {
      assert AppointmentsApart(appts[i], appts[k]);
    }
    PairwiseReplace(appts, i, a, AppointmentsApart);
  }

  lemma RemoveAppointmentKeepsValid(appts: seq<Appointment>, id: int)
    requires AppointmentsValid(appts)
    ensures AppointmentsValid(WithoutId(appts, AppointmentId, id))
  {
    WithoutIdKeepsPairwise(appts, AppointmentId, id, AppointmentsApart);
    var r := WithoutId(appts, AppointmentId, id);
    forall k | 0 <= k < |r| ensures r[k].id > 0 {
      assert r[k] in appts;
    }
  }

  /** With distinct ids, deleting an id in use removes exactly the one service holding it. */
  lemma ServiceRemovedAlone(ss: seq<Service>, id: int)
    requires ServicesValid(ss) && FindIndex(ss, ServiceId, id) != -1
    ensures var i := FindIndex(ss, ServiceId, id);
      WithoutId(ss, ServiceId, id) == ss[..i] + ss[i + 1..]
  {
    var i := FindIndex(ss, ServiceId, id);
    forall j | 0 <= j < |ss| && j != i ensures ServiceId(ss[j]) != id {
      if j < i { assert ServicesApart(ss[j], ss[i]); } else { assert ServicesApart(ss[i], ss[j]); }
    }
    WithoutIdRemovesOnly(ss, ServiceId, id, i);
  }

  /** With distinct ids, deleting an id in use removes exactly the one appointment holding it. */
  lemma AppointmentRemovedAlone(appts: seq<Appointment>, id: int)
    requires AppointmentsValid(appts) && FindIndex(appts, AppointmentId, id) != -1
    ensures var i := FindIndex(appts, AppointmentId, id);
      WithoutId(appts, AppointmentId, id) == appts[..i] + appts[i + 1..]
  {
    var i := FindIndex(appts, AppointmentId, id);
    forall j | 0 <= j < |appts| && j != i ensures AppointmentId(appts[j]) != id {
      if j < i { assert AppointmentsApart(appts[j], appts[i]); } else { assert AppointmentsApart(appts[i], appts[j]); }
    }
    WithoutIdRemovesOnly(appts, AppointmentId, id, i);
  }
}
