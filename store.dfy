/**
 * The dataset of the booking server and its route handlers. Every mutating handler
 * reads the whole dataset, checks the request, changes its copy and writes the dataset
 * back only when the request succeeds; the fields of `Store` are the persisted dataset,
 * so a handler that fails leaves them as they were.
 */
module ClicaServer {
  import opened Wrappers
  import opened JsValues
  import opened Collections
  import opened Records

  /** The outcome of a request: `Ok` stands for 200, 201 and 204 alike. */
  datatype Status = Ok | BadRequest | NotFound | Conflict | Unauthorized

  /** The two services of the seed document, with ids 1 and 2. */
  const SEED_SERVICES: seq<Service> := [
    Service(1, "אולם פעילות גדול", "אולם המתאים לאירועים גדולים וישיבות מרובות משתתפים", Finite(350)),
    Service(2, "חדר ישיבות A", "חדר ישיבות יוקרתי עם מסך ולוח מחיק", Finite(120))
  ]

  const SEED_BUSINESS: Business :=
    Business("מרכז השכרות – רום", "הרצל 10, תל אביב", "03-1234567", "info@room-center.co.il")

  const SEED_ADMIN: Admin := Admin("admin", "1234")

  class Store {
    var services: seq<Service>
    var appointments: seq<Appointment>
    var business: Business
    var admin: Admin

    /** The invariants the handlers keep. */
    ghost predicate Valid()
      reads this
    {
      ServicesValid(services) && AppointmentsValid(appointments)
    }

    /** The seed document written when no dataset exists yet. */
    constructor ()
      ensures services == SEED_SERVICES && appointments == []
      ensures business == SEED_BUSINESS && admin == SEED_ADMIN
      ensures Valid()
    {
      services := SEED_SERVICES;
      appointments := [];
      business := SEED_BUSINESS;
      admin := SEED_ADMIN;
    }

    // ---------- services ----------

    /** GET /services: the stored services in insertion order. */
    function ListServices(): (r: seq<Service>)
      reads this
      ensures r == services
      ensures Valid() ==> ServicesValid(r)
    {
      services
    }

    /**
     * POST /service: rejects a request missing a truthy name, description or cost
     * (so a cost of 0 is rejected) and one whose name is already in use; otherwise
     * appends a service with the next id.
     */
    method CreateService(name: Option<string>, description: Option<string>, cost: Option<Number>)
      returns (status: Status, created: Option<Service>)
      modifies this
      ensures status == Ok || status == BadRequest
      ensures status == BadRequest <==>
        || !TruthyText(name) || !TruthyText(description) || !TruthyNumber(cost)
        || NameTaken(old(services), name.value)
      ensures status != Ok ==> unchanged(this) && created == None
      ensures status == Ok ==>
        && created == Some(Service(NextId(Ids(old(services), ServiceId)), name.value, description.value, cost.value))
        && services == old(services) + [created.value]
        && appointments == old(appointments) && business == old(business) && admin == old(admin)
      ensures old(Valid()) ==> Valid()
    {
      if !TruthyText(name) || !TruthyText(description) || !TruthyNumber(cost) {
        return BadRequest, None;
      }
      var ss := services;
      if NameTaken(ss, name.value) {
        return BadRequest, None;
      }
      var id := NextId(Ids(ss, ServiceId));
      var service := Service(id, name.value, description.value, cost.value);
      if ServicesValid(ss) {
        AddServiceKeepsValid(ss, service);
      }
      services := ss + [service];
      return Ok, Some(service);
    }

    /**
     * PUT /service/:id: overwrites the fields given (not null) on the service holding
     * `id`. An unknown id is NotFound; a truthy name held by a service with another id,
     * or a cost that is not a number, is BadRequest, and nothing is written.
     */
    method UpdateService(id: int, name: Option<string>, description: Option<string>, cost: Option<Number>)
      returns (status: Status, updated: Option<Service>)
      modifies this
      ensures status == Ok || status == NotFound || status == BadRequest
      ensures status == NotFound <==> FindIndex(old(services), ServiceId, id) == -1
      ensures status == BadRequest <==>
        && FindIndex(old(services), ServiceId, id) != -1
        && ((TruthyText(name) && NameTakenByOther(old(services), name.value, id)) || cost == Some(NaN))
      ensures status != Ok ==> unchanged(this) && updated == None
      ensures status == Ok ==>
        var i := FindIndex(old(services), ServiceId, id);
        var s := old(services)[i];
        && 0 <= i
        && services == old(services)[i := Service(s.id, name.GetOr(s.name), description.GetOr(s.description), cost.GetOr(s.cost))]
        && updated == Some(services[i])
        && appointments == old(appointments) && business == old(business) && admin == old(admin)
      ensures old(Valid()) ==> Valid()
    {
      var ss := services;
      var i := FindIndex(ss, ServiceId, id);
      if i == -1 {
        return NotFound, None;
      }
      if TruthyText(name) && NameTakenByOther(ss, name.value, id) {
        return BadRequest, None;
      }
      if name.Some? {
        ss := ss[i := ss[i].(name := name.value)];
      }
      if description.Some? {
        ss := ss[i := ss[i].(description := description.value)];
      }
      if cost.Some? {
        var n := cost.value;
        if n.NaN? {
          return BadRequest, None;
        }
        ss := ss[i := ss[i].(cost := n)];
      }
      if ServicesValid(services) {
        ReplaceServiceKeepsValid(services, i, ss[i]);
      }
      services := ss;
      return Ok, Some(ss[i]);
    }

    /**
     * DELETE /service/:id: removes every service holding `id`, keeping the order of the
     * rest; NotFound, with nothing written, when none held it. Appointments that refer
     * to the service are kept.
     */
    method DeleteService(id: int) returns (status: Status)
      modifies this
      ensures status == Ok || status == NotFound
      ensures status == NotFound <==> forall k :: 0 <= k < |old(services)| ==> old(services)[k].id != id
      ensures status != Ok ==> unchanged(this)
      ensures status == Ok ==>
        && services == WithoutId(old(services), ServiceId, id)
        && appointments == old(appointments) && business == old(business) && admin == old(admin)
      ensures status == Ok && old(Valid()) ==>
        var i := FindIndex(old(services), ServiceId, id);
        0 <= i && services == old(services)[..i] + old(services)[i + 1..]
      ensures old(Valid()) ==> Valid()
    {
      var before := |services|;
      var ss := WithoutId(services, ServiceId, id);
      if |ss| == before {
        return NotFound;
      }
      if ServicesValid(services) {
        RemoveServiceKeepsValid(services, id);
        ServiceRemovedAlone(services, id);
      }
      services := ss;
      return Ok;
    }

    // ---------- appointments ----------

    /** GET /appointments: the stored appointments in insertion order. */
    function ListAppointments(): (r: seq<Appointment>)
      reads this
      ensures r == appointments
      ensures Valid() ==> AppointmentsValid(r)
    {
      appointments
    }

    /**
     * POST /appointment: rejects a request missing a truthy service, dateTime, name or
     * phone (BadRequest) and one whose slot is already booked (Conflict); otherwise
     * appends an appointment with the next id.
     */
    method CreateAppointment(service: Option<Scalar>, dateTime: Option<string>, name: Option<string>, phone: Option<string>)
      returns (status: Status, created: Option<Appointment>)
      modifies this
      ensures status == Ok || status == BadRequest || status == Conflict
      ensures status == BadRequest <==>
        !TruthyScalar(service) || !TruthyText(dateTime) || !TruthyText(name) || !TruthyText(phone)
      ensures status == Conflict <==>
        && TruthyScalar(service) && TruthyText(dateTime) && TruthyText(name) && TruthyText(phone)
        && SlotTaken(old(appointments), dateTime.value)
      ensures status != Ok ==> unchanged(this) && created == None
      ensures status == Ok ==>
        && created == Some(Appointment(NextId(Ids(old(appointments), AppointmentId)),
                                       service.value, dateTime.value, name.value, phone.value))
        && appointments == old(appointments) + [created.value]
        && services == old(services) && business == old(business) && admin == old(admin)
      ensures old(Valid()) ==> Valid()
    {
      if !TruthyScalar(service) || !TruthyText(dateTime) || !TruthyText(name) || !TruthyText(phone) {
        return BadRequest, None;
      }
      var appts := appointments;
      if SlotTaken(appts, dateTime.value) {
        return Conflict, None;
      }
      var id := NextId(Ids(appts, AppointmentId));
      var appointment := Appointment(id, service.value, dateTime.value, name.value, phone.value);
      if AppointmentsValid(appts) {
        AddAppointmentKeepsValid(appts, appointment);
      }
      appointments := appts + [appointment];
      return Ok, Some(appointment);
    }

    /**
     * PUT /appointment/:id: overwrites the fields given (not null) on the appointment
     * holding `id`. An unknown id is NotFound; a dateTime held by an appointment with
     * another id is Conflict, and nothing is written.
     */
    method UpdateAppointment(id: int, service: Option<Scalar>, dateTime: Option<string>, name: Option<string>, phone: Option<string>)
      returns (status: Status, updated: Option<Appointment>)
      modifies this
      ensures status == Ok || status == NotFound || status == Conflict
      ensures status == NotFound <==> FindIndex(old(appointments), AppointmentId, id) == -1
      ensures status == Conflict <==>
        && FindIndex(old(appointments), AppointmentId, id) != -1
        && dateTime.Some? && SlotTakenByOther(old(appointments), dateTime.value, id)
      ensures status != Ok ==> unchanged(this) && updated == None
      ensures status == Ok ==>
        var i := FindIndex(old(appointments), AppointmentId, id);
        var a := old(appointments)[i];
        && 0 <= i
        && appointments == old(appointments)[i := Appointment(a.id, service.GetOr(a.service), dateTime.GetOr(a.dateTime),
                                                             name.GetOr(a.name), phone.GetOr(a.phone))]
        && updated == Some(appointments[i])
        && services == old(services) && business == old(business) && admin == old(admin)
      ensures old(Valid()) ==> Valid()
    {
      var appts := appointments;
      var i := FindIndex(appts, AppointmentId, id);
      if i == -1 {
        return NotFound, None;
      }
      if dateTime.Some? {
        if SlotTakenByOther(appts, dateTime.value, id) {
          return Conflict, None;
        }
        appts := appts[i := appts[i].(dateTime := dateTime.value)];
      }
      if service.Some? {
        appts := appts[i := appts[i].(service := service.value)];
      }
      if name.Some? {
        appts := appts[i := appts[i].(name := name.value)];
      }
      if phone.Some? {
        appts := appts[i := appts[i].(phone := phone.value)];
      }
      if AppointmentsValid(appointments) {
        ReplaceAppointmentKeepsValid(appointments, i, appts[i]);
      }
      appointments := appts;
      return Ok, Some(appts[i]);
    }

    /**
     * DELETE /appointment/:id: removes every appointment holding `id`, keeping the order
     * of the rest; NotFound, with nothing written, when none held it.
     */
    method DeleteAppointment(id: int) returns (status: Status)
      modifies this
      ensures status == Ok || status == NotFound
      ensures status == NotFound <==> forall k :: 0 <= k < |old(appointments)| ==> old(appointments)[k].id != id
      ensures status != Ok ==> unchanged(this)
      ensures status == Ok ==>
        && appointments == WithoutId(old(appointments), AppointmentId, id)
        && services == old(services) && business == old(business) && admin == old(admin)
      ensures status == Ok && old(Valid()) ==>
        var i := FindIndex(old(appointments), AppointmentId, id);
        0 <= i && appointments == old(appointments)[..i] + old(appointments)[i + 1..]
      ensures old(Valid()) ==> Valid()
    {
      var before := |appointments|;
      var appts := WithoutId(appointments, AppointmentId, id);
      if |appts| == before {
        return NotFound;
      }
      if AppointmentsValid(appointments) {
        RemoveAppointmentKeepsValid(appointments, id);
        AppointmentRemovedAlone(appointments, id);
      }
      appointments := appts;
      return Ok;
    }

    // ---------- business profile ----------

    /** GET /businessData. */
    function GetBusiness(): (r: Business)
      reads this
      ensures r == business
    {
      business
    }

    /**
     * POST /businessData: replaces the whole profile when all four fields are truthy,
     * BadRequest otherwise.
     */
    method ReplaceBusiness(name: Option<string>, address: Option<string>, phone: Option<string>, email: Option<string>)
      returns (status: Status, stored: Option<Business>)
      modifies this
      ensures status == Ok || status == BadRequest
      ensures status == Ok <==> TruthyText(name) && TruthyText(address) && TruthyText(phone) && TruthyText(email)
      ensures status != Ok ==> unchanged(this) && stored == None
      ensures status == Ok ==>
        && business == Business(name.value, address.value, phone.value, email.value)
        && stored == Some(business)
        && services == old(services) && appointments == old(appointments) && admin == old(admin)
      ensures old(Valid()) ==> Valid()
    {
      if !TruthyText(name) || !TruthyText(address) || !TruthyText(phone) || !TruthyText(email) {
        return BadRequest, None;
      }
      business := Business(name.value, address.value, phone.value, email.value);
      return Ok, Some(business);
    }

    // ---------- admin ----------

    /**
     * POST /login: the admin's username when the password matches and the name is
     * either not truthy or the admin's username; `None` (401) otherwise.
     */
    function Login(name: Option<string>, password: Option<string>): (user: Option<string>)
      reads this
      ensures user.Some? <==> (!TruthyText(name) || name == Some(admin.username)) && password == Some(admin.password)
      ensures user.Some? ==> user.value == admin.username
    {
      var nameOk := if TruthyText(name) then name.value == admin.username else true;
      if nameOk && password.Some? && password.value == admin.password then Some(admin.username) else None
    }

    /**
     * POST /admin/password: BadRequest unless both passwords are truthy, Unauthorized
     * unless the old one matches; otherwise stores the new password and changes nothing else.
     */
    method ChangePassword(oldPassword: Option<string>, newPassword: Option<string>) returns (status: Status)
      modifies this
      ensures status == Ok || status == BadRequest || status == Unauthorized
      ensures status == BadRequest <==> !TruthyText(oldPassword) || !TruthyText(newPassword)
      ensures status == Unauthorized <==>
        TruthyText(oldPassword) && TruthyText(newPassword) && oldPassword.value != old(admin.password)
      ensures status != Ok ==> unchanged(this)
      ensures status == Ok ==>
        && admin == old(admin).(password := newPassword.value)
        && services == old(services) && appointments == old(appointments) && business == old(business)
      ensures old(Valid()) ==> Valid()
    {
      if !TruthyText(oldPassword) || !TruthyText(newPassword) {
        return BadRequest;
      }
      if admin.password != oldPassword.value {
        return Unauthorized;
      }
      admin := admin.(password := newPassword.value);
      return Ok;
    }
  }
}
