# Clica room-rental server: the dataset and its route handlers

This project models the booking backend in `clica-server/index.js`. The backend keeps one
dataset with four parts: the services that can be booked, the appointments, the business
profile and the single admin account. Every mutating request reads the whole dataset,
checks the request, changes its in-memory copy and writes the dataset back only when the
request succeeds.

The model is a `Store` class (`store.dfy`, module `ClicaServer`). Its four fields are the
persisted dataset: `services`, `appointments`, `business` and `admin`. Each POST, PUT and
DELETE handler is a method with `modifies this`. Like the source, it works on a local
copy and assigns the fields only at the point where the source calls `writeData`, so
every failing request leaves the store unchanged. The GET handlers and `login` only read,
so they are functions. The constructor is the seed document that is written when no
dataset exists.

Request bodies are untyped JavaScript values. A field that is absent, `undefined` or
`null` is `None`; the rest is `Some(v)`. The code tests fields in two ways, and the model
keeps them apart:
- create and replace paths test truthiness (`TruthyText`, `TruthyNumber`, `TruthyScalar`
  in `js_values.dfy`), so `""` and `0` are rejected;
- update paths test `!= null`, which is `Some?`, so `""` and `0` are stored.

The cost is given by what `Number(...)` makes of it: `Finite(n)` or `NaN`.

Supporting modules:
- `collections.dfy` (`Collections`) holds the generic lookups the handlers use: `map` of
  ids, `Math.max`, `findIndex`, `filter`, and the pairwise invariants.
- `records.dfy` (`Records`) holds the records, the name and slot lookups, and the
  invariant `Valid()` is made of. `Valid()` says that ids are positive and pairwise
  distinct in both collections, that appointment slots (`dateTime`) are pairwise
  distinct, and that non-empty service names are pairwise distinct.
- `scenarios.dfy` (`Scenarios`) holds request sequences from the seed state, and client
  methods that relate several handlers.

Every handler ensures `old(Valid()) ==> Valid()`; the constructor establishes `Valid()`.

Three consequences of the code are worth stating:
- Service names are unique only when non-empty. The duplicate check in the update handler
  (`clica-server/index.js:103`) tests truthiness, while the assignment (`:107`) tests
  `!= null`, so `""` is stored without a check. `Scenarios.EmptyNamesMayRepeat` shows two
  services named `""`.
- No handler checks the sign of a cost, and an update may set a cost of 0.
- A new id is one more than the largest id still in use (`:84`, `:158`), not than every
  id ever handed out. After the record just created is deleted, the next create hands out
  the same id again (`Collections.NextIdReusedAfterDelete`). In general the next id is one
  more than the largest remaining id, so an id that was handed out before can be handed
  out again. New ids are strictly greater than the ids in use only.

## Model

| member | source | states |
|---|---|---|
| `Collections.Ids` | clica-server/index.js:84 | `.map(s => s.id)` (and `.map(a => a.id)` at :158) gives one id per record, in order |
| `Collections.Max` | clica-server/index.js:84 | `Math.max` of a non-empty id list returns one of the ids, and it is at least every id |
| `Collections.NextId` | clica-server/index.js:84 | a new id is 1 for an empty collection, otherwise one more than an id in use, and it is greater than every id in use |
| `Collections.FindIndex` | clica-server/index.js:99 | `findIndex` returns -1 exactly when no record holds the id, otherwise the first position that holds it |
| `Collections.FindIndexSameIds` | clica-server/index.js:173 | two collections with the same ids position by position give the same `findIndex` result |
| `Collections.WithoutId` | clica-server/index.js:124-126 | `filter` keeps only records from the input that do not hold the id; the result is shorter exactly when some record held the id, and is the input itself otherwise |
| `Collections.WithoutIdKeepsOthers` | clica-server/index.js:124 | `filter` keeps every record that does not hold the id |
| `Collections.WithoutIdAppend` | clica-server/index.js:196 | filtering a concatenation gives the concatenation of the filtered parts, so kept records stay in order |
| `Collections.WithoutFreshAppended` | clica-server/index.js:84-86 | filtering out the id of a record appended with an id above all others gives back the earlier records |
| `Collections.NextIdReusedAfterDelete` | clica-server/index.js:84-86 | after deleting the record just appended with the next id, the next id handed out is the same one again |
| `Collections.WithoutIdRemovesOnly` | clica-server/index.js:124-128 | when exactly one record holds the id, the filter removes that record and keeps the rest in order |
| `Collections.WithoutIdKeepsPairwise` | clica-server/index.js:196 | filtering keeps every pairwise invariant of the collection |
| `Records.NextIdPositive` | clica-server/index.js:158 | while all ids in use are positive, the next id is positive |
| `Records.AddServiceKeepsValid` | clica-server/index.js:79-86 | appending a service with the next id and an unused non-empty name keeps ids positive and distinct and non-empty names unique |
| `Records.ReplaceServiceKeepsValid` | clica-server/index.js:102-113 | replacing the service at an index by one with the same id keeps the invariant when the new name is the old one, empty, or held by no service with another id |
| `Records.RemoveServiceKeepsValid` | clica-server/index.js:124 | deleting services keeps the service invariant |
| `Records.ServiceRemovedAlone` | clica-server/index.js:123-128 | with distinct ids, deleting an id in use removes exactly the service at its `findIndex` position |
| `Records.AddAppointmentKeepsValid` | clica-server/index.js:152-160 | appending an appointment with the next id and a free slot keeps ids positive and distinct and slots distinct |
| `Records.ReplaceAppointmentKeepsValid` | clica-server/index.js:176-185 | replacing the appointment at an index by one with the same id keeps the invariant when its slot is the old one or held by no appointment with another id |
| `Records.RemoveAppointmentKeepsValid` | clica-server/index.js:196 | deleting appointments keeps the appointment invariant |
| `Records.AppointmentRemovedAlone` | clica-server/index.js:195-200 | with distinct ids, deleting an id in use removes exactly the appointment at its `findIndex` position |
| `ClicaServer.Store.constructor` | clica-server/index.js:13-44 | the seed state holds services 1 and 2, no appointments, the seed profile and admin `admin`/`1234`, and satisfies the invariant |
| `ClicaServer.Store.ListServices` | clica-server/index.js:66-69 | GET /services returns the stored services in insertion order; in a valid store their ids are distinct and their non-empty names unique |
| `ClicaServer.Store.CreateService` | clica-server/index.js:72-89 | BadRequest with no change exactly when name, description or cost is not truthy (cost 0 included) or the name is in use; otherwise appends the service with the next id, keeps every earlier record and the other parts, returns the record, and keeps the invariant |
| `ClicaServer.Store.UpdateService` | clica-server/index.js:94-117 | NotFound with no change exactly for an unknown id; BadRequest with no change exactly when a truthy name is held by another id or the cost is `NaN`, dropping edits made before the cost check; otherwise overwrites exactly the non-null fields of the record at the `findIndex` position, keeps everything else, and keeps the invariant |
| `ClicaServer.Store.DeleteService` | clica-server/index.js:120-135 | NotFound with no change exactly when no service holds the id; otherwise the services become the filtered list, or in a valid store the old list without the one matching record; appointments are untouched |
| `ClicaServer.Store.ListAppointments` | clica-server/index.js:139-142 | GET /appointments returns the stored appointments in insertion order; in a valid store their ids and slots are distinct |
| `ClicaServer.Store.CreateAppointment` | clica-server/index.js:144-163 | BadRequest exactly when a field is not truthy, Conflict exactly when the fields are truthy and the slot is booked, with no change in both cases; otherwise appends the appointment with the next id and keeps the invariant |
| `ClicaServer.Store.UpdateAppointment` | clica-server/index.js:168-189 | NotFound for an unknown id and Conflict when a given dateTime is held by another id, both with no change; otherwise overwrites exactly the non-null fields of the record at the `findIndex` position and keeps slots distinct |
| `ClicaServer.Store.DeleteAppointment` | clica-server/index.js:192-204 | NotFound with no change exactly when no appointment holds the id; otherwise the appointments become the filtered list, or in a valid store the old list without the one matching record |
| `ClicaServer.Store.GetBusiness` | clica-server/index.js:208-211 | GET /businessData returns the stored profile |
| `ClicaServer.Store.ReplaceBusiness` | clica-server/index.js:213-222 | succeeds exactly when all four fields are truthy and then replaces the whole profile and nothing else; otherwise BadRequest with no change |
| `ClicaServer.Store.Login` | clica-server/index.js:225-234 | succeeds exactly when the name is not truthy or equals the username, and the password equals the stored one; on success it returns the username; being a function, it changes nothing |
| `ClicaServer.Store.ChangePassword` | clica-server/index.js:236-248 | BadRequest exactly when either password is not truthy, Unauthorized exactly when the old one does not match, with no change in both cases; otherwise only the admin password changes |
| `Scenarios.DuplicateServiceName` | clica-server/index.js:79-88 | from the seed, creating "Room B" gives id 3, and a second create with that name is BadRequest |
| `Scenarios.DoubleBookedSlot` | clica-server/index.js:152-162 | from the seed, the first appointment gets id 1, and a second one in the same slot is Conflict |
| `Scenarios.SeedLogin` | clica-server/index.js:229-233 | from the seed, password "1234" with no name logs in as `admin`, and "wrong" is refused |
| `Scenarios.PasswordChange` | clica-server/index.js:242-246 | after changing "1234" to "5678", the old password is refused and the new one logs in |
| `Scenarios.BadCostDiscardsRename` | clica-server/index.js:107-111 | an update that renames a service and gives a `NaN` cost is BadRequest, and the rename is not kept |
| `Scenarios.EmptyNamesMayRepeat` | clica-server/index.js:103-107 | two updates to the name `""` both succeed and leave two services with the same empty name |
| `Scenarios.DeleteUndoesCreateService` | clica-server/index.js:84-133 | in any store, deleting the service just created succeeds and restores services and appointments |
| `Scenarios.DeleteUndoesCreateAppointment` | clica-server/index.js:158-202 | in any store, deleting the appointment just created succeeds and restores services and appointments |
| `Scenarios.RepeatServiceUpdate` | clica-server/index.js:99-116 | repeating a successful service update succeeds and returns the same record; services stay as the first update left them, and appointments, profile and admin stay as they were |
| `Scenarios.RepeatAppointmentUpdate` | clica-server/index.js:173-188 | repeating a successful appointment update succeeds and returns the same record; appointments stay as the first update left them, and services, profile and admin stay as they were |

The contracts above are written in terms of these definitions (they carry no contract of
their own, so they have no row):
- `Records.NameTaken` is `services.find(s => s.name === name)` finding a record (`clica-server/index.js:80`).
- `Records.NameTakenByOther` is the `services.some(...)` test for a name held by another id (`:103`).
- `Records.SlotTaken` is `appointments.find(a => a.dateTime === dateTime)` finding a record (`:153`).
- `Records.SlotTakenByOther` is the `find` for a slot held by another id (`:178`).
- `JsValues.TruthyText`, `JsValues.TruthyNumber` and `JsValues.TruthyScalar` are the truthiness tests `!x` on request fields (`:74`, `:146`, `:215`, `:238`).
- `Records.ServicesApart`, `Records.AppointmentsApart`, `Records.ServicesValid`, `Records.AppointmentsValid` and `ClicaServer.Store.Valid` make up the invariant.

## Left out

- HTTP glue is left out: Express routing, CORS, JSON body parsing, `/health`, the port setting and `app.listen`. A missing body (`req.body || {}`) is a request whose fields are all `None`.
- Status codes are enum values. `Ok` stands for 200, 201 and 204. `BadRequest` is 400, both for missing fields and for a duplicate service name.
- Response bodies are kept only as the record returned by create, update and replace, and the username returned by login. The constant `role: 'admin'` and the `{ok: true}` wrappers are dropped.
- File I/O is left out: `fs.existsSync`, `readData`, `writeData` and JSON (de)serialisation. The store's fields are the dataset, so success means written and failure means unchanged. A failing or partial write, and a corrupt data file at startup, are not modelled.
- `ensureDataFile` runs once at startup. It is modelled as the `Store` constructor; the check for an existing file is I/O and is left out.
- JavaScript coercions are abstracted. A request cost is represented by its `Number(...)` reading, limited to integers and `NaN`. Fractional numbers are not modelled. Raw values that read as 0 yet are truthy (`"0"`, `" "`, `[]`) are treated like 0. A `NaN` reading is treated as truthy, because such a value is a non-empty non-numeric string or an object.
- A create with a non-numeric cost stores `NaN`, as the source does. When JSON writes the file it turns that `NaN` into `null`; this is not modelled.
- Path ids (`Number(req.params.id)`) are integers. A non-numeric path id reads as `NaN`, which equals no id, so it behaves like an id not in use: NotFound.
- Text fields are modelled as strings. A number or other JSON value sent where a string is expected, and `String(newPassword)` on a non-string, are not modelled.
- `Appointment.service` is an opaque `Scalar` (a number or a string) with no referential integrity.
- The commented-out cascade delete of appointments is not modelled: deleting a service never touches appointments.
- Concurrency is left out: lost updates between racing requests are outside the sequential contract.
- The plaintext password storage and comparison are kept as the source has them.
- Ids and costs are JavaScript numbers (doubles), so `Math.max(...) + 1` is exact only below 2^53. The model uses unbounded integers and does not capture rounding of very large ids.
- `Math.max(...ids)` spreads the whole id list into call arguments. For a very large collection the engine throws a `RangeError` there, the request fails with a 500 and nothing is written. Call-argument limits are not modelled: the model returns Ok.
