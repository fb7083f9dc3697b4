# Veterinary clinic API: request-handling model

This project models the request handlers of the clinic's Flask backend
(`backend/app.py`). The handlers serve create/read/update/delete over three
PostgreSQL tables: clients (`clientes`), pets (`mascotas`) and appointments
(`citas`). Each handler takes the request (a JSON body and/or a row id), the
environment, and the store. Create, Update and Delete are pure functions that
return the reply together with the store after the request. Get is a pure
function and List a method (it sorts); both return the reply alone, since
reads leave the store unchanged.

- `Values`: JSON values. They are opaque except for three uses. Presence of a
  key in a body counts. An id is compared for equality. Appointment dates and
  times are ordered (`Le`, a total order in which NULL sorts highest, as in
  PostgreSQL).
- `Replies`: the replies and their statuses: resource 200, creation 201 with
  the new id, message 200, or `{"error": ...}` with 400/404/500. It also holds
  the error texts the source uses. `Env` stands for everything outside the
  handler: whether the connection opens, and whether the SQL statement raises
  (with the exception's text).
- `Requests`: the required-field loop of the creates (`FirstMissing`). Also the
  dynamic `UPDATE ... SET` builder of the updates (`SetList`, `BuildUpdate`),
  with the id appended as the last parameter.
- `Tables`: a table is a map from id to row plus the id sequence's next value.
  This module holds INSERT ... RETURNING id, UPDATE/DELETE/SELECT ... WHERE
  id = %s with their row counts, and `ORDER BY id`.
- `Schema`: the row datatypes `Cliente`, `Mascota`, `Cita` and the `Store`.
- `Clientes`, `Mascotas`, `Citas`: the five handlers of each resource, and the
  properties that relate them.

Choices where the source leaves room:

- A new id is the sequence's next value, skipping ids already taken.
  - On a store where every id lies below the sequence (`Valid`, which every
    handler preserves), the new id is exactly the sequence's next value.
  - Contracts otherwise promise only that the id is fresh.
- An UPDATE's SET list is applied with SQL's simultaneous-assignment
  semantics (`Patch`).
- Date and time values are compared as their ISO text. For fixed-width ISO
  dates and times this order is chronological. Appointments with equal date
  and time may be listed in either order, as in SQL.
- Checks and defaults are taken from the handlers themselves:
  - an appointment requires `hora` as well as `mascota_id`, `fecha` and
    `motivo` (backend/app.py:447);
  - clients are listed by ascending id (backend/app.py:75);
  - pet and appointment reads use LEFT JOIN, so a missing owner or pet
    shows as null names (backend/app.py:233, 257, 398-399, 424-425);
  - every resource has a DELETE route (backend/app.py:194, 358, 523);
  - an appointment's `estado` defaults to 'Programada' (backend/app.py:461);
  - appointments keep `fecha` and `hora` in separate columns
    (backend/app.py:458).

## Model

| member | source | states |
|---|---|---|
| Requests.FirstMissing | backend/app.py:114-117 | The result is the position of the first required field, in declared order, whose key is absent from the body. Every field before it is present. The result is the list's length when all are present. Only presence is tested. |
| Requests.SetList | backend/app.py:154-171 | The SET columns are exactly the listed columns the body holds, in the listed order. There is one value per column, and each value is the body's value for that column. |
| Requests.BuildUpdate | backend/app.py:153-177 | The parameter list is one longer than the SET list, and its last parameter is the id. Executing the SET clause assigns exactly the recognised columns the body supplies. |
| Requests.SetListAssigns | backend/app.py:154-180 | The assignments the SET list makes equal the body restricted to the recognised columns. |
| Requests.EmptySetList | backend/app.py:173-174 | The SET list is empty exactly when the body holds none of the recognised columns. |
| Tables.FreshId | backend/app.py:124-130 | The id handed to a new row belongs to no existing row and is not below the sequence's next value. |
| Tables.Insert | backend/app.py:124-131 | INSERT adds exactly one row under a fresh id and keeps every other row. On a well-numbered table the id is the sequence's next value, and the table stays well-numbered. |
| Tables.UpdateWhere | backend/app.py:177-181 | The row count is 1 exactly when the WHERE parameter denotes an existing id. Then only that row is rewritten; otherwise the table is unchanged. |
| Tables.DeleteWhere | backend/app.py:203-204 | The row count is 1 exactly when the id exists. Only that row is removed, and the sequence is untouched. |
| Tables.Lookup | backend/app.py:94-95 | SELECT ... WHERE id finds a row exactly when the parameter denotes an existing id, and returns that row. |
| Tables.DeletedIdNotReused | backend/app.py:124-130 | On a well-numbered table, after a delete the next create never hands out the deleted id again. |
| Tables.AscendingIds | backend/app.py:75 | The ids come out strictly ascending, each key exactly once. |
| Clientes.List | backend/app.py:66-82 | A connection failure or a raising query gives 500. Otherwise every client appears exactly once with its stored row, in strictly ascending id order. |
| Clientes.Get | backend/app.py:85-104 | The reply is 200 with the stored row when the id exists and 404 'Cliente no encontrado' when it does not. A connection failure or raising query gives 500. |
| Clientes.Create | backend/app.py:107-140 | The first absent required field (nombre, apellido, telefono, email) gives 400 naming it, before any connection, and the store is unchanged. Otherwise a connection failure or raising insert gives 500 with the store unchanged. Otherwise the reply is 201 with a fresh id and exactly one new row: the four fields as given, direccion defaulting to ''. Other tables are untouched. |
| Clientes.Update | backend/app.py:143-191 | A connection failure gives 500 for any body. A body with no recognised column gives 400, store unchanged. A raising UPDATE gives 500, store unchanged. An absent id gives 404, store unchanged. When connected and the statement does not raise, a present id gives 200, only that row changes, and only in the columns supplied. |
| Clientes.Delete | backend/app.py:194-214 | A connection failure or a raising DELETE gives 500 with the store unchanged. When connected and the statement does not raise, a present id gives 200 and exactly that row is removed, the sequence and the client's pets staying; an absent id gives 404 with the store unchanged. |
| Clientes.PatchBySetList | backend/app.py:153-182 | Running the built SET list on a row replaces exactly the columns the body supplies. |
| Clientes.CreateThenGet | backend/app.py:124-138 | A successful create is followed by a read of the returned id that gives back the submitted fields and the supplied or default direccion. |
| Clientes.UpdateThenGet | backend/app.py:176-187 | After a successful update, a read returns the old row with the supplied columns replaced. |
| Clientes.DeleteThenGet | backend/app.py:203-212 | When connected and no statement raises, after a delete a read, a second delete and an update that supplies a recognised column all give 404 for that id. |
| Clientes.UpdateIgnoresUnrecognisedKeys | backend/app.py:157-171 | Keys other than the five columns make no difference to an update's reply or effect. |
| Clientes.CheckOrder | backend/app.py:113-151 | With the database down and an empty body, create answers 400 for 'nombre' and update answers 500. Create validates first; update connects first. |
| Clientes.NullFieldsPass | backend/app.py:114-117 | Validation tests presence only: for any body whose required keys are all present, each bound to null or '' (other keys free), create never answers 400. When connected and the insert does not raise, it creates the row with those values stored as given. |
| Mascotas.ViewIsLeftJoin | backend/app.py:254-259 | The joined row is the stored pet plus the owner's nombre and apellido when cliente_id matches a client. Both names are null otherwise. |
| Mascotas.List | backend/app.py:221-242 | Every pet appears exactly once, left-joined with its owner, in strictly ascending id order. A connection failure or raising query gives 500. |
| Mascotas.Get | backend/app.py:245-269 | The reply is 200 with the left-joined row when the id exists, 404 'Mascota no encontrada' otherwise, and 500 on connection failure or fault. |
| Mascotas.Create | backend/app.py:272-305 | The first absent field of nombre, especie, cliente_id gives 400 naming it, before connecting. Otherwise a connection failure or raising insert gives 500 with the store unchanged. When connected and the insert does not raise, the reply is 201 with a fresh id and exactly one new row: raza defaults to '', edad and peso to null. The owner's existence is not checked. |
| Mascotas.Update | backend/app.py:308-355 | Connection failure gives 500 for any body. No recognised column gives 400. A raising UPDATE gives 500, store unchanged. An absent id gives 404. When connected and the statement does not raise, a present id gives 200 and only nombre, especie, raza, edad, peso of that row change, as supplied; cliente_id stays. |
| Mascotas.Delete | backend/app.py:358-378 | A connection failure or a raising DELETE gives 500 with the store unchanged. When connected and the statement does not raise, a present id gives 200 and exactly that row is removed, its appointments staying; an absent id gives 404 with the store unchanged. |
| Mascotas.PatchBySetList | backend/app.py:318-341 | Running the built SET list replaces exactly the supplied recognised columns and never cliente_id. |
| Mascotas.CreateThenGet | backend/app.py:289-303 | A created pet reads back under the returned id with the submitted fields and the supplied or default raza, edad and peso. |
| Mascotas.DeleteThenGet | backend/app.py:367-376 | When connected and no statement raises, after a delete a read, a second delete and an update that supplies a recognised column all give 404 for that id. |
| Mascotas.UpdateIgnoresUnrecognisedKeys | backend/app.py:321-335 | Keys other than the five recognised columns make no difference to an update. |
| Mascotas.OwnerAloneIsEmpty | backend/app.py:318-338 | Once connected, a body holding only cliente_id is an empty update: 400 and nothing changes. |
| Mascotas.UpdateKeepsOwner | backend/app.py:321-341 | No update removes a pet or changes its cliente_id. |
| Mascotas.OrphanStillShown | backend/app.py:254-265 | When connected and no statement raises, after the owner is deleted the pet is still read with 200 and null owner names. |
| Mascotas.MissingEspecie | backend/app.py:279-282 | For any environment, a pet body with nombre but no especie gives 400 'Campo requerido: especie' and no change, whatever the body holds for cliente_id: the check stops at especie. |
| Citas.ViewIsLeftJoin | backend/app.py:394-399 | The joined row is the stored appointment plus three display fields. mascota_nombre comes from the matching pet. The owner's names come from that pet's matching client. Each is null when its match is missing. |
| Citas.InsertByDateSorted | backend/app.py:400 | Inserting into a list ordered by (fecha, hora) descending keeps it ordered and adds exactly that element. |
| Citas.SortByDate | backend/app.py:400 | The output is a permutation of the input, ordered by fecha descending, then hora descending. |
| Citas.List | backend/app.py:385-408 | Every appointment appears exactly once, joined with its pet and owner, latest (fecha, hora) first. A connection failure or raising query gives 500. |
| Citas.Get | backend/app.py:411-437 | The reply is 200 with the joined row when the id exists, 404 'Cita no encontrada' otherwise, and 500 on connection failure or fault. |
| Citas.Create | backend/app.py:440-473 | The first absent field of mascota_id, fecha, hora, motivo gives 400 naming it, before connecting. Otherwise a connection failure or raising insert gives 500 with the store unchanged. When connected and the insert does not raise, the reply is 201 with a fresh id and exactly one new row, estado defaulting to 'Programada'. The pet's existence is not checked. |
| Citas.Update | backend/app.py:476-520 | Connection failure gives 500 for any body. No recognised column gives 400. A raising UPDATE gives 500, store unchanged. An absent id gives 404. When connected and the statement does not raise, a present id gives 200 and only fecha, hora, motivo, estado of that row change, as supplied; mascota_id stays. |
| Citas.Delete | backend/app.py:523-543 | A connection failure or a raising DELETE gives 500 with the store unchanged. When connected and the statement does not raise, a present id gives 200 and exactly that row is removed; an absent id gives 404 with the store unchanged. |
| Citas.PatchBySetList | backend/app.py:486-506 | Running the built SET list replaces exactly the supplied recognised columns and never mascota_id. |
| Citas.CreateThenGet | backend/app.py:457-471 | A created appointment reads back under the returned id with the submitted fields and the supplied or default estado. |
| Citas.DeleteThenGet | backend/app.py:532-541 | When connected and no statement raises, after a delete a read, a second delete and an update that supplies a recognised column all give 404 for that id. |
| Citas.UpdateIgnoresUnrecognisedKeys | backend/app.py:489-500 | Keys other than the four recognised columns make no difference to an update. |
| Citas.UpdateKeepsPet | backend/app.py:486-506 | No update removes an appointment or changes its mascota_id. |
| Citas.EmptyUpdate | backend/app.py:502-503 | Once connected, an empty body gives 400 'No hay campos para actualizar' and no change. |

## Left out

- The health check (backend/app.py:39-59) only probes the connection. It is framework plumbing.
- Connection setup and the `DB_CONFIG` environment reads (backend/app.py:16-32) are external I/O. Their only effect, whether a connection opens, is the `Env.connects` input.
- Flask routing, CORS, `jsonify`, and the global 404/500 handlers (backend/app.py:550-557) are framework code. The model does not cover them.
- Bodies that are not JSON objects, or are missing, are not modelled. `request.get_json()` and the `in` test behave differently on them.
- Database-side behaviour is not modelled: type coercion, NOT NULL, foreign-key and cascade rules. The schema is not part of this model. A statement that raises is the abstract `Env.fault`, answered with 500 and no change.
- A failed INSERT still consumes a sequence value in PostgreSQL. The model leaves the sequence untouched.
- Exception texts are opaque strings supplied by `Env.fault`.
- Tables.FreshId: a new id skips ids already taken. PostgreSQL's `nextval` does not skip: when the sequence lags behind the ids in its table, the INSERT fails on the duplicate key and the handler answers 500. The two agree on every `Valid` store, and every handler preserves `Valid`.
- Citas.SortByDate: dates and times are compared as text, which matches a DATE/TIME column only for fixed-width ISO text. Other spellings are ordered differently: "2024-1-5" sorts after "2024-01-10", and "10:30" and "10:30:00" are not a tie.
- Concurrent requests are not modelled; each request is one step on the store.
- The relative order of values of different JSON kinds is fixed arbitrarily, because a typed column never mixes kinds.
- The React frontend and the smoke tests make no claims about handler behaviour.
