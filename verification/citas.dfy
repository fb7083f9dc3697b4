/** The appointment handlers: `GET/POST /api/citas` and
    `GET/PUT/DELETE /api/citas/<id>`. Reads attach the pet's name and the
    owner's names through two left joins; the listing runs from the latest
    date and time to the earliest. */
module Citas {

  import opened Wrappers
  import opened Values
  import opened Replies
  import opened Requests
  import opened Tables
  import opened Schema

  /** Checked in this order by a create. */
  const Required: seq<string> := ["mascota_id", "fecha", "hora", "motivo"]
  /** Recognised by an update, in the order of its SET list; the pet
      (`mascota_id`) is not among them. */
  const Columns: seq<string> := ["fecha", "hora", "motivo", "estado"]
  /** The status a new appointment gets when the request names none. */
  const DefaultEstado: Value := Text("Programada")

  const NotFoundMessage: string := "Cita no encontrada"
  const CreatedMessage: string := "Cita creada exitosamente"
  const UpdatedMessage: string := "Cita actualizada exitosamente"
  const DeletedMessage: string := "Cita eliminada exitosamente"

  /** `ci.*` plus `mascota_nombre`, `cliente_nombre` and `cliente_apellido`. */
  datatype CitaView = CitaView(id: nat, cita: Cita, mascotaNombre: Value, clienteNombre: Value, clienteApellido: Value)

  /** `FROM citas ci LEFT JOIN mascotas m ON ci.mascota_id = m.id
      LEFT JOIN clientes c ON m.cliente_id = c.id`, for one appointment. */
  function View(db: Store, id: nat): CitaView
    requires id in db.citas.rows
  {
    var ci := db.citas.rows[id];
    match Lookup(db.mascotas, ci.mascotaId)
    case None => CitaView(id, ci, Null, Null, Null)
    case Some(m) =>
      match Lookup(db.clientes, m.clienteId)
      case Some(c) => CitaView(id, ci, m.nombre, c.nombre, c.apellido)
      case None => CitaView(id, ci, m.nombre, Null, Null)
  }

  /** What a joined appointment row must be: the stored appointment, the pet's
      name when `mascota_id` matches a pet, the owner's names when that pet's
      `cliente_id` matches a client, and nulls where a match is missing. */
  predicate LeftJoined(db: Store, v: CitaView)
  {
    && v.id in db.citas.rows
    && v.cita == db.citas.rows[v.id]
    && var pet := AsId(v.cita.mascotaId);
       if pet.Some? && pet.value in db.mascotas.rows then
         var m := db.mascotas.rows[pet.value];
         && v.mascotaNombre == m.nombre
         && var owner := AsId(m.clienteId);
            if owner.Some? && owner.value in db.clientes.rows then
              v.clienteNombre == db.clientes.rows[owner.value].nombre
              && v.clienteApellido == db.clientes.rows[owner.value].apellido
            else
              v.clienteNombre == Null && v.clienteApellido == Null
       else
         v.mascotaNombre == Null && v.clienteNombre == Null && v.clienteApellido == Null
  }

  /** The join yields, for each appointment, exactly the one row `LeftJoined` describes. */
  lemma ViewIsLeftJoin(db: Store, v: CitaView)
    ensures LeftJoined(db, v) <==> v.id in db.citas.rows && v == View(db, v.id)
  {
  }

  // ---------------------------------------------------------------------------
  // ORDER BY ci.fecha DESC, ci.hora DESC

  /** `x` may be listed before `y`: its (fecha, hora) is not earlier. */
  predicate LaterOrSame(x: CitaView, y: CitaView)
  {
    Lt(y.cita.fecha, x.cita.fecha) || (y.cita.fecha == x.cita.fecha && Le(y.cita.hora, x.cita.hora))
  }

  predicate Descending(s: seq<CitaView>)
  {
    forall i, j :: 0 <= i < j < |s| ==> LaterOrSame(s[i], s[j])
  }

  lemma LaterOrSameTotal(x: CitaView, y: CitaView)
    ensures LaterOrSame(x, y) || LaterOrSame(y, x)
  {
    LeTotal(x.cita.fecha, y.cita.fecha);
    LeTotal(x.cita.hora, y.cita.hora);
  }

  lemma LaterOrSameTransitive(x: CitaView, y: CitaView, z: CitaView)
    requires LaterOrSame(x, y) && LaterOrSame(y, z)
    ensures LaterOrSame(x, z)
  {
    var fx, fy, fz := x.cita.fecha, y.cita.fecha, z.cita.fecha;
    if fx == fy && fy == fz {
      LeTransitive(z.cita.hora, y.cita.hora, x.cita.hora);
    } else if fx == fy {
      assert Lt(fz, fy);
    } else if fy == fz {
      assert Lt(fy, fx);
    } else {
      LtLeTransitive(fz, fy, fx);
    }
  }

  /** `v` inserted into a descending list ahead of the first entry it is
      not earlier than. */
  function InsertByDate(s: seq<CitaView>, v: CitaView): seq<CitaView>
    decreases |s|
  {
    if |s| == 0 then [v]
    else if LaterOrSame(v, s[0]) then [v] + s
    else [s[0]] + InsertByDate(s[1..], v)
  }

  lemma {:induction false} InsertByDateSorted(s: seq<CitaView>, v: CitaView)
    requires Descending(s)
    ensures Descending(InsertByDate(s, v))
    ensures multiset(InsertByDate(s, v)) == multiset(s) + multiset{v}
    decreases |s|
  {
    if |s| == 0 {
    } else if LaterOrSame(v, s[0]) {
      var r := [v] + s;
      forall i, j | 0 <= i < j < |r|
        ensures LaterOrSame(r[i], r[j])
      {
        if i == 0 && j > 1 {
          LaterOrSameTransitive(v, s[0], s[j - 1]);
        }
      }
    } else {
      LaterOrSameTotal(v, s[0]);
      var rest := InsertByDate(s[1..], v);
      InsertByDateSorted(s[1..], v);
      assert s == [s[0]] + s[1..];
      var r := [s[0]] + rest;
      forall i, j | 0 <= i < j < |r|
        ensures LaterOrSame(r[i], r[j])
      {
        if i == 0 {
          assert r[j] in multiset(rest);
          if r[j] != v {
            assert r[j] in multiset(s[1..]);
            var k :| 0 <= k < |s[1..]| && s[1..][k] == r[j];
            assert LaterOrSame(s[0], s[k + 1]);
          }
        }
      }
    }
  }

  /** Insertion sort of the joined rows into `ORDER BY fecha DESC, hora DESC`. */
  method SortByDate(views: seq<CitaView>) returns (sorted: seq<CitaView>)
    ensures Descending(sorted)
    ensures multiset(sorted) == multiset(views)
  {
    sorted := [];
    var i := 0;
    while i < |views|
      invariant 0 <= i <= |views|
      invariant Descending(sorted)
      invariant multiset(sorted) == multiset(views[..i])
    {
      InsertByDateSorted(sorted, views[i]);
      sorted := InsertByDate(sorted, views[i]);
      assert views[..i + 1] == views[..i] + [views[i]];
      i := i + 1;
    }
    assert views[..|views|] == views;
  }

  // ---------------------------------------------------------------------------

  /** The INSERT's column values: `estado` defaults to 'Programada'. */
  function NewRow(body: Body): Cita
    requires Present(body, Required)
  {
    Cita(body["mascota_id"], body["fecha"], body["hora"], body["motivo"], GetOr(body, "estado", DefaultEstado))
  }

  /** The effect of a SET clause on one row: assigned columns take their new
      values, the others keep theirs. */
  function Patch(ci: Cita, assignments: map<string, Value>): Cita
  {
    Cita(
      GetOr(assignments, "mascota_id", ci.mascotaId),
      GetOr(assignments, "fecha", ci.fecha),
      GetOr(assignments, "hora", ci.hora),
      GetOr(assignments, "motivo", ci.motivo),
      GetOr(assignments, "estado", ci.estado))
  }

  /** Applying the update's SET list to a row replaces exactly the recognised
      columns the body supplies; the pet never changes. */
  lemma PatchBySetList(ci: Cita, body: Body, id: nat)
    ensures Patch(ci, BuildUpdate(Columns, body, id).Assignments()) == Cita(
      ci.mascotaId,
      GetOr(body, "fecha", ci.fecha),
      GetOr(body, "hora", ci.hora),
      GetOr(body, "motivo", ci.motivo),
      GetOr(body, "estado", ci.estado))
  {
    var a := BuildUpdate(Columns, body, id).Assignments();
    assert a == Restrict(body, Columns);
    RestrictGet(body, Columns, "fecha", ci.fecha);
    RestrictGet(body, Columns, "hora", ci.hora);
    RestrictGet(body, Columns, "motivo", ci.motivo);
    RestrictGet(body, Columns, "estado", ci.estado);
    assert "mascota_id" !in a;
  }

  /** `GET /api/citas`: every appointment, joined with its pet and owner,
      latest (fecha, hora) first. Appointments with equal date and time may
      come in either order. */
  method List(env: Env, db: Store) returns (r: Reply<seq<CitaView>>)
    ensures !env.connects ==> r == ConnectionFailed()
    ensures env.connects && env.fault.Some? ==> r == Raised(env.fault.value)
    ensures env.Healthy() ==> r.Ok?
    ensures r.Ok? ==> |r.body| == |db.citas.rows|
    ensures r.Ok? ==> Descending(r.body)
    ensures r.Ok? ==> forall v :: v in r.body <==> LeftJoined(db, v)
  {
    if !env.connects {
      return ConnectionFailed();
    }
    if env.fault.Some? {
      return Raised(env.fault.value);
    }
    var ids := AscendingIds(db.citas.rows.Keys);
    var views := seq(|ids|, i requires 0 <= i < |ids| => View(db, ids[i]));
    var sorted := SortByDate(views);
    assert |sorted| == |multiset(sorted)| == |multiset(views)| == |views|;
    forall v: CitaView
      ensures v in sorted <==> LeftJoined(db, v)
    {
      ViewIsLeftJoin(db, v);
      assert v in sorted <==> v in multiset(views);
      if LeftJoined(db, v) {
        var i :| 0 <= i < |ids| && ids[i] == v.id;
        assert views[i] == v;
      }
    }
    return Ok(sorted);
  }

  /** `GET /api/citas/<id>`. */
  function Get(env: Env, db: Store, id: nat): (r: Reply<CitaView>)
    ensures !env.connects ==> r == ConnectionFailed()
    ensures env.connects && env.fault.Some? ==> r == Raised(env.fault.value)
    ensures env.Healthy() && id in db.citas.rows ==> r.Ok? && r.body.id == id && LeftJoined(db, r.body)
    ensures env.Healthy() && id !in db.citas.rows ==> r == NotFound(NotFoundMessage)
  {
    if !env.connects then ConnectionFailed()
    else if env.fault.Some? then Raised(env.fault.value)
    else if Lookup(db.citas, Num(id)).Some? then Ok(View(db, id))
    else NotFound(NotFoundMessage)
  }

  /** `POST /api/citas`. The required fields are checked before the
      connection is opened; the pet's existence is not checked here. */
  function Create(env: Env, db: Store, body: Body): (r: Outcome)
    ensures forall i :: 0 <= i < |Required| && Required[i] !in body && (forall j :: 0 <= j < i ==> Required[j] in body) ==>
                r == Outcome(MissingField(Required[i]), db)
    ensures Present(body, Required) && !env.connects ==> r == Outcome(ConnectionFailed(), db)
    ensures Present(body, Required) && env.connects && env.fault.Some? ==> r == Outcome(Raised(env.fault.value), db)
    ensures Present(body, Required) && env.Healthy() ==>
      && r.reply.Created? && r.reply.message == CreatedMessage
      && r.reply.id !in db.citas.rows
      && r.db.citas.rows == db.citas.rows[r.reply.id :=
           Cita(body["mascota_id"], body["fecha"], body["hora"], body["motivo"], GetOr(body, "estado", DefaultEstado))]
      && r.db.clientes == db.clientes && r.db.mascotas == db.mascotas
    ensures Valid(db) ==> Valid(r.db)
    ensures Valid(db) && r.reply.Created? ==> r.reply.id == db.citas.next
  {
    var missing := FirstMissing(Required, body);
    if missing < |Required| then Outcome(MissingField(Required[missing]), db)
    else if !env.connects then Outcome(ConnectionFailed(), db)
    else if env.fault.Some? then Outcome(Raised(env.fault.value), db)
    else
      var (id, t) := Insert(db.citas, NewRow(body));
      Outcome(Created(CreatedMessage, id), db.(citas := t))
  }

  /** `PUT /api/citas/<id>`. The connection is opened before the body is
      examined; keys other than the recognised columns are ignored. */
  function Update(env: Env, db: Store, id: nat, body: Body): (r: Outcome)
    ensures !env.connects ==> r == Outcome(ConnectionFailed(), db)
    ensures env.connects && !Supplies(body, Columns) ==> r == Outcome(NothingToUpdate(), db)
    ensures env.connects && Supplies(body, Columns) && env.fault.Some? ==> r == Outcome(Raised(env.fault.value), db)
    ensures env.Healthy() && Supplies(body, Columns) && id !in db.citas.rows ==> r == Outcome(NotFound(NotFoundMessage), db)
    ensures env.Healthy() && Supplies(body, Columns) && id in db.citas.rows ==>
      var prev := db.citas.rows[id];
      r == Outcome(Done(UpdatedMessage), db.(citas := db.citas.(rows := db.citas.rows[id := Cita(
        prev.mascotaId,
        GetOr(body, "fecha", prev.fecha),
        GetOr(body, "hora", prev.hora),
        GetOr(body, "motivo", prev.motivo),
        GetOr(body, "estado", prev.estado))])))
    ensures Valid(db) ==> Valid(r.db)
  {
    if !env.connects then Outcome(ConnectionFailed(), db)
    else
      var q := BuildUpdate(Columns, body, id);
      EmptySetList(Columns, body, id);
      if |q.fields| == 0 then Outcome(NothingToUpdate(), db)
      else if env.fault.Some? then Outcome(Raised(env.fault.value), db)
      else
        var (count, t) := UpdateWhere(db.citas, q.Key(), (ci: Cita) => Patch(ci, q.Assignments()));
        if count > 0 then
          PatchBySetList(db.citas.rows[id], body, id);
          Outcome(Done(UpdatedMessage), db.(citas := t))
        else Outcome(NotFound(NotFoundMessage), db)
  }

  /** `DELETE /api/citas/<id>`. */
  function Delete(env: Env, db: Store, id: nat): (r: Outcome)
    ensures !env.connects ==> r == Outcome(ConnectionFailed(), db)
    ensures env.connects && env.fault.Some? ==> r == Outcome(Raised(env.fault.value), db)
    ensures env.Healthy() && id !in db.citas.rows ==> r == Outcome(NotFound(NotFoundMessage), db)
    ensures env.Healthy() && id in db.citas.rows ==>
      && r.reply == Done(DeletedMessage)
      && r.db.citas.rows == db.citas.rows - {id}
      && r.db.citas.next == db.citas.next
      && r.db.clientes == db.clientes && r.db.mascotas == db.mascotas
    ensures Valid(db) ==> Valid(r.db)
  {
    if !env.connects then Outcome(ConnectionFailed(), db)
    else if env.fault.Some? then Outcome(Raised(env.fault.value), db)
    else
      var (count, t) := DeleteWhere(db.citas, id);
      if count > 0 then Outcome(Done(DeletedMessage), db.(citas := t))
      else Outcome(NotFound(NotFoundMessage), db)
  }

  // ---------------------------------------------------------------------------
  // Properties relating the handlers

  /** A created appointment reads back with the submitted fields and the
      default status. */
  lemma CreateThenGet(env: Env, db: Store, body: Body)
    requires env.Healthy() && Present(body, Required)
    ensures var r := Create(env, db, body);
      && r.reply.Status() == 201
      && var g := Get(env, r.db, r.reply.id);
         g.Ok? && g.body.id == r.reply.id &&
         g.body.cita == Cita(body["mascota_id"], body["fecha"], body["hora"], body["motivo"], GetOr(body, "estado", DefaultEstado))
  {
  }

  /** A deleted appointment is no longer found, by a read, an update or a
      second delete. */
  lemma DeleteThenGet(env: Env, db: Store, id: nat, body: Body)
    requires env.Healthy() && id in db.citas.rows
    ensures var after := Delete(env, db, id).db;
      && Get(env, after, id) == NotFound(NotFoundMessage)
      && (Supplies(body, Columns) ==> Update(env, after, id, body) == Outcome(NotFound(NotFoundMessage), after))
      && Delete(env, after, id) == Outcome(NotFound(NotFoundMessage), after)
  {
  }

  /** Keys outside the recognised columns make no difference to an update. */
  lemma UpdateIgnoresUnrecognisedKeys(env: Env, db: Store, id: nat, body: Body)
    ensures Update(env, db, id, body) == Update(env, db, id, Restrict(body, Columns))
  {
    var body' := Restrict(body, Columns);
    if Supplies(body, Columns) {
      var c :| c in Columns && c in body;
      assert c in body';
    }
    if Supplies(body', Columns) {
      var c :| c in Columns && c in body';
      assert c in body;
    }
    var r, r' := Update(env, db, id, body), Update(env, db, id, body');
    if !env.connects {
      assert r == Outcome(ConnectionFailed(), db) == r';
    } else if !Supplies(body, Columns) {
      assert r == Outcome(NothingToUpdate(), db) == r';
    } else if env.fault.Some? {
      assert r == Outcome(Raised(env.fault.value), db) == r';
    } else if id !in db.citas.rows {
      assert r == Outcome(NotFound(NotFoundMessage), db) == r';
    } else {
      var prev := db.citas.rows[id];
      RestrictGet(body, Columns, "fecha", prev.fecha);
      RestrictGet(body, Columns, "hora", prev.hora);
      RestrictGet(body, Columns, "motivo", prev.motivo);
      RestrictGet(body, Columns, "estado", prev.estado);
      var updated := Cita(prev.mascotaId, GetOr(body, "fecha", prev.fecha), GetOr(body, "hora", prev.hora), GetOr(body, "motivo", prev.motivo), GetOr(body, "estado", prev.estado));
      assert r == Outcome(Done(UpdatedMessage), db.(citas := db.citas.(rows := db.citas.rows[id := updated])));
      assert r' == Outcome(Done(UpdatedMessage), db.(citas := db.citas.(rows := db.citas.rows[id := updated])));
    }
  }

  /** An update with an empty body is refused once connected, and the
      appointment is unchanged. */
  lemma EmptyUpdate(env: Env, db: Store, id: nat)
    requires env.connects
    ensures Update(env, db, id, map[]) == Outcome(Failed(400, "No hay campos para actualizar"), db)
  {
  }

  /** No update moves an appointment to another pet. */
  lemma UpdateKeepsPet(env: Env, db: Store, id: nat, body: Body, k: nat)
    requires k in db.citas.rows
    ensures var after := Update(env, db, id, body).db;
      k in after.citas.rows && after.citas.rows[k].mascotaId == db.citas.rows[k].mascotaId
  {
  }
}
