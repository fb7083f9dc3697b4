/** The pet handlers: `GET/POST /api/mascotas` and
    `GET/PUT/DELETE /api/mascotas/<id>`. Reads attach the owner's name
    through a left join, so a pet whose owner is missing is still shown. */
module Mascotas {

  import opened Wrappers
  import opened Values
  import opened Replies
  import opened Requests
  import opened Tables
  import opened Schema
  import Clientes

  /** Checked in this order by a create. */
  const Required: seq<string> := ["nombre", "especie", "cliente_id"]
  /** Recognised by an update, in the order of its SET list; the owner
      (`cliente_id`) is not among them. */
  const Columns: seq<string> := ["nombre", "especie", "raza", "edad", "peso"]

  const NotFoundMessage: string := "Mascota no encontrada"
  const CreatedMessage: string := "Mascota creada exitosamente"
  const UpdatedMessage: string := "Mascota actualizada exitosamente"
  const DeletedMessage: string := "Mascota eliminada exitosamente"

  /** `m.*` plus the owner's `cliente_nombre` and `cliente_apellido`. */
  datatype MascotaView = MascotaView(id: nat, mascota: Mascota, clienteNombre: Value, clienteApellido: Value)

  /** `FROM mascotas m LEFT JOIN clientes c ON m.cliente_id = c.id`, for the
      pet with this id. */
  function View(db: Store, id: nat): MascotaView
    requires id in db.mascotas.rows
  {
    var m := db.mascotas.rows[id];
    match Lookup(db.clientes, m.clienteId)
    case Some(c) => MascotaView(id, m, c.nombre, c.apellido)
    case None => MascotaView(id, m, Null, Null)
  }

  /** What a left-joined pet row must be: the stored pet, with the owner's
      names when its `cliente_id` matches a client and nulls otherwise. */
  predicate LeftJoined(db: Store, v: MascotaView)
  {
    && v.id in db.mascotas.rows
    && v.mascota == db.mascotas.rows[v.id]
    && var owner := AsId(v.mascota.clienteId);
       if owner.Some? && owner.value in db.clientes.rows then
         v.clienteNombre == db.clientes.rows[owner.value].nombre
         && v.clienteApellido == db.clientes.rows[owner.value].apellido
       else
         v.clienteNombre == Null && v.clienteApellido == Null
  }

  /** The join yields, for each pet, exactly the one row `LeftJoined` describes. */
  lemma ViewIsLeftJoin(db: Store, v: MascotaView)
    ensures LeftJoined(db, v) <==> v.id in db.mascotas.rows && v == View(db, v.id)
  {
  }

  /** The INSERT's column values: `raza` defaults to the empty string and
      `edad` and `peso` to null. */
  function NewRow(body: Body): Mascota
    requires Present(body, Required)
  {
    Mascota(body["nombre"], body["especie"], GetOr(body, "raza", Text("")),
      GetOr(body, "edad", Null), GetOr(body, "peso", Null), body["cliente_id"])
  }

  /** The effect of a SET clause on one row: assigned columns take their new
      values, the others keep theirs. */
  function Patch(m: Mascota, assignments: map<string, Value>): Mascota
  {
    Mascota(
      GetOr(assignments, "nombre", m.nombre),
      GetOr(assignments, "especie", m.especie),
      GetOr(assignments, "raza", m.raza),
      GetOr(assignments, "edad", m.edad),
      GetOr(assignments, "peso", m.peso),
      GetOr(assignments, "cliente_id", m.clienteId))
  }

  /** Applying the update's SET list to a row replaces exactly the recognised
      columns the body supplies; the owner never changes. */
  lemma PatchBySetList(m: Mascota, body: Body, id: nat)
    ensures Patch(m, BuildUpdate(Columns, body, id).Assignments()) == Mascota(
      GetOr(body, "nombre", m.nombre),
      GetOr(body, "especie", m.especie),
      GetOr(body, "raza", m.raza),
      GetOr(body, "edad", m.edad),
      GetOr(body, "peso", m.peso),
      m.clienteId)
  {
    var a := BuildUpdate(Columns, body, id).Assignments();
    assert a == Restrict(body, Columns);
    RestrictGet(body, Columns, "nombre", m.nombre);
    RestrictGet(body, Columns, "especie", m.especie);
    RestrictGet(body, Columns, "raza", m.raza);
    RestrictGet(body, Columns, "edad", m.edad);
    RestrictGet(body, Columns, "peso", m.peso);
    assert "cliente_id" !in a;
  }

  /** `GET /api/mascotas`: every pet, left-joined with its owner, ascending by id. */
  method List(env: Env, db: Store) returns (r: Reply<seq<MascotaView>>)
    ensures !env.connects ==> r == ConnectionFailed()
    ensures env.connects && env.fault.Some? ==> r == Raised(env.fault.value)
    ensures env.Healthy() ==> r.Ok?
    ensures r.Ok? ==> |r.body| == |db.mascotas.rows|
    ensures r.Ok? ==> forall i, j :: 0 <= i < j < |r.body| ==> r.body[i].id < r.body[j].id
    ensures r.Ok? ==> forall v :: v in r.body <==> LeftJoined(db, v)
  {
    if !env.connects {
      return ConnectionFailed();
    }
    if env.fault.Some? {
      return Raised(env.fault.value);
    }
    var ids := AscendingIds(db.mascotas.rows.Keys);
    var views := seq(|ids|, i requires 0 <= i < |ids| => View(db, ids[i]));
    forall v: MascotaView
      ensures v in views <==> LeftJoined(db, v)
    {
      ViewIsLeftJoin(db, v);
      if LeftJoined(db, v) {
        var i :| 0 <= i < |ids| && ids[i] == v.id;
        assert views[i] == v;
      }
    }
    return Ok(views);
  }

  /** `GET /api/mascotas/<id>`. */
  function Get(env: Env, db: Store, id: nat): (r: Reply<MascotaView>)
    ensures !env.connects ==> r == ConnectionFailed()
    ensures env.connects && env.fault.Some? ==> r == Raised(env.fault.value)
    ensures env.Healthy() && id in db.mascotas.rows ==> r.Ok? && r.body.id == id && LeftJoined(db, r.body)
    ensures env.Healthy() && id !in db.mascotas.rows ==> r == NotFound(NotFoundMessage)
  {
    if !env.connects then ConnectionFailed()
    else if env.fault.Some? then Raised(env.fault.value)
    else if Lookup(db.mascotas, Num(id)).Some? then Ok(View(db, id))
    else NotFound(NotFoundMessage)
  }

  /** `POST /api/mascotas`. The required fields are checked before the
      connection is opened; the owner's existence is not checked here. */
  function Create(env: Env, db: Store, body: Body): (r: Outcome)
    ensures forall i :: 0 <= i < |Required| && Required[i] !in body && (forall j :: 0 <= j < i ==> Required[j] in body) ==>
                r == Outcome(MissingField(Required[i]), db)
    ensures Present(body, Required) && !env.connects ==> r == Outcome(ConnectionFailed(), db)
    ensures Present(body, Required) && env.connects && env.fault.Some? ==> r == Outcome(Raised(env.fault.value), db)
    ensures Present(body, Required) && env.Healthy() ==>
      && r.reply.Created? && r.reply.message == CreatedMessage
      && r.reply.id !in db.mascotas.rows
      && r.db.mascotas.rows == db.mascotas.rows[r.reply.id :=
           Mascota(body["nombre"], body["especie"], GetOr(body, "raza", Text("")),
             GetOr(body, "edad", Null), GetOr(body, "peso", Null), body["cliente_id"])]
      && r.db.clientes == db.clientes && r.db.citas == db.citas
    ensures Valid(db) ==> Valid(r.db)
    ensures Valid(db) && r.reply.Created? ==> r.reply.id == db.mascotas.next
  {
    var missing := FirstMissing(Required, body);
    if missing < |Required| then Outcome(MissingField(Required[missing]), db)
    else if !env.connects then Outcome(ConnectionFailed(), db)
    else if env.fault.Some? then Outcome(Raised(env.fault.value), db)
    else
      var (id, t) := Insert(db.mascotas, NewRow(body));
      Outcome(Created(CreatedMessage, id), db.(mascotas := t))
  }

  /** `PUT /api/mascotas/<id>`. The connection is opened before the body is
      examined; keys other than the recognised columns are ignored. */
  function Update(env: Env, db: Store, id: nat, body: Body): (r: Outcome)
    ensures !env.connects ==> r == Outcome(ConnectionFailed(), db)
    ensures env.connects && !Supplies(body, Columns) ==> r == Outcome(NothingToUpdate(), db)
    ensures env.connects && Supplies(body, Columns) && env.fault.Some? ==> r == Outcome(Raised(env.fault.value), db)
    ensures env.Healthy() && Supplies(body, Columns) && id !in db.mascotas.rows ==> r == Outcome(NotFound(NotFoundMessage), db)
    ensures env.Healthy() && Supplies(body, Columns) && id in db.mascotas.rows ==>
      var prev := db.mascotas.rows[id];
      r == Outcome(Done(UpdatedMessage), db.(mascotas := db.mascotas.(rows := db.mascotas.rows[id := Mascota(
        GetOr(body, "nombre", prev.nombre),
        GetOr(body, "especie", prev.especie),
        GetOr(body, "raza", prev.raza),
        GetOr(body, "edad", prev.edad),
        GetOr(body, "peso", prev.peso),
        prev.clienteId)])))
    ensures Valid(db) ==> Valid(r.db)
  {
    if !env.connects then Outcome(ConnectionFailed(), db)
    else
      var q := BuildUpdate(Columns, body, id);
      EmptySetList(Columns, body, id);
      if |q.fields| == 0 then Outcome(NothingToUpdate(), db)
      else if env.fault.Some? then Outcome(Raised(env.fault.value), db)
      else
        var (count, t) := UpdateWhere(db.mascotas, q.Key(), (m: Mascota) => Patch(m, q.Assignments()));
        if count > 0 then
          PatchBySetList(db.mascotas.rows[id], body, id);
          Outcome(Done(UpdatedMessage), db.(mascotas := t))
        else Outcome(NotFound(NotFoundMessage), db)
  }

  /** `DELETE /api/mascotas/<id>`. The pet's appointments are left in place. */
  function Delete(env: Env, db: Store, id: nat): (r: Outcome)
    ensures !env.connects ==> r == Outcome(ConnectionFailed(), db)
    ensures env.connects && env.fault.Some? ==> r == Outcome(Raised(env.fault.value), db)
    ensures env.Healthy() && id !in db.mascotas.rows ==> r == Outcome(NotFound(NotFoundMessage), db)
    ensures env.Healthy() && id in db.mascotas.rows ==>
      && r.reply == Done(DeletedMessage)
      && r.db.mascotas.rows == db.mascotas.rows - {id}
      && r.db.mascotas.next == db.mascotas.next
      && r.db.clientes == db.clientes && r.db.citas == db.citas
    ensures Valid(db) ==> Valid(r.db)
  {
    if !env.connects then Outcome(ConnectionFailed(), db)
    else if env.fault.Some? then Outcome(Raised(env.fault.value), db)
    else
      var (count, t) := DeleteWhere(db.mascotas, id);
      if count > 0 then Outcome(Done(DeletedMessage), db.(mascotas := t))
      else Outcome(NotFound(NotFoundMessage), db)
  }

  // ---------------------------------------------------------------------------
  // Properties relating the handlers

  /** A created pet reads back with the submitted fields and the defaults. */
  lemma CreateThenGet(env: Env, db: Store, body: Body)
    requires env.Healthy() && Present(body, Required)
    ensures var r := Create(env, db, body);
      && r.reply.Status() == 201
      && var g := Get(env, r.db, r.reply.id);
         g.Ok? && g.body.id == r.reply.id &&
         g.body.mascota == Mascota(body["nombre"], body["especie"], GetOr(body, "raza", Text("")),
           GetOr(body, "edad", Null), GetOr(body, "peso", Null), body["cliente_id"])
  {
  }

  /** A deleted pet is no longer found, by a read, an update or a second delete. */
  lemma DeleteThenGet(env: Env, db: Store, id: nat, body: Body)
    requires env.Healthy() && id in db.mascotas.rows
    ensures var after := Delete(env, db, id).db;
      && Get(env, after, id) == NotFound(NotFoundMessage)
      && (Supplies(body, Columns) ==> Update(env, after, id, body) == Outcome(NotFound(NotFoundMessage), after))
      && Delete(env, after, id) == Outcome(NotFound(NotFoundMessage), after)
  {
  }

  /** Keys outside the recognised columns make no difference to an update. */
  lemma UpdateIgnoresUnrecognisedKeys(env: Env, db: Store, id: nat, body: Body)
    ensures Update(env, db, id, body) == Update(env, db, id, Restrict(body, Columns))
  {
    var body' := Restrict(body, Columns);
    if Supplies(body, Columns) {
      var c :| c in Columns && c in body;
      assert c in body';
    }
    if Supplies(body', Columns) {
      var c :| c in Columns && c in body';
      assert c in body;
    }
    var r, r' := Update(env, db, id, body), Update(env, db, id, body');
    if !env.connects {
      assert r == Outcome(ConnectionFailed(), db) == r';
    } else if !Supplies(body, Columns) {
      assert r == Outcome(NothingToUpdate(), db) == r';
    } else if env.fault.Some? {
      assert r == Outcome(Raised(env.fault.value), db) == r';
    } else if id !in db.mascotas.rows {
      assert r == Outcome(NotFound(NotFoundMessage), db) == r';
    } else {
      var prev := db.mascotas.rows[id];
      RestrictGet(body, Columns, "nombre", prev.nombre);
      RestrictGet(body, Columns, "especie", prev.especie);
      RestrictGet(body, Columns, "raza", prev.raza);
      RestrictGet(body, Columns, "edad", prev.edad);
      RestrictGet(body, Columns, "peso", prev.peso);
      var updated := Mascota(GetOr(body, "nombre", prev.nombre), GetOr(body, "especie", prev.especie), GetOr(body, "raza", prev.raza), GetOr(body, "edad", prev.edad), GetOr(body, "peso", prev.peso), prev.clienteId);
      assert r == Outcome(Done(UpdatedMessage), db.(mascotas := db.mascotas.(rows := db.mascotas.rows[id := updated])));
      assert r' == Outcome(Done(UpdatedMessage), db.(mascotas := db.mascotas.(rows := db.mascotas.rows[id := updated])));
    }
  }

  /** A body naming only the owner is an empty update. */
  lemma OwnerAloneIsEmpty(env: Env, db: Store, id: nat, owner: Value)
    requires env.connects
    ensures Update(env, db, id, map["cliente_id" := owner]) == Outcome(NothingToUpdate(), db)
  {
  }

  /** Deleting a client leaves its pets in place, and the left join still
      shows them, with null owner names. */
  lemma OrphanStillShown(env: Env, db: Store, clienteId: nat, id: nat)
    requires env.Healthy() && clienteId in db.clientes.rows
    requires id in db.mascotas.rows && db.mascotas.rows[id].clienteId == Num(clienteId)
    ensures var after := Clientes.Delete(env, db, clienteId).db;
      Get(env, after, id) == Ok(MascotaView(id, db.mascotas.rows[id], Null, Null))
  {
    var after := Clientes.Delete(env, db, clienteId).db;
    ViewIsLeftJoin(after, Get(env, after, id).body);
  }

  /** A pet without `especie` is refused, naming that field. */
  lemma MissingEspecie(env: Env, db: Store, body: Body)
    requires "nombre" in body && "especie" !in body
    ensures Create(env, db, body) == Outcome(Failed(400, "Campo requerido: especie"), db)
  {
    assert Required[0] in body && Required[1] !in body;
    assert MissingFieldMessage("especie") == "Campo requerido: especie";
  }

  /** No update moves a pet to another owner. */
  lemma UpdateKeepsOwner(env: Env, db: Store, id: nat, body: Body, k: nat)
    requires k in db.mascotas.rows
    ensures var after := Update(env, db, id, body).db;
      k in after.mascotas.rows && after.mascotas.rows[k].clienteId == db.mascotas.rows[k].clienteId
  {
  }
}
