/** The client handlers: `GET/POST /api/clientes` and
    `GET/PUT/DELETE /api/clientes/<id>`. */
module Clientes {

  import opened Wrappers
  import opened Values
  import opened Replies
  import opened Requests
  import opened Tables
  import opened Schema

  /** Checked in this order by a create. */
  const Required: seq<string> := ["nombre", "apellido", "telefono", "email"]
  /** Recognised by an update, in the order of its SET list. */
  const Columns: seq<string> := ["nombre", "apellido", "telefono", "email", "direccion"]

  const NotFoundMessage: string := "Cliente no encontrado"
  const CreatedMessage: string := "Cliente creado exitosamente"
  const UpdatedMessage: string := "Cliente actualizado exitosamente"
  const DeletedMessage: string := "Cliente eliminado exitosamente"

  /** The INSERT's column values: the four required fields as given and
      `direccion` defaulting to the empty string. */
  function NewRow(body: Body): Cliente
    requires Present(body, Required)
  {
    Cliente(body["nombre"], body["apellido"], body["telefono"], body["email"], GetOr(body, "direccion", Text("")))
  }

  /** The effect of a SET clause on one row: assigned columns take their new
      values, the others keep theirs. */
  function Patch(c: Cliente, assignments: map<string, Value>): Cliente
  {
    Cliente(
      GetOr(assignments, "nombre", c.nombre),
      GetOr(assignments, "apellido", c.apellido),
      GetOr(assignments, "telefono", c.telefono),
      GetOr(assignments, "email", c.email),
      GetOr(assignments, "direccion", c.direccion))
  }

  /** Applying the update's SET list to a row replaces exactly the columns
      the body supplies. */
  lemma PatchBySetList(c: Cliente, body: Body, id: nat)
    ensures Patch(c, BuildUpdate(Columns, body, id).Assignments()) == Cliente(
      GetOr(body, "nombre", c.nombre),
      GetOr(body, "apellido", c.apellido),
      GetOr(body, "telefono", c.telefono),
      GetOr(body, "email", c.email),
      GetOr(body, "direccion", c.direccion))
  {
    var a := BuildUpdate(Columns, body, id).Assignments();
    assert a == Restrict(body, Columns);
    RestrictGet(body, Columns, "nombre", c.nombre);
    RestrictGet(body, Columns, "apellido", c.apellido);
    RestrictGet(body, Columns, "telefono", c.telefono);
    RestrictGet(body, Columns, "email", c.email);
    RestrictGet(body, Columns, "direccion", c.direccion);
  }

  /** `GET /api/clientes`: every client, ascending by id. */
  method List(env: Env, db: Store) returns (r: Reply<seq<Keyed<Cliente>>>)
    ensures !env.connects ==> r == ConnectionFailed()
    ensures env.connects && env.fault.Some? ==> r == Raised(env.fault.value)
    ensures env.Healthy() ==> r.Ok?
    ensures r.Ok? ==> |r.body| == |db.clientes.rows|
    ensures r.Ok? ==> forall i, j :: 0 <= i < j < |r.body| ==> r.body[i].id < r.body[j].id
    ensures r.Ok? ==> forall e :: e in r.body <==> e.id in db.clientes.rows && e.row == db.clientes.rows[e.id]
  {
    if !env.connects {
      return ConnectionFailed();
    }
    if env.fault.Some? {
      return Raised(env.fault.value);
    }
    var ids := AscendingIds(db.clientes.rows.Keys);
    var entries := seq(|ids|, i requires 0 <= i < |ids| => Keyed(ids[i], db.clientes.rows[ids[i]]));
    forall e: Keyed<Cliente> | e.id in db.clientes.rows && e.row == db.clientes.rows[e.id]
      ensures e in entries
    {
      var i :| 0 <= i < |ids| && ids[i] == e.id;
      assert entries[i] == e;
    }
    return Ok(entries);
  }

  /** `GET /api/clientes/<id>`. */
  function Get(env: Env, db: Store, id: nat): (r: Reply<Keyed<Cliente>>)
    ensures !env.connects ==> r == ConnectionFailed()
    ensures env.connects && env.fault.Some? ==> r == Raised(env.fault.value)
    ensures env.Healthy() && id in db.clientes.rows ==> r == Ok(Keyed(id, db.clientes.rows[id]))
    ensures env.Healthy() && id !in db.clientes.rows ==> r == NotFound(NotFoundMessage)
  {
    if !env.connects then ConnectionFailed()
    else if env.fault.Some? then Raised(env.fault.value)
    else match Lookup(db.clientes, Num(id))
      case Some(c) => Ok(Keyed(id, c))
      case None => NotFound(NotFoundMessage)
  }

  /** `POST /api/clientes`. The required fields are checked before the
      connection is opened. */
  function Create(env: Env, db: Store, body: Body): (r: Outcome)
    ensures forall i :: 0 <= i < |Required| && Required[i] !in body && (forall j :: 0 <= j < i ==> Required[j] in body) ==>
                r == Outcome(MissingField(Required[i]), db)
    ensures Present(body, Required) && !env.connects ==> r == Outcome(ConnectionFailed(), db)
    ensures Present(body, Required) && env.connects && env.fault.Some? ==> r == Outcome(Raised(env.fault.value), db)
    ensures Present(body, Required) && env.Healthy() ==>
      && r.reply.Created? && r.reply.message == CreatedMessage
      && r.reply.id !in db.clientes.rows
      && r.db.clientes.rows == db.clientes.rows[r.reply.id :=
           Cliente(body["nombre"], body["apellido"], body["telefono"], body["email"], GetOr(body, "direccion", Text("")))]
      && r.db.mascotas == db.mascotas && r.db.citas == db.citas
    ensures Valid(db) ==> Valid(r.db)
    ensures Valid(db) && r.reply.Created? ==> r.reply.id == db.clientes.next
  {
    var missing := FirstMissing(Required, body);
    if missing < |Required| then Outcome(MissingField(Required[missing]), db)
    else if !env.connects then Outcome(ConnectionFailed(), db)
    else if env.fault.Some? then Outcome(Raised(env.fault.value), db)
    else
      var (id, t) := Insert(db.clientes, NewRow(body));
      Outcome(Created(CreatedMessage, id), db.(clientes := t))
  }

  /** `PUT /api/clientes/<id>`. The connection is opened before the body is
      examined. */
  function Update(env: Env, db: Store, id: nat, body: Body): (r: Outcome)
    ensures !env.connects ==> r == Outcome(ConnectionFailed(), db)
    ensures env.connects && !Supplies(body, Columns) ==> r == Outcome(NothingToUpdate(), db)
    ensures env.connects && Supplies(body, Columns) && env.fault.Some? ==> r == Outcome(Raised(env.fault.value), db)
    ensures env.Healthy() && Supplies(body, Columns) && id !in db.clientes.rows ==> r == Outcome(NotFound(NotFoundMessage), db)
    ensures env.Healthy() && Supplies(body, Columns) && id in db.clientes.rows ==>
      var prev := db.clientes.rows[id];
      r == Outcome(Done(UpdatedMessage), db.(clientes := db.clientes.(rows := db.clientes.rows[id := Cliente(
        GetOr(body, "nombre", prev.nombre),
        GetOr(body, "apellido", prev.apellido),
        GetOr(body, "telefono", prev.telefono),
        GetOr(body, "email", prev.email),
        GetOr(body, "direccion", prev.direccion))])))
    ensures Valid(db) ==> Valid(r.db)
  {
    if !env.connects then Outcome(ConnectionFailed(), db)
    else
      var q := BuildUpdate(Columns, body, id);
      EmptySetList(Columns, body, id);
      if |q.fields| == 0 then Outcome(NothingToUpdate(), db)
      else if env.fault.Some? then Outcome(Raised(env.fault.value), db)
      else
        var (count, t) := UpdateWhere(db.clientes, q.Key(), (c: Cliente) => Patch(c, q.Assignments()));
        if count > 0 then
          PatchBySetList(db.clientes.rows[id], body, id);
          Outcome(Done(UpdatedMessage), db.(clientes := t))
        else Outcome(NotFound(NotFoundMessage), db)
  }

  /** `DELETE /api/clientes/<id>`. The client's pets are left in place. */
  function Delete(env: Env, db: Store, id: nat): (r: Outcome)
    ensures !env.connects ==> r == Outcome(ConnectionFailed(), db)
    ensures env.connects && env.fault.Some? ==> r == Outcome(Raised(env.fault.value), db)
    ensures env.Healthy() && id !in db.clientes.rows ==> r == Outcome(NotFound(NotFoundMessage), db)
    ensures env.Healthy() && id in db.clientes.rows ==>
      && r.reply == Done(DeletedMessage)
      && r.db.clientes.rows == db.clientes.rows - {id}
      && r.db.clientes.next == db.clientes.next
      && r.db.mascotas == db.mascotas && r.db.citas == db.citas
    ensures Valid(db) ==> Valid(r.db)
  {
    if !env.connects then Outcome(ConnectionFailed(), db)
    else if env.fault.Some? then Outcome(Raised(env.fault.value), db)
    else
      var (count, t) := DeleteWhere(db.clientes, id);
      if count > 0 then Outcome(Done(DeletedMessage), db.(clientes := t))
      else Outcome(NotFound(NotFoundMessage), db)
  }

  // ---------------------------------------------------------------------------
  // Properties relating the handlers

  /** A created client reads back with the submitted fields and the default
      address. */
  lemma CreateThenGet(env: Env, db: Store, body: Body)
    requires env.Healthy() && Present(body, Required)
    ensures var r := Create(env, db, body);
      && r.reply.Status() == 201
      && Get(env, r.db, r.reply.id) ==
           Ok(Keyed(r.reply.id, Cliente(body["nombre"], body["apellido"], body["telefono"], body["email"],
             GetOr(body, "direccion", Text("")))))
  {
  }

  /** An updated client reads back with the supplied columns replaced. */
  lemma UpdateThenGet(env: Env, db: Store, id: nat, body: Body)
    requires env.Healthy() && Supplies(body, Columns) && id in db.clientes.rows
    ensures var prev := db.clientes.rows[id];
      Get(env, Update(env, db, id, body).db, id) == Ok(Keyed(id, Cliente(
        GetOr(body, "nombre", prev.nombre),
        GetOr(body, "apellido", prev.apellido),
        GetOr(body, "telefono", prev.telefono),
        GetOr(body, "email", prev.email),
        GetOr(body, "direccion", prev.direccion))))
  {
  }

  /** A deleted client is no longer found, by a read, an update or a second
      delete. */
  lemma DeleteThenGet(env: Env, db: Store, id: nat, body: Body)
    requires env.Healthy() && id in db.clientes.rows
    ensures var after := Delete(env, db, id).db;
      && Get(env, after, id) == NotFound(NotFoundMessage)
      && (Supplies(body, Columns) ==> Update(env, after, id, body) == Outcome(NotFound(NotFoundMessage), after))
      && Delete(env, after, id) == Outcome(NotFound(NotFoundMessage), after)
  {
  }

  /** Keys outside the recognised columns make no difference to an update. */
  lemma UpdateIgnoresUnrecognisedKeys(env: Env, db: Store, id: nat, body: Body)
    ensures Update(env, db, id, body) == Update(env, db, id, Restrict(body, Columns))
  {
    var body' := Restrict(body, Columns);
    if Supplies(body, Columns) {
      var c :| c in Columns && c in body;
      assert c in body';
    }
    if Supplies(body', Columns) {
      var c :| c in Columns && c in body';
      assert c in body;
    }
    var r, r' := Update(env, db, id, body), Update(env, db, id, body');
    if !env.connects {
      assert r == Outcome(ConnectionFailed(), db) == r';
    } else if !Supplies(body, Columns) {
      assert r == Outcome(NothingToUpdate(), db) == r';
    } else if env.fault.Some? {
      assert r == Outcome(Raised(env.fault.value), db) == r';
    } else if id !in db.clientes.rows {
      assert r == Outcome(NotFound(NotFoundMessage), db) == r';
    } else {
      var prev := db.clientes.rows[id];
      RestrictGet(body, Columns, "nombre", prev.nombre);
      RestrictGet(body, Columns, "apellido", prev.apellido);
      RestrictGet(body, Columns, "telefono", prev.telefono);
      RestrictGet(body, Columns, "email", prev.email);
      RestrictGet(body, Columns, "direccion", prev.direccion);
      var updated := Cliente(GetOr(body, "nombre", prev.nombre), GetOr(body, "apellido", prev.apellido), GetOr(body, "telefono", prev.telefono), GetOr(body, "email", prev.email), GetOr(body, "direccion", prev.direccion));
      assert r == Outcome(Done(UpdatedMessage), db.(clientes := db.clientes.(rows := db.clientes.rows[id := updated])));
      assert r' == Outcome(Done(UpdatedMessage), db.(clientes := db.clientes.(rows := db.clientes.rows[id := updated])));
    }
  }

  /** A create validates before it connects, an update connects before it
      validates: with the database down and an empty body, a create answers
      400 for the first required field and an update answers 500. */
  lemma CheckOrder(db: Store, id: nat)
    ensures Create(Env(false, None), db, map[]) == Outcome(MissingField("nombre"), db)
    ensures Update(Env(false, None), db, id, map[]) == Outcome(ConnectionFailed(), db)
  {
  }

  /** Presence is all the create checks: required keys bound to null or ''
      never draw a 400, and a healthy create stores them as given. */
  lemma NullFieldsPass(env: Env, db: Store, body: Body)
    requires Present(body, Required)
    requires forall f :: f in Required ==> body[f] == Null || body[f] == Text("")
    ensures Create(env, db, body).reply.Status() != 400
    ensures env.Healthy() ==> var r := Create(env, db, body);
      r.reply.Created? && r.db.clientes.rows[r.reply.id] == NewRow(body)
  {
  }
}
