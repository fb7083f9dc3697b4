/** The three tables of the clinic and the shape of a handler's result.

    Column values are kept as the request supplied them; the database's own
    type coercion and constraints are not part of this model. */
module Schema {

  import opened Values
  import opened Replies
  import opened Tables

  /** A row of `clientes` (id aside). */
  datatype Cliente = Cliente(nombre: Value, apellido: Value, telefono: Value, email: Value, direccion: Value)

  /** A row of `mascotas` (id aside); `clienteId` refers to the owner. */
  datatype Mascota = Mascota(nombre: Value, especie: Value, raza: Value, edad: Value, peso: Value, clienteId: Value)

  /** A row of `citas` (id aside); `mascotaId` refers to the pet. */
  datatype Cita = Cita(mascotaId: Value, fecha: Value, hora: Value, motivo: Value, estado: Value)

  datatype Store = Store(clientes: Table<Cliente>, mascotas: Table<Mascota>, citas: Table<Cita>)

  predicate Valid(db: Store)
  {
    Numbered(db.clientes) && Numbered(db.mascotas) && Numbered(db.citas)
  }

  /** A writing handler's reply together with the store after the request. */
  datatype Outcome = Outcome(reply: Reply<()>, db: Store)
}
