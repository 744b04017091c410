/** The records of the store and the shape of an HTTP reply.

    The relational store is a set of maps from primary key to row; the ORM's
    `findMany` with an `orderBy` is modelled by the listing operations taking
    the table's rows as a sequence already in that order. */
module Domain {
  import opened Wrappers

  type Id = string

  datatype Rol = Cliente | Admin

  datatype Usuario = Usuario(id: Id, email: string, nombre: string, rol: Rol)

  datatype Categoria = Categoria(
    id: Id,
    slug: string,
    nombre: string,
    descripcion: Option<string>,
    imagen: Option<string>,
    icono: Option<string>,
    color: Option<string>,
    orden: int,
    activo: bool)

  /** Product attributes that the handlers only pass through. */
  datatype Detalles = Detalles(
    descripcionCorta: Option<string>,
    costo: Option<int>,
    sku: Option<string>,
    stockMinimo: Option<int>,
    video: Option<string>,
    peso: Option<int>,
    dimensiones: Option<string>,
    material: Option<string>,
    color: Option<string>,
    nuevo: Option<bool>)

  /** A product. Prices are whole pesos; `creado` is the creation timestamp,
      used only as the sort key of the listings. */
  datatype Producto = Producto(
    id: Id,
    slug: string,
    nombre: string,
    descripcion: Option<string>,
    precio: int,
    precioOferta: Option<int>,
    stock: int,
    imagenes: seq<string>,
    destacado: bool,
    activo: bool,
    categoriaId: Id,
    detalles: Detalles,
    creado: int)

  /** The order lifecycle states the handlers name. */
  datatype Estado = Pendiente | PendientePago | Confirmado | Cancelado

  /** Parses an order state as it arrives in a query string or a body; a
      string outside the enum is rejected by the store. */
  function ParseEstado(s: string): Option<Estado> {
    if s == "PENDIENTE" then Some(Pendiente)
    else if s == "PENDIENTE_PAGO" then Some(PendientePago)
    else if s == "CONFIRMADO" then Some(Confirmado)
    else if s == "CANCELADO" then Some(Cancelado)
    else None
  }

  function EstadoName(e: Estado): string {
    match e
    case Pendiente => "PENDIENTE"
    case PendientePago => "PENDIENTE_PAGO"
    case Confirmado => "CONFIRMADO"
    case Cancelado => "CANCELADO"
  }

  /** Customer contact and shipping fields, copied from the request body. */
  datatype Cliente = Cliente(
    nombre: Option<string>,
    apellido: Option<string>,
    email: Option<string>,
    telefono: Option<string>,
    dni: Option<string>,
    direccion: Option<string>,
    ciudad: Option<string>,
    provincia: Option<string>,
    codigoPostal: Option<string>,
    notas: Option<string>)

  /** A line item: a snapshot of the product at purchase time. */
  datatype ItemPedido = ItemPedido(
    productoId: Id,
    nombre: string,
    precio: int,
    cantidad: int,
    imagen: Option<string>)

  datatype Pedido = Pedido(
    id: Id,
    numero: int,
    usuarioId: Option<Id>,
    cliente: Cliente,
    subtotal: int,
    envio: int,
    total: int,
    estado: Estado,
    metodoPago: Option<string>,
    items: seq<ItemPedido>,
    preferenceId: Option<string>,
    paymentId: Option<string>,
    creado: int)

  datatype Store = Store(
    usuarios: map<Id, Usuario>,
    categorias: map<Id, Categoria>,
    productos: map<Id, Producto>,
    pedidos: map<Id, Pedido>,
    configuracion: map<string, string>)

  /** The values the store assigns when it inserts a row: a fresh primary
      key, the autoincrement order number and the creation timestamp. */
  datatype Alta = Alta(id: Id, numero: int, creado: int)

  /** An HTTP reply: a status code and a JSON body that is either the
      resource or `{ error: <message> }`. */
  datatype Response<+T> = Response(status: nat, body: Result<T, string>)

  /** A reply together with the store after the handler ran. */
  datatype Handled<+T> = Handled(response: Response<T>, store: Store)

  function Ok<T>(v: T): Response<T> {
    Response(200, Success(v))
  }

  function Error<T>(status: nat, mensaje: string): Response<T> {
    Response(status, Failure(mensaje))
  }

  /** JavaScript truthiness of an optional string: present and non-empty. */
  predicate Truthy(s: Option<string>) {
    s.Some? && s.value != ""
  }

  /** Everything in the store except the orders table is as in `st`. */
  predicate OnlyPedidosChanged(st: Store, st': Store) {
    && st'.usuarios == st.usuarios
    && st'.categorias == st.categorias
    && st'.productos == st.productos
    && st'.configuracion == st.configuracion
  }

  /** `st'` is `st` with order `id` written (inserted or replaced) and
      nothing else changed. */
  predicate WritesOrder(st: Store, st': Store, id: Id) {
    id in st'.pedidos && st' == st.(pedidos := st.pedidos[id := st'.pedidos[id]])
  }
}
