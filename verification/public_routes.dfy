/** The unauthenticated routes of src/routes/public.ts: the configuration
    object, the category and product listings, the product detail, and order
    placement. */
module PublicRoutes {
  import opened Wrappers
  import opened Domain
  import opened Text
  import opened ConfigTable
  import opened Listing
  import opened Pricing

  // ---------------------------------------------------------------------------
  // GET /config
  // ---------------------------------------------------------------------------

  /** The one key a plain JavaScript object does not store on assignment:
      `config["__proto__"] = v` goes to the inherited prototype setter,
      which ignores a string, so the key never reaches the reply. */
  const ProtoKey: string := "__proto__"

  /** The configuration rows collapsed into one object, key by key; for a
      key listed twice the later row wins, and a `__proto__` row is lost. */
  function ConfigMap(rows: seq<ConfigRow>): (r: map<string, string>)
    ensures r.Keys == Claves(rows) - {ProtoKey}
    ensures forall i :: 0 <= i < |rows| && LastFor(rows, i) && rows[i].clave != ProtoKey ==>
      r[rows[i].clave] == rows[i].valor
  {
    Upsert(map[], rows) - {ProtoKey}
  }

  /** Reading the whole table returns the stored configuration, every key
      but `__proto__` with its stored value. */
  lemma ConfigMapOfStore(st: Store, rows: seq<ConfigRow>)
    requires TableOf(rows, st.configuracion)
    ensures ConfigMap(rows) == st.configuracion - {ProtoKey}
    ensures forall k :: k in st.configuracion && k != ProtoKey ==> k in ConfigMap(rows) && ConfigMap(rows)[k] == st.configuracion[k]
  {
    ReadBackTable(rows, st.configuracion);
  }

  // ---------------------------------------------------------------------------
  // GET /categorias
  // ---------------------------------------------------------------------------

  /** The products of category `catId`, only the active ones when
      `soloActivos`. */
  function ProductosDe(productos: map<Id, Producto>, catId: Id, soloActivos: bool): set<Id> {
    set id | id in productos && productos[id].categoriaId == catId && (productos[id].activo || !soloActivos)
  }

  datatype CategoriaConteo = CategoriaConteo(categoria: Categoria, productos: nat)

  /** Each category annotated with its `_count` of products. */
  function WithCounts(cats: seq<Categoria>, productos: map<Id, Producto>, soloActivos: bool): (r: seq<CategoriaConteo>)
    ensures |r| == |cats|
    ensures forall i :: 0 <= i < |cats| ==>
      r[i].categoria == cats[i] && r[i].productos == |ProductosDe(productos, cats[i].id, soloActivos)|
  {
    seq(|cats|, i requires 0 <= i < |cats| => CategoriaConteo(cats[i], |ProductosDe(productos, cats[i].id, soloActivos)|))
  }

  predicate Activa(c: Categoria) {
    c.activo
  }

  predicate OrdenAsc(a: Categoria, b: Categoria) {
    a.orden <= b.orden
  }

  /** The active categories, each with its number of active products. `rows`
      is the category table ordered by `orden` ascending; the result keeps
      that order. */
  function ListCategorias(rows: seq<Categoria>, productos: map<Id, Producto>): (r: seq<CategoriaConteo>)
    ensures forall i :: 0 <= i < |r| ==>
      && r[i].categoria in rows
      && r[i].categoria.activo
      && r[i].productos == |ProductosDe(productos, r[i].categoria.id, true)|
    ensures forall c :: c in rows && c.activo ==> exists i :: 0 <= i < |r| && r[i].categoria == c
    ensures Ordered(rows, OrdenAsc) ==>
      forall i, j :: 0 <= i < j < |r| ==> r[i].categoria.orden <= r[j].categoria.orden
    ensures Distinct(rows) ==>
      && (forall i, j :: 0 <= i < j < |r| ==> r[i].categoria != r[j].categoria)
      && |r| == |Matches(rows, Activa)|
  {
    var act := Filter(rows, Activa);
    var r := WithCounts(act, productos, true);
    FilterSubset(rows, Activa);
    assert forall c :: c in rows && c.activo ==> c in act && r[IndexIn(act, c)].categoria == c;
    ActiveCounts(rows, productos);
    if Ordered(rows, OrdenAsc) then
      FilterKeepsOrder(rows, Activa, OrdenAsc);
      r
    else r
  }

  /** In a listing without repeats no category gets two lines and each
      active one gets exactly one. */
  lemma ActiveCounts(rows: seq<Categoria>, productos: map<Id, Producto>)
    ensures var r := WithCounts(Filter(rows, Activa), productos, true);
      Distinct(rows) ==>
        && (forall i, j :: 0 <= i < j < |r| ==> r[i].categoria != r[j].categoria)
        && |r| == |Matches(rows, Activa)|
  {
    var act := Filter(rows, Activa);
    var r := WithCounts(act, productos, true);
    FilterCount(rows, Activa);
    if Distinct(rows) {
      forall i, j | 0 <= i < j < |r| ensures r[i].categoria != r[j].categoria {
        assert r[i].categoria == act[i] && r[j].categoria == act[j];
      }
    }
  }

  function IndexIn<T(==)>(s: seq<T>, x: T): (i: nat)
    requires x in s
    ensures i < |s| && s[i] == x
  {
    if s[0] == x then 0 else 1 + IndexIn(s[1..], x)
  }

  // ---------------------------------------------------------------------------
  // GET /productos
  // ---------------------------------------------------------------------------

  /** The query string; `limite` is the already-parsed `take`. */
  datatype ProductQuery = ProductQuery(
    categoria: Option<string>,
    destacados: Option<string>,
    buscar: Option<string>,
    limite: Option<nat>)

  /** Case-insensitive match of the search text in the name or description. */
  predicate MatchesSearch(p: Producto, buscar: string) {
    ContainsInsensitive(p.nombre, buscar)
    || (p.descripcion.Some? && ContainsInsensitive(p.descripcion.value, buscar))
  }

  /** The `where` of the listing: active, and each filter given applies. */
  predicate Listable(p: Producto, q: ProductQuery) {
    && p.activo
    && (Truthy(q.categoria) ==> p.categoriaId == q.categoria.value)
    && (q.destacados == Some("true") ==> p.destacado)
    && (Truthy(q.buscar) ==> MatchesSearch(p, q.buscar.value))
  }

  predicate NewestFirst(a: Producto, b: Producto) {
    a.creado >= b.creado
  }

  /** The product listing. `rows` is the product table newest first, so
      with a limit the result is the newest `limite` matches: a match is
      never left out while a later one is listed. */
  function ListProductos(rows: seq<Producto>, q: ProductQuery): (r: seq<Producto>)
    ensures forall i :: 0 <= i < |r| ==> r[i] in rows && Listable(r[i], q)
    ensures q.limite.Some? ==> |r| <= q.limite.value
    ensures q.limite.None? || |r| < q.limite.value ==>
      forall p :: p in rows && Listable(p, q) ==> p in r
    ensures Ordered(rows, NewestFirst) ==> Ordered(r, NewestFirst)
    ensures Distinct(rows) ==>
      var total := |Matches(rows, (p: Producto) => Listable(p, q))|;
      && Distinct(r)
      && |r| == (if q.limite.Some? && q.limite.value < total then q.limite.value else total)
      && forall i, j :: 0 <= i < j < |rows| && Listable(rows[i], q) && rows[j] in r ==> rows[i] in r
  {
    var keep := (p: Producto) => Listable(p, q);
    var matching := Filter(rows, keep);
    var n := if q.limite.Some? then q.limite.value else |rows|;
    var r := Take(matching, n);
    assert forall i :: 0 <= i < |r| ==> r[i] == matching[i];
    FilterSubset(rows, keep);
    TakeFilter(rows, keep, n);
    if Ordered(rows, NewestFirst) then
      FilterKeepsOrder(rows, keep, NewestFirst);
      r
    else r
  }

  /** Only active products are ever listed, whatever the filters. */
  lemma ListingShowsOnlyActive(rows: seq<Producto>, q: ProductQuery, p: Producto)
    requires p in ListProductos(rows, q)
    ensures p.activo
  {
  }

  // ---------------------------------------------------------------------------
  // GET /productos/:id
  // ---------------------------------------------------------------------------

  /** The product detail: 404 for an unknown or inactive product. */
  function DetalleProducto(productos: map<Id, Producto>, id: Id): (r: Response<Producto>)
    ensures r.status == 200 <==> id in productos && productos[id].activo
    ensures r.status == 200 ==> r.body == Success(productos[id])
    ensures r.status != 200 ==> r == Error(404, "Producto no encontrado")
  {
    if id !in productos || !productos[id].activo then Error(404, "Producto no encontrado")
    else Ok(productos[id])
  }

  // ---------------------------------------------------------------------------
  // POST /pedidos
  // ---------------------------------------------------------------------------

  datatype PedidoRequest = PedidoRequest(items: Option<seq<ItemInput>>, cliente: Cliente, usuarioId: Option<Id>)

  /** The 400 message for a request that fails validation. */
  function Mensaje400(e: ErrorPedido, sinItems: string): string {
    match e
    case SinItems => sinItems
    case ProductoNoEncontrado(id) => "Producto " + id + " no encontrado"
  }

  /** The amounts of an order agree with its line items. */
  predicate PedidoPriced(o: Pedido) {
    |o.items| > 0 && Priced(o.items, o.subtotal, o.envio, o.total)
  }

  /** Places an order. `alta` carries the values the store assigns to the
      new row. */
  function CrearPedido(st: Store, req: PedidoRequest, alta: Alta): (h: Handled<Pedido>)
    requires alta.id !in st.pedidos
    ensures h.response.status in {201, 400, 500}
    ensures h.response.status != 201 ==> h.store == st
    ensures h.response.status == 201 <==>
      && req.items.Some? && req.items.value != []
      && (forall i :: 0 <= i < |req.items.value| ==> req.items.value[i].productoId in st.productos)
      && (req.usuarioId.Some? ==> req.usuarioId.value in st.usuarios)
    ensures h.response.status == 201 ==> h.response.body.Success?
    ensures h.response.status == 201 && h.response.body.Success? ==>
      var items := req.items.value;
      var o := h.response.body.value;
      && h.store == st.(pedidos := st.pedidos[alta.id := o])
      && o.id == alta.id && o.numero == alta.numero && o.creado == alta.creado
      && o.usuarioId == req.usuarioId && o.cliente == req.cliente
      && o.estado == Pendiente && o.metodoPago.None?
      && o.preferenceId.None? && o.paymentId.None?
      && |o.items| == |items|
      && (forall i :: 0 <= i < |items| ==>
            var p := st.productos[items[i].productoId];
            o.items[i] == Snapshot(p, items[i], p.nombre))
      && PedidoPriced(o)
  {
    match Cotizar(st.productos, req.items)
    case Failure(e) =>
      Handled(Error(400, Mensaje400(e, "El pedido debe tener al menos un producto")), st)
    case Success(q) =>
      if req.usuarioId.Some? && req.usuarioId.value !in st.usuarios then
        Handled(Error(500, "Error al crear pedido"), st)
      else
        var o := Pedido(alta.id, alta.numero, req.usuarioId, req.cliente, q.subtotal, q.envio, q.total,
                        Pendiente, None, q.lineas, None, None, alta.creado);
        Handled(Response(201, Success(o)), st.(pedidos := st.pedidos[alta.id := o]))
  }

  /** An order with no items, or naming an unknown product, is rejected
      with a 400 naming the first unknown product, and the store is left
      as it was. */
  lemma PedidoRejects(st: Store, req: PedidoRequest, alta: Alta)
    requires alta.id !in st.pedidos
    ensures req.items.None? || req.items.value == [] ==>
      CrearPedido(st, req, alta) == Handled(Error(400, "El pedido debe tener al menos un producto"), st)
    ensures req.items.Some? ==> forall k :: FirstMissing(st.productos, req.items.value, k) ==>
      CrearPedido(st, req, alta) == Handled(Error(400, "Producto " + req.items.value[k].productoId + " no encontrado"), st)
  {
    FirstMissingUnique(st.productos, if req.items.Some? then req.items.value else []);
  }

  /** There is at most one first unknown item. */
  lemma FirstMissingUnique(catalogo: map<Id, Producto>, items: seq<ItemInput>)
    ensures forall k, k' :: FirstMissing(catalogo, items, k) && FirstMissing(catalogo, items, k') ==> k == k'
  {
  }
}
