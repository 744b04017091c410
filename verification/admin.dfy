/** The administrator routes of src/routes/admin.ts: configuration upsert,
    category and product maintenance, the order list and order state update,
    and the dashboard counts. Every route runs behind `verificarToken` and
    `soloAdmin`. */
module Admin {
  import opened Wrappers
  import opened Domain
  import opened ConfigTable
  import opened Listing
  import opened Text
  import opened Slug
  import opened PublicRoutes
  import opened Auth

  // ---------------------------------------------------------------------------
  // PUT /config
  // ---------------------------------------------------------------------------

  /** The entries up to (excluding) the first one the store rejects; such
      an entry is `None`. */
  function Aceptadas(entradas: seq<Option<ConfigRow>>): (r: seq<ConfigRow>)
    ensures |r| <= |entradas|
    ensures forall i :: 0 <= i < |r| ==> entradas[i] == Some(r[i])
    ensures |r| < |entradas| ==> entradas[|r|].None?
  {
    if entradas == [] || entradas[0].None? then []
    else [entradas[0].value] + Aceptadas(entradas[1..])
  }

  /** The bulk configuration write: one upsert per entry, in order. An
      argument that is not a list fails before any write; a rejected entry
      fails after the entries before it have been written. */
  function PutConfig(st: Store, configs: Option<seq<Option<ConfigRow>>>): (h: Handled<string>)
    ensures configs.None? ==> h == Handled(Error(500, "Error al actualizar configuración"), st)
    ensures h.response.status in {200, 500}
    ensures h.store == st.(configuracion := h.store.configuracion)
    ensures configs.Some? ==>
      var rows := Aceptadas(configs.value);
      && h.store.configuracion.Keys == st.configuracion.Keys + Claves(rows)
      && (forall k :: k in st.configuracion && k !in Claves(rows) ==> h.store.configuracion[k] == st.configuracion[k])
      && (forall i :: 0 <= i < |rows| && LastFor(rows, i) ==> h.store.configuracion[rows[i].clave] == rows[i].valor)
    ensures configs.Some? ==>
      (h.response == Ok("Configuración actualizada") <==> forall i :: 0 <= i < |configs.value| ==> configs.value[i].Some?)
    ensures h.response.status == 500 ==> h.response == Error(500, "Error al actualizar configuración")
  {
    if configs.None? then Handled(Error(500, "Error al actualizar configuración"), st)
    else
      var rows := Aceptadas(configs.value);
      var st' := st.(configuracion := Upsert(st.configuracion, rows));
      if |rows| == |configs.value| then Handled(Ok("Configuración actualizada"), st')
      else Handled(Error(500, "Error al actualizar configuración"), st')
  }

  /** After a write, reading the configuration back through the public
      route gives the old configuration overridden by the accepted entries,
      the last entry for a key winning; when every entry is accepted these
      are all of them. */
  lemma PutConfigThenRead(st: Store, es: seq<Option<ConfigRow>>, rows: seq<ConfigRow>)
    ensures TableOf(rows, PutConfig(st, Some(es)).store.configuracion) ==>
      ConfigMap(rows) == (st.configuracion - {ProtoKey}) + ConfigMap(Aceptadas(es))
    ensures (forall i :: 0 <= i < |es| ==> es[i].Some?) ==> |Aceptadas(es)| == |es|
  {
    var h := PutConfig(st, Some(es));
    if TableOf(rows, h.store.configuracion) {
      ReadBackTable(rows, h.store.configuracion);
      var a := Aceptadas(es);
      assert h.store.configuracion == Upsert(st.configuracion, a);
      UpsertIsOverride(st.configuracion, a);
      OverrideHidesProto(st.configuracion, Upsert(map[], a));
    }
  }

  lemma OverrideHidesProto(m: map<string, string>, w: map<string, string>)
    ensures (m + w) - {ProtoKey} == (m - {ProtoKey}) + (w - {ProtoKey})
  {
    var a := (m + w) - {ProtoKey};
    var b := (m - {ProtoKey}) + (w - {ProtoKey});
    assert a.Keys == b.Keys;
    forall k | k in a ensures a[k] == b[k] {
      if k in w {
        assert a[k] == w[k] == b[k];
      }
    }
  }

  // ---------------------------------------------------------------------------
  // Categories
  // ---------------------------------------------------------------------------

  /** The fields of a category create request; `None` is an absent field. */
  datatype CategoriaInput = CategoriaInput(
    nombre: Option<string>,
    descripcion: Option<string>,
    icono: Option<string>,
    color: Option<string>,
    orden: Option<int>,
    imagen: Option<string>)

  predicate SlugLibre(categorias: map<Id, Categoria>, slug: string) {
    forall id :: id in categorias ==> categorias[id].slug != slug
  }

  /** Category creation: the slug is derived from the name. A missing name,
      or a slug another category already has, fails. */
  function CrearCategoria(st: Store, body: CategoriaInput, id: Id): (h: Handled<Categoria>)
    requires id !in st.categorias
    ensures h.response.status in {201, 500}
    ensures h.response.status == 500 ==> h == Handled(Error(500, "Error al crear categoría"), st)
    ensures h.response.status == 201 <==> body.nombre.Some? && SlugLibre(st.categorias, Slug.Slug(body.nombre.value))
    ensures h.response.status == 201 ==>
      && h.response.body.Success?
      && var c := h.response.body.value;
      && h.store == st.(categorias := st.categorias[id := c])
      && c.id == id && c.nombre == body.nombre.value
      && IsSlug(c.slug) && c.slug == Slug.Slug(c.nombre)
      && c.descripcion == body.descripcion && c.imagen == body.imagen
      && c.icono == body.icono && c.color == body.color
      && c.orden == body.orden.GetOr(0) && c.activo
  {
    if body.nombre.None? then Handled(Error(500, "Error al crear categoría"), st)
    else
      var slug := Slug.Slug(body.nombre.value);
      if !SlugLibre(st.categorias, slug) then Handled(Error(500, "Error al crear categoría"), st)
      else
        var c := Categoria(id, slug, body.nombre.value, body.descripcion, body.imagen, body.icono, body.color,
                           body.orden.GetOr(0), true);
        Handled(Response(201, Success(c)), st.(categorias := st.categorias[id := c]))
  }

  /** Every category created through the route has a slug that is unique
      in the table, provided the table's slugs were unique before. */
  predicate SlugsUnicos(categorias: map<Id, Categoria>) {
    forall a, b :: a in categorias && b in categorias && a != b ==> categorias[a].slug != categorias[b].slug
  }

  lemma CrearCategoriaKeepsSlugsUnique(st: Store, body: CategoriaInput, id: Id)
    requires id !in st.categorias
    requires SlugsUnicos(st.categorias)
    ensures SlugsUnicos(CrearCategoria(st, body, id).store.categorias)
  {
  }

  /** The fields a category update may set; `None` leaves a field as it is. */
  datatype CategoriaPatch = CategoriaPatch(
    nombre: Option<string>,
    descripcion: Option<string>,
    icono: Option<string>,
    color: Option<string>,
    orden: Option<int>,
    activo: Option<bool>)

  function Patch<T>(campo: Option<T>, actual: T): T {
    if campo.Some? then campo.value else actual
  }

  function PatchOpt<T>(campo: Option<T>, actual: Option<T>): Option<T> {
    if campo.Some? then campo else actual
  }

  /** A field after an update: the given value when the field was sent,
      the stored value when it was absent. */
  predicate Aplicado<T(==)>(campo: Option<T>, antes: T, despues: T) {
    && (campo.Some? ==> despues == campo.value)
    && (campo.None? ==> despues == antes)
  }

  /** The same for a nullable field. */
  predicate AplicadoOpt<T(==)>(campo: Option<T>, antes: Option<T>, despues: Option<T>) {
    && (campo.Some? ==> despues == campo)
    && (campo.None? ==> despues == antes)
  }

  /** Category update: the given fields replace the stored ones; an unknown
      id fails. The slug is not recomputed from a new name. */
  function ActualizarCategoria(st: Store, id: Id, patch: CategoriaPatch): (h: Handled<Categoria>)
    ensures id !in st.categorias ==> h == Handled(Error(500, "Error al actualizar categoría"), st)
    ensures id in st.categorias ==>
      && h.response.status == 200 && h.response.body.Success?
      && var c := st.categorias[id];
      && var c' := h.response.body.value;
      && h.store == st.(categorias := st.categorias[id := c'])
      && c'.id == c.id && c'.slug == c.slug && c'.imagen == c.imagen
      && Aplicado(patch.nombre, c.nombre, c'.nombre)
      && AplicadoOpt(patch.descripcion, c.descripcion, c'.descripcion)
      && AplicadoOpt(patch.icono, c.icono, c'.icono)
      && AplicadoOpt(patch.color, c.color, c'.color)
      && Aplicado(patch.orden, c.orden, c'.orden)
      && Aplicado(patch.activo, c.activo, c'.activo)
  {
    if id !in st.categorias then Handled(Error(500, "Error al actualizar categoría"), st)
    else
      var c := st.categorias[id];
      var c' := c.(nombre := Patch(patch.nombre, c.nombre),
                   descripcion := PatchOpt(patch.descripcion, c.descripcion),
                   icono := PatchOpt(patch.icono, c.icono),
                   color := PatchOpt(patch.color, c.color),
                   orden := Patch(patch.orden, c.orden),
                   activo := Patch(patch.activo, c.activo));
      Handled(Ok(c'), st.(categorias := st.categorias[id := c']))
  }

  /** An update with no fields leaves the store as it was. */
  lemma EmptyCategoriaPatch(st: Store, id: Id)
    requires id in st.categorias
    ensures ActualizarCategoria(st, id, CategoriaPatch(None, None, None, None, None, None)).store == st
  {
    var c := st.categorias[id];
    assert st.categorias[id := c] == st.categorias;
  }

  /** Category deletion; an unknown id fails. */
  function EliminarCategoria(st: Store, id: Id): (h: Handled<string>)
    ensures id !in st.categorias ==> h == Handled(Error(500, "Error al eliminar categoría"), st)
    ensures id in st.categorias ==>
      && h.response == Ok("Categoría eliminada")
      && h.store.categorias.Keys == st.categorias.Keys - {id}
      && (forall k :: k in h.store.categorias ==> h.store.categorias[k] == st.categorias[k])
      && h.store == st.(categorias := h.store.categorias)
  {
    if id !in st.categorias then Handled(Error(500, "Error al eliminar categoría"), st)
    else Handled(Ok("Categoría eliminada"), st.(categorias := st.categorias - {id}))
  }

  /** A deleted category is gone from both category listings, whatever
      rows of the remaining table they are given. */
  lemma DeletedCategoryUnlisted(st: Store, id: Id, rows: seq<Categoria>, productos: map<Id, Producto>)
    requires id in st.categorias
    requires forall i :: 0 <= i < |rows| ==> rows[i].id in EliminarCategoria(st, id).store.categorias
    ensures forall i :: 0 <= i < |ListCategorias(rows, productos)| ==> ListCategorias(rows, productos)[i].categoria.id != id
    ensures forall i :: 0 <= i < |ListCategoriasAdmin(rows, productos)| ==> ListCategoriasAdmin(rows, productos)[i].categoria.id != id
  {
  }

  /** The admin category listing: every category, in the table's order,
      each with the number of all its products, active or not. */
  function ListCategoriasAdmin(rows: seq<Categoria>, productos: map<Id, Producto>): (r: seq<CategoriaConteo>)
    ensures |r| == |rows|
    ensures forall i :: 0 <= i < |rows| ==>
      r[i].categoria == rows[i] && r[i].productos == |ProductosDe(productos, rows[i].id, false)|
  {
    WithCounts(rows, productos, false)
  }

  /** A category's public product count never exceeds its admin count. */
  lemma PublicCountAtMostAdminCount(productos: map<Id, Producto>, catId: Id)
    ensures |ProductosDe(productos, catId, true)| <= |ProductosDe(productos, catId, false)|
  {
    SubsetCard(ProductosDe(productos, catId, true), ProductosDe(productos, catId, false));
  }

  lemma {:induction false} SubsetCard<T>(a: set<T>, b: set<T>)
    requires a <= b
    ensures |a| <= |b|
    decreases |b|
  {
    if b != {} {
      var x :| x in b;
      SubsetCard(a - {x}, b - {x});
    }
  }

  // ---------------------------------------------------------------------------
  // Products
  // ---------------------------------------------------------------------------

  /** The fields of a product create request; `None` is an absent field. */
  datatype ProductoInput = ProductoInput(
    nombre: Option<string>,
    descripcion: Option<string>,
    precio: Option<int>,
    precioOferta: Option<int>,
    stock: Option<int>,
    imagenes: Option<seq<string>>,
    destacado: Option<bool>,
    categoriaId: Option<Id>,
    detalles: Detalles)

  predicate ProductSlugLibre(productos: map<Id, Producto>, slug: string) {
    forall id :: id in productos ==> productos[id].slug != slug
  }

  /** Product creation: the slug is the name's slug followed by `-` and the
      base-36 creation time `ahora`; absent images become an empty list. A
      missing name, price or category, an unknown category, or a slug
      already in use fails. */
  function CrearProducto(st: Store, body: ProductoInput, alta: Alta, ahora: nat): (h: Handled<Producto>)
    requires alta.id !in st.productos
    ensures h.response.status in {201, 500}
    ensures h.response.status == 500 ==> h == Handled(Error(500, "Error al crear producto"), st)
    ensures h.response.status == 201 <==>
      && body.nombre.Some? && body.precio.Some? && body.categoriaId.Some?
      && body.categoriaId.value in st.categorias
      && ProductSlugLibre(st.productos, ProductSlug(body.nombre.value, ahora))
    ensures h.response.status == 201 ==>
      && h.response.body.Success?
      && var p := h.response.body.value;
      && h.store == st.(productos := st.productos[alta.id := p])
      && p.id == alta.id && p.nombre == body.nombre.value && p.slug == ProductSlug(p.nombre, ahora)
      && p.descripcion == body.descripcion && p.detalles == body.detalles
      && p.precio == body.precio.value && p.precioOferta == body.precioOferta
      && p.categoriaId == body.categoriaId.value && p.categoriaId in st.categorias
      && (body.imagenes.None? ==> p.imagenes == [])
      && (body.imagenes.Some? ==> p.imagenes == body.imagenes.value)
      && p.stock == body.stock.GetOr(0) && p.destacado == body.destacado.GetOr(false)
      && p.activo && p.creado == alta.creado
  {
    if body.nombre.None? || body.precio.None? || body.categoriaId.None? then
      Handled(Error(500, "Error al crear producto"), st)
    else if body.categoriaId.value !in st.categorias then
      Handled(Error(500, "Error al crear producto"), st)
    else
      var slug := ProductSlug(body.nombre.value, ahora);
      if !ProductSlugLibre(st.productos, slug) then Handled(Error(500, "Error al crear producto"), st)
      else
        var p := Producto(alta.id, slug, body.nombre.value, body.descripcion, body.precio.value, body.precioOferta,
                          body.stock.GetOr(0), body.imagenes.GetOr([]), body.destacado.GetOr(false), true,
                          body.categoriaId.value, body.detalles, alta.creado);
        Handled(Response(201, Success(p)), st.(productos := st.productos[alta.id := p]))
  }

  /** A created product is listed publicly under its name's slug: its slug
      starts with the category-style slug of its name, and the suffix reads
      back as the creation time. */
  lemma CreatedProductSlug(st: Store, body: ProductoInput, alta: Alta, ahora: nat)
    requires alta.id !in st.productos
    requires CrearProducto(st, body, alta, ahora).response.status == 201
    ensures var p := CrearProducto(st, body, alta, ahora).response.body.value;
      var base := Slug.Slug(p.nombre);
      && p.slug[..|base|] == base
      && p.slug[|base|] == '-'
      && FromBase36(p.slug[|base| + 1..]) == ahora
  {
    var p := CrearProducto(st, body, alta, ahora).response.body.value;
    ProductSlugParts(p.nombre, ahora);
  }

  /** The fields a product update may set; `None` leaves a field as it is. */
  datatype ProductoPatch = ProductoPatch(
    nombre: Option<string>,
    descripcion: Option<string>,
    precio: Option<int>,
    precioOferta: Option<int>,
    stock: Option<int>,
    imagenes: Option<seq<string>>,
    destacado: Option<bool>,
    activo: Option<bool>,
    categoriaId: Option<Id>)

  /** Product update: the given fields replace the stored ones. An unknown
      product, or a category that does not exist, fails. */
  function ActualizarProducto(st: Store, id: Id, patch: ProductoPatch): (h: Handled<Producto>)
    ensures h.response.status in {200, 500}
    ensures h.response.status == 500 ==> h == Handled(Error(500, "Error al actualizar producto"), st)
    ensures h.response.status == 200 <==>
      id in st.productos && (patch.categoriaId.Some? ==> patch.categoriaId.value in st.categorias)
    ensures h.response.status == 200 ==>
      && h.response.body.Success?
      && var p := st.productos[id];
      && var p' := h.response.body.value;
      && h.store == st.(productos := st.productos[id := p'])
      && p'.id == p.id && p'.slug == p.slug && p'.creado == p.creado && p'.detalles == p.detalles
      && Aplicado(patch.nombre, p.nombre, p'.nombre)
      && AplicadoOpt(patch.descripcion, p.descripcion, p'.descripcion)
      && Aplicado(patch.precio, p.precio, p'.precio)
      && AplicadoOpt(patch.precioOferta, p.precioOferta, p'.precioOferta)
      && Aplicado(patch.stock, p.stock, p'.stock)
      && Aplicado(patch.imagenes, p.imagenes, p'.imagenes)
      && Aplicado(patch.destacado, p.destacado, p'.destacado)
      && Aplicado(patch.activo, p.activo, p'.activo)
      && Aplicado(patch.categoriaId, p.categoriaId, p'.categoriaId)
  {
    if id !in st.productos then Handled(Error(500, "Error al actualizar producto"), st)
    else if patch.categoriaId.Some? && patch.categoriaId.value !in st.categorias then
      Handled(Error(500, "Error al actualizar producto"), st)
    else
      var p := st.productos[id];
      var p' := p.(nombre := Patch(patch.nombre, p.nombre),
                   descripcion := PatchOpt(patch.descripcion, p.descripcion),
                   precio := Patch(patch.precio, p.precio),
                   precioOferta := PatchOpt(patch.precioOferta, p.precioOferta),
                   stock := Patch(patch.stock, p.stock),
                   imagenes := Patch(patch.imagenes, p.imagenes),
                   destacado := Patch(patch.destacado, p.destacado),
                   activo := Patch(patch.activo, p.activo),
                   categoriaId := Patch(patch.categoriaId, p.categoriaId));
      Handled(Ok(p'), st.(productos := st.productos[id := p']))
  }

  /** Deactivating a product hides it from the public detail route. */
  lemma DeactivatedProductHidden(st: Store, id: Id, patch: ProductoPatch)
    requires patch.activo == Some(false)
    requires ActualizarProducto(st, id, patch).response.status == 200
    ensures DetalleProducto(ActualizarProducto(st, id, patch).store.productos, id) == Error(404, "Producto no encontrado")
  {
  }

  /** Product deletion; an unknown id fails. */
  function EliminarProducto(st: Store, id: Id): (h: Handled<string>)
    ensures id !in st.productos ==> h == Handled(Error(500, "Error al eliminar producto"), st)
    ensures id in st.productos ==>
      && h.response == Ok("Producto eliminado")
      && h.store.productos.Keys == st.productos.Keys - {id}
      && (forall k :: k in h.store.productos ==> h.store.productos[k] == st.productos[k])
      && h.store == st.(productos := h.store.productos)
  {
    if id !in st.productos then Handled(Error(500, "Error al eliminar producto"), st)
    else Handled(Ok("Producto eliminado"), st.(productos := st.productos - {id}))
  }

  /** A deleted product answers 404 on the detail route and is absent
      from every public listing of the remaining table. */
  lemma DeletedProductGone(st: Store, id: Id, rows: seq<Producto>, q: ProductQuery)
    requires id in st.productos
    requires forall i :: 0 <= i < |rows| ==> rows[i].id in EliminarProducto(st, id).store.productos
    ensures DetalleProducto(EliminarProducto(st, id).store.productos, id) == Error(404, "Producto no encontrado")
    ensures forall i :: 0 <= i < |ListProductos(rows, q)| ==> ListProductos(rows, q)[i].id != id
  {
  }

  // ---------------------------------------------------------------------------
  // Orders
  // ---------------------------------------------------------------------------

  /** The order list, optionally filtered by state. `rows` is the order
      table, newest first. An empty or absent filter lists everything; a
      state outside the enum is rejected by the store. */
  function ListPedidos(rows: seq<Pedido>, estado: Option<string>): (r: Response<seq<Pedido>>)
    ensures !Truthy(estado) ==> r == Ok(rows)
    ensures Truthy(estado) && ParseEstado(estado.value).None? ==> r == Error(500, "Error al obtener pedidos")
    ensures Truthy(estado) && ParseEstado(estado.value).Some? ==>
      var e := ParseEstado(estado.value).value;
      && r.status == 200 && r.body.Success?
      && (forall i :: 0 <= i < |r.body.value| ==> r.body.value[i] in rows && r.body.value[i].estado == e)
      && (forall i :: 0 <= i < |rows| && rows[i].estado == e ==> rows[i] in r.body.value)
      && (Distinct(rows) ==>
            && Distinct(r.body.value)
            && |r.body.value| == |Matches(rows, EnEstado(e))|)
  {
    if !Truthy(estado) then Ok(rows)
    else
      match ParseEstado(estado.value)
      case None => Error(500, "Error al obtener pedidos")
      case Some(e) =>
        FilterCount(rows, EnEstado(e));
        FilterSubset(rows, EnEstado(e));
        Ok(Filter(rows, EnEstado(e)))
  }

  /** `where: { estado }`: the orders in state `e`. */
  function EnEstado(e: Estado): Pedido -> bool {
    (o: Pedido) => o.estado == e
  }

  predicate PedidoNewestFirst(a: Pedido, b: Pedido) {
    a.creado >= b.creado
  }

  /** The filtered order list keeps the newest-first order. */
  lemma ListPedidosKeepsOrder(rows: seq<Pedido>, estado: Option<string>)
    requires Ordered(rows, PedidoNewestFirst)
    requires ListPedidos(rows, estado).body.Success?
    ensures Ordered(ListPedidos(rows, estado).body.value, PedidoNewestFirst)
  {
    if Truthy(estado) {
      var e := ParseEstado(estado.value).value;
      FilterKeepsOrder(rows, EnEstado(e), PedidoNewestFirst);
    }
  }

  /** The order state update: any state may be set from any state; only
      the state changes. An absent state leaves the order as it is; an
      unknown order or a state outside the enum fails. */
  function ActualizarPedido(st: Store, id: Id, estado: Option<string>): (h: Handled<Pedido>)
    ensures h.response.status in {200, 500}
    ensures h.response.status == 500 ==> h == Handled(Error(500, "Error al actualizar pedido"), st)
    ensures h.response.status == 200 <==>
      id in st.pedidos && (estado.Some? ==> ParseEstado(estado.value).Some?)
    ensures h.response.status == 200 ==>
      && h.response.body.Success?
      && var o' := h.response.body.value;
      && WritesOrder(st, h.store, id)
      && h.store.pedidos[id] == o'
      && o' == st.pedidos[id].(estado := o'.estado)
      && (estado.Some? ==> o'.estado == ParseEstado(estado.value).value)
      && (estado.None? ==> o' == st.pedidos[id])
  {
    if id !in st.pedidos then Handled(Error(500, "Error al actualizar pedido"), st)
    else if estado.None? then Handled(Ok(st.pedidos[id]), st.(pedidos := st.pedidos[id := st.pedidos[id]]))
    else
      match ParseEstado(estado.value)
      case None => Handled(Error(500, "Error al actualizar pedido"), st)
      case Some(e) =>
        var o' := st.pedidos[id].(estado := e);
        Handled(Ok(o'), st.(pedidos := st.pedidos[id := o']))
  }

  /** The update ignores the current state: two stores that differ only in
      that order's state end up identical. */
  lemma ActualizarPedidoIgnoresCurrentState(st: Store, id: Id, e0: Estado, e: Estado)
    requires id in st.pedidos
    ensures var st0 := st.(pedidos := st.pedidos[id := st.pedidos[id].(estado := e0)]);
      ActualizarPedido(st0, id, Some(EstadoName(e))) == ActualizarPedido(st, id, Some(EstadoName(e)))
  {
    var st0 := st.(pedidos := st.pedidos[id := st.pedidos[id].(estado := e0)]);
    var o' := st.pedidos[id].(estado := e);
    assert st0.pedidos[id].(estado := e) == o';
    assert st0.pedidos[id := o'] == st.pedidos[id := o'];
  }

  /** Every state the update writes reads back under its own name. */
  lemma EstadoNameRoundTrip(e: Estado)
    ensures ParseEstado(EstadoName(e)) == Some(e)
  {
  }

  // ---------------------------------------------------------------------------
  // GET /stats
  // ---------------------------------------------------------------------------

  datatype Estadisticas = Estadisticas(
    totalProductos: nat,
    totalCategorias: nat,
    totalPedidos: nat,
    pedidosPendientes: nat,
    totalUsuarios: nat)

  function ProductosActivos(productos: map<Id, Producto>): set<Id> {
    set id | id in productos && productos[id].activo
  }

  function CategoriasActivas(categorias: map<Id, Categoria>): set<Id> {
    set id | id in categorias && categorias[id].activo
  }

  function Pendientes(pedidos: map<Id, Pedido>): set<Id> {
    set id | id in pedidos && pedidos[id].estado == Pendiente
  }

  function Clientes(usuarios: map<Id, Usuario>): set<Id> {
    set id | id in usuarios && usuarios[id].rol == Rol.Cliente
  }

  /** The dashboard counts: active products, active categories, all orders,
      orders in state `PENDIENTE` (not `PENDIENTE_PAGO`), customer users. */
  function Stats(st: Store): (r: Estadisticas)
    ensures r.pedidosPendientes <= r.totalPedidos == |st.pedidos|
    ensures r.totalProductos <= |st.productos| && r.totalCategorias <= |st.categorias|
    ensures r.totalUsuarios <= |st.usuarios|
    ensures r.totalProductos == |ProductosActivos(st.productos)|
    ensures r.totalCategorias == |CategoriasActivas(st.categorias)|
    ensures r.pedidosPendientes == |Pendientes(st.pedidos)|
    ensures r.totalUsuarios == |Clientes(st.usuarios)|
  {
    SubsetCard(Pendientes(st.pedidos), st.pedidos.Keys);
    SubsetCard(ProductosActivos(st.productos), st.productos.Keys);
    SubsetCard(CategoriasActivas(st.categorias), st.categorias.Keys);
    SubsetCard(Clientes(st.usuarios), st.usuarios.Keys);
    Estadisticas(|ProductosActivos(st.productos)|, |CategoriasActivas(st.categorias)|, |st.pedidos|,
                 |Pendientes(st.pedidos)|, |Clientes(st.usuarios)|)
  }

  /** Deactivating an active product through the update route takes it out
      of the product count, and leaves the other counts as they were. */
  lemma DeactivationLowersProductCount(st: Store, id: Id, patch: ProductoPatch)
    requires patch.activo == Some(false)
    requires id in st.productos && st.productos[id].activo
    requires ActualizarProducto(st, id, patch).response.status == 200
    ensures var r := Stats(ActualizarProducto(st, id, patch).store);
      && r.totalProductos + 1 == Stats(st).totalProductos
      && r.totalCategorias == Stats(st).totalCategorias
      && r.totalPedidos == Stats(st).totalPedidos
      && r.pedidosPendientes == Stats(st).pedidosPendientes
      && r.totalUsuarios == Stats(st).totalUsuarios
  {
    var st' := ActualizarProducto(st, id, patch).store;
    assert ProductosActivos(st'.productos) == ProductosActivos(st.productos) - {id};
  }

  /** Administrators are never counted as users: registering one leaves
      the user count as it was, registering a customer adds one. */
  lemma UserCountIsCustomers(st: Store, u: Usuario)
    requires u.id !in st.usuarios
    ensures var r := Stats(st.(usuarios := st.usuarios[u.id := u]));
      && (u.rol == Admin ==> r.totalUsuarios == Stats(st).totalUsuarios)
      && (u.rol == Rol.Cliente ==> r.totalUsuarios == Stats(st).totalUsuarios + 1)
  {
    ClientesInsert(st.usuarios, u);
  }

  lemma ClientesInsert(m: map<Id, Usuario>, u: Usuario)
    requires u.id !in m
    ensures |Clientes(m[u.id := u])| == |Clientes(m)| + (if u.rol == Rol.Cliente then 1 else 0)
  {
    if u.rol == Admin {
      assert Clientes(m[u.id := u]) == Clientes(m);
    } else {
      assert Clientes(m[u.id := u]) == Clientes(m) + {u.id};
    }
  }

  /** Inserting a fresh order adds one to the order count, and one to the
      pending count exactly when the new order is pending. */
  lemma InsertCounts(st: Store, id: Id, o: Pedido)
    requires id !in st.pedidos
    ensures var r := Stats(st.(pedidos := st.pedidos[id := o]));
      && r.totalPedidos == Stats(st).totalPedidos + 1
      && r.pedidosPendientes == Stats(st).pedidosPendientes + (if o.estado == Pendiente then 1 else 0)
      && r.totalProductos == Stats(st).totalProductos
  {
    PendientesInsert(st.pedidos, id, o);
  }

  lemma PendientesInsert(m: map<Id, Pedido>, id: Id, o: Pedido)
    requires id !in m
    ensures |Pendientes(m[id := o])| == |Pendientes(m)| + (if o.estado == Pendiente then 1 else 0)
  {
    if o.estado == Pendiente {
      assert Pendientes(m[id := o]) == Pendientes(m) + {id};
    } else {
      assert Pendientes(m[id := o]) == Pendientes(m);
    }
  }

  /** A public order is pending: it adds one to both order counts. */
  lemma StatsAfterPedido(st: Store, req: PedidoRequest, alta: Alta)
    requires alta.id !in st.pedidos
    requires CrearPedido(st, req, alta).response.status == 201
    ensures var r := Stats(CrearPedido(st, req, alta).store);
      && r.totalPedidos == Stats(st).totalPedidos + 1
      && r.pedidosPendientes == Stats(st).pedidosPendientes + 1
  {
    var h := CrearPedido(st, req, alta);
    InsertCounts(st, alta.id, h.response.body.value);
  }

  /** Replacing an order never changes the order count and changes the
      pending count by at most one. */
  lemma ReplaceCounts(st: Store, id: Id, o: Pedido)
    requires id in st.pedidos
    ensures var r := Stats(st.(pedidos := st.pedidos[id := o]));
      && r.totalPedidos == Stats(st).totalPedidos
      && (o.estado != Pendiente ==> r.pedidosPendientes <= Stats(st).pedidosPendientes)
      && (st.pedidos[id].estado != Pendiente ==> r.pedidosPendientes >= Stats(st).pedidosPendientes)
  {
    var m := st.pedidos[id := o];
    assert m.Keys == st.pedidos.Keys;
    if o.estado != Pendiente {
      SubsetCard(Pendientes(m), Pendientes(st.pedidos));
    }
    if st.pedidos[id].estado != Pendiente {
      SubsetCard(Pendientes(st.pedidos), Pendientes(m));
    }
  }

  // ---------------------------------------------------------------------------
  // The router
  // ---------------------------------------------------------------------------

  /** An admin request: the route and its parameters. Identifiers and
      timestamps the store assigns travel with the creating routes. */
  datatype Ruta =
    | ConfigGet
    | ConfigPut(configs: Option<seq<Option<ConfigRow>>>)
    | CategoriasGet
    | CategoriaPost(categoria: CategoriaInput, nuevaCategoria: Id)
    | CategoriaPut(categoriaId: Id, categoriaPatch: CategoriaPatch)
    | CategoriaDelete(categoriaId: Id)
    | ProductosGet
    | ProductoPost(producto: ProductoInput, alta: Alta, ahora: nat)
    | ProductoPut(productoId: Id, productoPatch: ProductoPatch)
    | ProductoDelete(productoId: Id)
    | PedidosGet(filas: seq<Pedido>, filtro: Option<string>)
    | PedidoPut(pedidoId: Id, estado: Option<string>)
    | StatsGet

  /** The reply status and the store afterwards. */
  datatype Resultado = Resultado(status: nat, store: Store)

  /** The identifiers a creating route carries are fresh. */
  predicate Fresca(st: Store, ruta: Ruta) {
    && (ruta.CategoriaPost? ==> ruta.nuevaCategoria !in st.categorias)
    && (ruta.ProductoPost? ==> ruta.alta.id !in st.productos)
  }

  /** The handler of each route, once the guard has let the request in. */
  function Despachar(st: Store, ruta: Ruta): (r: Resultado)
    requires Fresca(st, ruta)
    ensures r.status in {200, 201, 500}
    ensures ruta.ConfigGet? || ruta.CategoriasGet? || ruta.ProductosGet? || ruta.PedidosGet? || ruta.StatsGet? ==>
      r.store == st
    ensures !ruta.PedidoPut? ==> r.store.pedidos == st.pedidos
  {
    match ruta
    case ConfigGet => Resultado(200, st)
    case ConfigPut(configs) =>
      var h := PutConfig(st, configs); Resultado(h.response.status, h.store)
    case CategoriasGet => Resultado(200, st)
    case CategoriaPost(body, id) =>
      var h := CrearCategoria(st, body, id); Resultado(h.response.status, h.store)
    case CategoriaPut(id, patch) =>
      var h := ActualizarCategoria(st, id, patch); Resultado(h.response.status, h.store)
    case CategoriaDelete(id) =>
      var h := EliminarCategoria(st, id); Resultado(h.response.status, h.store)
    case ProductosGet => Resultado(200, st)
    case ProductoPost(body, alta, ahora) =>
      var h := CrearProducto(st, body, alta, ahora); Resultado(h.response.status, h.store)
    case ProductoPut(id, patch) =>
      var h := ActualizarProducto(st, id, patch); Resultado(h.response.status, h.store)
    case ProductoDelete(id) =>
      var h := EliminarProducto(st, id); Resultado(h.response.status, h.store)
    case PedidosGet(filas, filtro) => Resultado(ListPedidos(filas, filtro).status, st)
    case PedidoPut(id, estado) =>
      var h := ActualizarPedido(st, id, estado); Resultado(h.response.status, h.store)
    case StatsGet => Resultado(200, st)
  }

  /** An admin request: `verificarToken`, then `soloAdmin`, then the
      route's handler. */
  function Atender(st: Store, authorization: Option<string>, verify: string -> Option<Id>, ruta: Ruta): (r: Resultado)
    requires Fresca(st, ruta)
    ensures GuardAdmin(authorization, verify, st.usuarios).Reject? ==>
      r == Resultado(GuardAdmin(authorization, verify, st.usuarios).status, st)
    ensures GuardAdmin(authorization, verify, st.usuarios).Pass? ==> r == Despachar(st, ruta)
  {
    match GuardAdmin(authorization, verify, st.usuarios)
    case Reject(status, _) => Resultado(status, st)
    case Pass(_) => Despachar(st, ruta)
  }

  /** Only an administrator changes anything: a request whose store
      changed carried a token of a registered user with the admin role, and
      every request from anyone else is answered 401 or 403 with the store
      untouched. */
  lemma OnlyAdminsWrite(st: Store, authorization: Option<string>, verify: string -> Option<Id>, ruta: Ruta)
    requires Fresca(st, ruta)
    ensures var r := Atender(st, authorization, verify, ruta);
      r.store != st ==>
        && authorization.Some? && StartsWith(authorization.value, Bearer)
        && verify(Token(authorization.value)).Some?
        && verify(Token(authorization.value)).value in st.usuarios
        && st.usuarios[verify(Token(authorization.value)).value].rol == Admin
    ensures var r := Atender(st, authorization, verify, ruta);
      !(authorization.Some? && StartsWith(authorization.value, Bearer)
        && verify(Token(authorization.value)).Some?
        && verify(Token(authorization.value)).value in st.usuarios
        && st.usuarios[verify(Token(authorization.value)).value].rol == Admin) ==>
        r.store == st && r.status in {401, 403}
  {
    GuardAdminOutcomes(authorization, verify, st.usuarios);
  }
}
