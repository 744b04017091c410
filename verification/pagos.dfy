/** The payment routes of src/routes/pagos.ts: checkout (create a
    pending-payment order and a payment-provider preference for it), the
    provider's webhook, and the order status query. The provider's
    `preference.create` and `payment.get` are oracle parameters. */
module Pagos {
  import opened Wrappers
  import opened Domain
  import opened Pricing
  import opened PublicRoutes

  // ---------------------------------------------------------------------------
  // POST /crear-preferencia
  // ---------------------------------------------------------------------------

  /** `FRONTEND_URL` and `BACKEND_URL` from the environment. */
  datatype Entorno = Entorno(frontendUrl: Option<string>, backendUrl: Option<string>)

  datatype MpItem = MpItem(id: string, title: string, quantity: int, unitPrice: int, currencyId: string, pictureUrl: Option<string>)

  datatype Payer = Payer(
    name: string, surname: string, email: string, phone: string,
    identificationType: string, identificationNumber: string,
    streetName: string, zipCode: string)

  datatype BackUrls = BackUrls(success: string, failure: string, pending: string)

  /** The body sent to the provider's `preference.create`. */
  datatype PreferenceBody = PreferenceBody(
    items: seq<MpItem>,
    payer: Payer,
    backUrls: BackUrls,
    autoReturn: string,
    externalReference: Id,
    notificationUrl: string,
    statementDescriptor: string)

  /** The provider's reply to `preference.create`. */
  datatype PreferenciaCreada = PreferenciaCreada(id: string, initPoint: string, sandboxInitPoint: string)

  datatype CheckoutBody = CheckoutBody(pedidoId: Id, numeroPedido: int, initPoint: string, sandboxInitPoint: string)

  /** The reply, the store afterwards, and the preference body the handler
      sent to the provider, if it got that far. */
  datatype Checkout = Checkout(response: Response<CheckoutBody>, store: Store, enviada: Option<PreferenceBody>)

  /** `x || ''`. */
  function OrEmpty(s: Option<string>): string {
    if Truthy(s) then s.value else ""
  }

  /** The order item's name: ` (variante)` appended when a variant is given. */
  function NombreConVariante(p: Producto, it: ItemInput): string {
    p.nombre + (if Truthy(it.variante) then " (" + it.variante.value + ")" else "")
  }

  /** The provider item's title: ` - variante` appended when a variant is
      given. */
  function TituloConVariante(p: Producto, it: ItemInput): string {
    p.nombre + (if Truthy(it.variante) then " - " + it.variante.value else "")
  }

  function ItemMp(p: Producto, it: ItemInput): MpItem {
    MpItem(p.id, TituloConVariante(p, it), it.cantidad, UnitPrice(p), "ARS", FirstImage(p))
  }

  /** The synthetic provider line that charges shipping. */
  function ItemEnvio(envio: int): MpItem {
    MpItem("envio", "Costo de Envío", 1, envio, "ARS", None)
  }

  /** The provider item list: one line per item, then the shipping line when
      shipping is charged. */
  function ItemsMp(ps: seq<Producto>, its: seq<ItemInput>, envio: int): (r: seq<MpItem>)
    requires |ps| == |its|
    ensures |r| == |its| + (if envio > 0 then 1 else 0)
    ensures forall i :: 0 <= i < |its| ==> r[i] == ItemMp(ps[i], its[i])
    ensures envio > 0 ==> r[|its|] == ItemEnvio(envio)
  {
    seq(|its|, i requires 0 <= i < |its| => ItemMp(ps[i], its[i]))
      + (if envio > 0 then [ItemEnvio(envio)] else [])
  }

  /** What the provider charges: quantity times unit price over its lines. */
  function Charged(items: seq<MpItem>): int {
    if items == [] then 0
    else
      var n := |items| - 1;
      Charged(items[..n]) + items[n].quantity * items[n].unitPrice
  }

  function FrontendUrl(env: Entorno): string {
    if Truthy(env.frontendUrl) then env.frontendUrl.value else "https://grana3d.com"
  }

  function NotificationUrl(env: Entorno): string {
    (if Truthy(env.backendUrl) then env.backendUrl.value else "https://api.grana3d.com") + "/api/pagos/webhook"
  }

  function PayerOf(c: Cliente): Payer {
    Payer(OrEmpty(c.nombre), OrEmpty(c.apellido), OrEmpty(c.email), OrEmpty(c.telefono),
          "DNI", OrEmpty(c.dni), OrEmpty(c.direccion), OrEmpty(c.codigoPostal))
  }

  /** The three return URLs of the storefront at `base`, each carrying the
      order id. */
  function Retorno(base: string, id: Id): BackUrls
  {
    BackUrls(base + "/checkout/exito?pedido=" + id,
             base + "/checkout/fallido?pedido=" + id,
             base + "/checkout/pendiente?pedido=" + id)
  }

  /** The preference for order `o`: its items, the payer, the three return
      URLs carrying the order id, and the order id as external reference. */
  function PreferenceFor(o: Pedido, items: seq<MpItem>, env: Entorno): PreferenceBody {
    var base := FrontendUrl(env);
    PreferenceBody(
      items,
      PayerOf(o.cliente),
      Retorno(base, o.id),
      "approved",
      o.id,
      NotificationUrl(env),
      "GRANA3D")
  }

  /** The checkout order: a pending-payment order paid through the provider,
      its items named with their variants. */
  function PedidoCheckout(req: PedidoRequest, q: Cotizacion, alta: Alta): (o: Pedido)
    requires req.items.Some? && |q.productos| == |req.items.value|
  {
    var its := req.items.value;
    var lineas := seq(|its|, i requires 0 <= i < |its| => Snapshot(q.productos[i], its[i], NombreConVariante(q.productos[i], its[i])));
    Pedido(alta.id, alta.numero, req.usuarioId, req.cliente, q.subtotal, q.envio, q.total,
           PendientePago, Some("MERCADOPAGO"), lineas, None, None, alta.creado)
  }

  /** Checkout. `proveedor` is the provider's `preference.create`: `None`
      when the call fails. */
  function CrearPreferencia(st: Store, req: PedidoRequest, alta: Alta, env: Entorno,
                            proveedor: PreferenceBody -> Option<PreferenciaCreada>): (c: Checkout)
    requires alta.id !in st.pedidos
    ensures c.response.status in {200, 400, 500}
    ensures c.enviada.None? ==> c.store == st && c.response.status != 200
    ensures c.enviada.Some? <==>
      && req.items.Some? && req.items.value != []
      && (forall i :: 0 <= i < |req.items.value| ==> req.items.value[i].productoId in st.productos)
      && (req.usuarioId.Some? ==> req.usuarioId.value in st.usuarios)
    ensures c.enviada.Some? ==>
      && WritesOrder(st, c.store, alta.id)
      && c.store.pedidos[alta.id].id == alta.id
      && CheckoutOrder(st, req, c.store.pedidos[alta.id])
      && PreferenceSent(st, req, c.store.pedidos[alta.id], env, c.enviada.value)
      && Settled(c, proveedor(c.enviada.value), alta)
  {
    match Cotizar(st.productos, req.items)
    case Failure(e) =>
      Checkout(Error(400, Mensaje400(e, "Debe haber al menos un producto")), st, None)
    case Success(q) =>
      Tramitar(st, req, q, alta, env, proveedor)
  }

  /** Checkout rejects an empty item list, and an unknown product naming the
      first one, with a 400 that sends nothing and changes nothing. */
  lemma CheckoutRejects(st: Store, req: PedidoRequest, alta: Alta, env: Entorno,
                        proveedor: PreferenceBody -> Option<PreferenciaCreada>)
    requires alta.id !in st.pedidos
    ensures req.items.None? || req.items.value == [] ==>
      CrearPreferencia(st, req, alta, env, proveedor) == Checkout(Error(400, "Debe haber al menos un producto"), st, None)
    ensures req.items.Some? ==> forall k :: FirstMissing(st.productos, req.items.value, k) ==>
      CrearPreferencia(st, req, alta, env, proveedor)
        == Checkout(Error(400, "Producto " + req.items.value[k].productoId + " no encontrado"), st, None)
  {
    FirstMissingUnique(st.productos, if req.items.Some? then req.items.value else []);
  }

  /** Checkout past a successful quote `q`: the customer reference must
      exist, then the order is registered and the preference sent. */
  function Tramitar(st: Store, req: PedidoRequest, q: Cotizacion, alta: Alta, env: Entorno,
                    proveedor: PreferenceBody -> Option<PreferenciaCreada>): (c: Checkout)
    requires alta.id !in st.pedidos
    requires req.items.Some? && |q.productos| == |req.items.value| == |q.lineas| > 0
    requires forall i :: 0 <= i < |req.items.value| ==> req.items.value[i].productoId in st.productos
    requires forall i :: 0 <= i < |req.items.value| ==>
      && q.productos[i] == st.productos[req.items.value[i].productoId]
      && q.lineas[i] == Snapshot(q.productos[i], req.items.value[i], q.productos[i].nombre)
    requires Priced(q.lineas, q.subtotal, q.envio, q.total)
    ensures c.enviada.None? <==> req.usuarioId.Some? && req.usuarioId.value !in st.usuarios
    ensures c.enviada.None? ==> c == Checkout(Error(500, "Error al procesar el pago"), st, None)
    ensures c.enviada.Some? ==>
      && c.response.status in {200, 500}
      && WritesOrder(st, c.store, alta.id)
      && c.store.pedidos[alta.id].id == alta.id
      && CheckoutOrder(st, req, c.store.pedidos[alta.id])
      && PreferenceSent(st, req, c.store.pedidos[alta.id], env, c.enviada.value)
      && Settled(c, proveedor(c.enviada.value), alta)
  {
    if req.usuarioId.Some? && req.usuarioId.value !in st.usuarios then
      Checkout(Error(500, "Error al procesar el pago"), st, None)
    else
      var o := PedidoCheckout(req, q, alta);
      CheckoutOrderOf(st, req, q, alta);
      var body := PreferenceFor(o, ItemsMp(q.productos, req.items.value, o.envio), env);
      PreferenceSentFor(st, req, q.productos, o, env);
      var c := Registrar(st, o, body, alta, proveedor);
      RecordPreference(st, req, o, c.store.pedidos[alta.id], env, body);
      c
  }

  /** The checkout order for `req` as recorded: pending payment through the
      provider, one snapshot per item named with its variant, amounts
      consistent with the items. */
  predicate CheckoutOrder(st: Store, req: PedidoRequest, o: Pedido)
    requires req.items.Some?
    requires forall i :: 0 <= i < |req.items.value| ==> req.items.value[i].productoId in st.productos
  {
    var items := req.items.value;
    && o.estado == PendientePago && o.metodoPago == Some("MERCADOPAGO")
    && o.usuarioId == req.usuarioId && o.cliente == req.cliente && o.paymentId.None?
    && PedidoPriced(o)
    && |o.items| == |items|
    && (forall i :: 0 <= i < |items| ==>
          var p := st.productos[items[i].productoId];
          o.items[i] == Snapshot(p, items[i], NombreConVariante(p, items[i])))
  }

  /** The preference sent for order `o`: the order id as external reference
      and in every return URL, one provider line per item with the item's
      title, quantity and unit price, and a shipping line exactly when
      shipping is charged. */
  predicate PreferenceSent(st: Store, req: PedidoRequest, o: Pedido, env: Entorno, b: PreferenceBody)
    requires req.items.Some?
    requires forall i :: 0 <= i < |req.items.value| ==> req.items.value[i].productoId in st.productos
  {
    var items := req.items.value;
    && b.externalReference == o.id
    && b.backUrls == Retorno(FrontendUrl(env), o.id)
    && b.notificationUrl == NotificationUrl(env)
    && b.payer == PayerOf(req.cliente)
    && |b.items| == |items| + (if o.envio > 0 then 1 else 0)
    && (forall i :: 0 <= i < |items| ==>
          var p := st.productos[items[i].productoId];
          b.items[i] == MpItem(p.id, TituloConVariante(p, items[i]), items[i].cantidad, UnitPrice(p), "ARS", FirstImage(p)))
    && (o.envio > 0 ==> b.items[|items|] == ItemEnvio(o.envio))
  }

  /** How the checkout ends once the order exists: a provider failure is a
      500 that leaves the order without a preference id; a created
      preference is recorded on the order and its checkout links returned. */
  predicate Settled(c: Checkout, pref: Option<PreferenciaCreada>, alta: Alta)
    requires alta.id in c.store.pedidos
  {
    var o := c.store.pedidos[alta.id];
    match pref
    case None => c.response == Error(500, "Error al procesar el pago") && o.preferenceId.None?
    case Some(p) =>
      && c.response == Ok(CheckoutBody(alta.id, alta.numero, p.initPoint, p.sandboxInitPoint))
      && o.preferenceId == Some(p.id)
  }

  /** The part of the checkout after validation: persist the checkout order
      `o`, send the preference `body`, record the created preference's id. */
  function Registrar(st: Store, o: Pedido, body: PreferenceBody, alta: Alta,
                     proveedor: PreferenceBody -> Option<PreferenciaCreada>): (c: Checkout)
    requires o.id == alta.id && o.numero == alta.numero && o.preferenceId.None?
    ensures c.enviada == Some(body) && c.response.status in {200, 500}
    ensures WritesOrder(st, c.store, alta.id)
    ensures c.store.pedidos[alta.id] == o.(preferenceId := c.store.pedidos[alta.id].preferenceId)
    ensures Settled(c, proveedor(body), alta)
  {
    match proveedor(body)
    case None =>
      Checkout(Error(500, "Error al procesar el pago"), st.(pedidos := st.pedidos[alta.id := o]), Some(body))
    case Some(pref) =>
      Checkout(Ok(CheckoutBody(o.id, o.numero, pref.initPoint, pref.sandboxInitPoint)),
               st.(pedidos := st.pedidos[alta.id := o.(preferenceId := Some(pref.id))]), Some(body))
  }

  /** The order built from a validated quote is a checkout order. */
  lemma CheckoutOrderOf(st: Store, req: PedidoRequest, q: Cotizacion, alta: Alta)
    requires req.items.Some? && |q.productos| == |req.items.value| == |q.lineas| > 0
    requires forall i :: 0 <= i < |req.items.value| ==> req.items.value[i].productoId in st.productos
    requires forall i :: 0 <= i < |req.items.value| ==>
      && q.productos[i] == st.productos[req.items.value[i].productoId]
      && q.lineas[i] == Snapshot(q.productos[i], req.items.value[i], q.productos[i].nombre)
    requires Priced(q.lineas, q.subtotal, q.envio, q.total)
    ensures CheckoutOrder(st, req, PedidoCheckout(req, q, alta))
    ensures var o := PedidoCheckout(req, q, alta);
      o.id == alta.id && o.numero == alta.numero && o.preferenceId.None?
  {
    CheckoutPriced(req, q, alta);
  }

  /** The preference built for a checkout order is the one the handler
      promises to send. */
  lemma PreferenceSentFor(st: Store, req: PedidoRequest, ps: seq<Producto>, o: Pedido, env: Entorno)
    requires req.items.Some? && |ps| == |req.items.value|
    requires forall i :: 0 <= i < |req.items.value| ==> req.items.value[i].productoId in st.productos
    requires forall i :: 0 <= i < |req.items.value| ==> ps[i] == st.productos[req.items.value[i].productoId]
    requires o.cliente == req.cliente
    ensures PreferenceSent(st, req, o, env, PreferenceFor(o, ItemsMp(ps, req.items.value, o.envio), env))
  {
  }

  /** Recording the preference id changes neither the checkout order's
      properties nor which preference was sent for it. */
  lemma RecordPreference(st: Store, req: PedidoRequest, o: Pedido, o': Pedido, env: Entorno, b: PreferenceBody)
    requires req.items.Some?
    requires forall i :: 0 <= i < |req.items.value| ==> req.items.value[i].productoId in st.productos
    requires o' == o.(preferenceId := o'.preferenceId)
    requires CheckoutOrder(st, req, o) && PreferenceSent(st, req, o, env, b)
    ensures CheckoutOrder(st, req, o') && PreferenceSent(st, req, o', env, b)
  {
  }

  /** Renaming the items does not change their prices or quantities, so the
      checkout order keeps the amounts of the quote. */
  lemma CheckoutPriced(req: PedidoRequest, q: Cotizacion, alta: Alta)
    requires req.items.Some? && |q.productos| == |req.items.value| == |q.lineas| > 0
    requires forall i :: 0 <= i < |q.lineas| ==> q.lineas[i] == Snapshot(q.productos[i], req.items.value[i], q.productos[i].nombre)
    requires Priced(q.lineas, q.subtotal, q.envio, q.total)
    ensures PedidoPriced(PedidoCheckout(req, q, alta))
  {
    var o := PedidoCheckout(req, q, alta);
    SubtotalSamePrices(o.items, q.lineas);
  }

  /** Two item lists with the same prices and quantities have the same
      subtotal. */
  lemma {:induction false} SubtotalSamePrices(a: seq<ItemPedido>, b: seq<ItemPedido>)
    requires |a| == |b|
    requires forall i :: 0 <= i < |a| ==> a[i].precio == b[i].precio && a[i].cantidad == b[i].cantidad
    ensures Subtotal(a) == Subtotal(b)
  {
    if a != [] {
      var n := |a| - 1;
      SubtotalSamePrices(a[..n], b[..n]);
    }
  }

  /** The provider charges the order's total: the item lines add up to the
      subtotal and the shipping line, present exactly when shipping is
      charged, adds the shipping. */
  lemma ChargedIsTotal(o: Pedido, mp: seq<MpItem>)
    requires PedidoPriced(o)
    requires |mp| == |o.items| + (if o.envio > 0 then 1 else 0)
    requires forall i :: 0 <= i < |o.items| ==> mp[i].quantity == o.items[i].cantidad && mp[i].unitPrice == o.items[i].precio
    requires o.envio > 0 ==> mp[|o.items|] == ItemEnvio(o.envio)
    ensures Charged(mp) == o.total
  {
    var n := |o.items|;
    ChargedLines(mp[..n], o.items);
    if o.envio > 0 {
      assert mp[..|mp| - 1] == mp[..n];
    }
  }

  /** What the provider is asked to charge for a checkout is the stored
      order's total: the item lines at the snapshot prices plus the
      shipping line. */
  lemma CheckoutChargesTotal(st: Store, req: PedidoRequest, alta: Alta, env: Entorno,
                             proveedor: PreferenceBody -> Option<PreferenciaCreada>)
    requires alta.id !in st.pedidos
    ensures var c := CrearPreferencia(st, req, alta, env, proveedor);
      c.enviada.Some? ==> Charged(c.enviada.value.items) == c.store.pedidos[alta.id].total
  {
    var c := CrearPreferencia(st, req, alta, env, proveedor);
    if c.enviada.Some? {
      var o := c.store.pedidos[alta.id];
      var mp := c.enviada.value.items;
      var items := req.items.value;
      assert CheckoutOrder(st, req, o) && PreferenceSent(st, req, o, env, c.enviada.value);
      forall i | 0 <= i < |o.items|
        ensures mp[i].quantity == o.items[i].cantidad && mp[i].unitPrice == o.items[i].precio
      {
        var p := st.productos[items[i].productoId];
        assert o.items[i] == Snapshot(p, items[i], NombreConVariante(p, items[i]));
      }
      ChargedIsTotal(o, mp);
    }
  }

  lemma {:induction false} ChargedLines(mp: seq<MpItem>, lineas: seq<ItemPedido>)
    requires |mp| == |lineas|
    requires forall i :: 0 <= i < |mp| ==> mp[i].quantity == lineas[i].cantidad && mp[i].unitPrice == lineas[i].precio
    ensures Charged(mp) == Subtotal(lineas)
  {
    if mp != [] {
      var n := |mp| - 1;
      ChargedLines(mp[..n], lineas[..n]);
    }
  }

  /** The checkout and the public order route price a request identically:
      both accept the same requests, and the amounts and per-item prices and
      quantities agree. */
  lemma CheckoutAgreesWithPublicOrder(st: Store, req: PedidoRequest, alta: Alta, env: Entorno,
                                      proveedor: PreferenceBody -> Option<PreferenciaCreada>)
    requires alta.id !in st.pedidos
    ensures var c := CrearPreferencia(st, req, alta, env, proveedor);
      var h := CrearPedido(st, req, alta);
      && (c.enviada.Some? <==> h.response.status == 201)
      && (c.enviada.Some? && h.response.body.Success? ==>
            var o := c.store.pedidos[alta.id];
            var o' := h.response.body.value;
            && o.subtotal == o'.subtotal && o.envio == o'.envio && o.total == o'.total
            && |o.items| == |o'.items|
            && forall i :: 0 <= i < |o.items| ==>
                 o.items[i].precio == o'.items[i].precio && o.items[i].cantidad == o'.items[i].cantidad)
  {
    var c := CrearPreferencia(st, req, alta, env, proveedor);
    var h := CrearPedido(st, req, alta);
    if c.enviada.Some? && h.response.body.Success? {
      var o := c.store.pedidos[alta.id];
      var o' := h.response.body.value;
      SubtotalSamePrices(o.items, o'.items);
    }
  }

  // ---------------------------------------------------------------------------
  // POST /webhook
  // ---------------------------------------------------------------------------

  /** The notification body: its `type` and its `data.id` (`None` when the
      body has no `data`). */
  datatype Notificacion = Notificacion(tipo: Option<string>, dataId: Option<string>)

  /** The provider's `payment.get` reply: status and external reference. */
  datatype InfoPago = InfoPago(status: string, externalReference: Option<Id>)

  /** The order state a payment status moves the order to, if any. */
  function EstadoPorPago(status: string): (r: Option<Estado>)
    ensures r == Some(Confirmado) <==> status == "approved"
    ensures r == Some(Cancelado) <==> status == "rejected" || status == "cancelled"
    ensures r.Some? ==> r.value in {Confirmado, Cancelado}
  {
    if status == "approved" then Some(Confirmado)
    else if status == "rejected" || status == "cancelled" then Some(Cancelado)
    else None
  }

  /** The acknowledgement status and the store afterwards. */
  datatype Ack = Ack(status: nat, store: Store)

  /** The order `ref` moved to `e`, with the payment id recorded; nothing
      else in the store changes. */
  function Reconcile(st: Store, ref: Id, e: Estado, paymentId: string): Store
    requires ref in st.pedidos
  {
    st.(pedidos := st.pedidos[ref := st.pedidos[ref].(estado := e, paymentId := Some(paymentId))])
  }

  /** The webhook. `consultar` is the provider's `payment.get`: `None` when
      the call fails. */
  function Webhook(st: Store, n: Notificacion, consultar: string -> Option<InfoPago>): (a: Ack)
    ensures a.status in {200, 500}
    ensures a.status == 500 ==> a.store == st
    ensures n.tipo != Some("payment") ==> a == Ack(200, st)
    ensures n.tipo == Some("payment") && n.dataId.None? ==> a == Ack(500, st)
    ensures n.tipo == Some("payment") && n.dataId.Some? ==>
      var id := n.dataId.value;
      match consultar(id)
      case None => a == Ack(500, st)
      case Some(info) =>
        match EstadoPorPago(info.status)
        case None => a == Ack(200, st)
        case Some(e) =>
          if info.externalReference.Some? && info.externalReference.value in st.pedidos
          then a == Ack(200, Reconcile(st, info.externalReference.value, e, id))
          else a == Ack(500, st)
  {
    if n.tipo != Some("payment") then Ack(200, st)
    else if n.dataId.None? then Ack(500, st)
    else
      var id := n.dataId.value;
      match consultar(id)
      case None => Ack(500, st)
      case Some(info) =>
        match EstadoPorPago(info.status)
        case None => Ack(200, st)
        case Some(e) =>
          var ref := info.externalReference;
          if ref.None? || ref.value !in st.pedidos then Ack(500, st)
          else Ack(200, Reconcile(st, ref.value, e, id))
  }

  /** Delivering the same notification twice has the effect of delivering it
      once: the state written does not depend on the state found. */
  lemma WebhookIdempotent(st: Store, n: Notificacion, consultar: string -> Option<InfoPago>)
    ensures var a := Webhook(st, n, consultar);
      Webhook(a.store, n, consultar) == a
  {
  }

  /** The webhook never adds or removes orders, never touches another order
      or another table, and keeps every order's amounts consistent. */
  lemma WebhookKeepsOrders(st: Store, n: Notificacion, consultar: string -> Option<InfoPago>)
    ensures var a := Webhook(st, n, consultar);
      && OnlyPedidosChanged(st, a.store)
      && a.store.pedidos.Keys == st.pedidos.Keys
      && forall id :: id in st.pedidos ==>
           && a.store.pedidos[id].id == st.pedidos[id].id
           && a.store.pedidos[id].items == st.pedidos[id].items
           && a.store.pedidos[id].total == st.pedidos[id].total
           && (PedidoPriced(st.pedidos[id]) ==> PedidoPriced(a.store.pedidos[id]))
  {
  }

  /** The notification settles order `ref`: a payment whose lookup succeeds,
      whose status is decisive and whose reference is `ref`. */
  predicate Concilia(n: Notificacion, consultar: string -> Option<InfoPago>, ref: Id) {
    && n.tipo == Some("payment") && n.dataId.Some?
    && consultar(n.dataId.value).Some?
    && EstadoPorPago(consultar(n.dataId.value).value.status).Some?
    && consultar(n.dataId.value).value.externalReference == Some(ref)
  }

  // ---------------------------------------------------------------------------
  // GET /estado/:pedidoId
  // ---------------------------------------------------------------------------

  datatype EstadoPedido = EstadoPedido(id: Id, numero: int, estado: Estado, total: int, paymentId: Option<string>)

  /** The order's status summary, or 404 for an unknown id. */
  function ConsultarEstado(st: Store, pedidoId: Id): (r: Response<EstadoPedido>)
    ensures r.status == 200 <==> pedidoId in st.pedidos
    ensures pedidoId !in st.pedidos ==> r == Error(404, "Pedido no encontrado")
    ensures pedidoId in st.pedidos ==>
      var o := st.pedidos[pedidoId];
      r.body == Success(EstadoPedido(o.id, o.numero, o.estado, o.total, o.paymentId))
  {
    if pedidoId !in st.pedidos then Error(404, "Pedido no encontrado")
    else
      var o := st.pedidos[pedidoId];
      Ok(EstadoPedido(o.id, o.numero, o.estado, o.total, o.paymentId))
  }

  /** The status route after a webhook: an order the notification settles
      reports the state the payment status maps to and the notification's
      payment id; any other order reads exactly as before. Number and total
      never change. */
  lemma WebhookThenEstado(st: Store, n: Notificacion, consultar: string -> Option<InfoPago>, ref: Id)
    requires ref in st.pedidos
    ensures var r := ConsultarEstado(Webhook(st, n, consultar).store, ref);
      && r.status == 200
      && r.body.value.numero == st.pedidos[ref].numero
      && r.body.value.total == st.pedidos[ref].total
      && (Concilia(n, consultar, ref) ==>
            && r.body.value.estado == EstadoPorPago(consultar(n.dataId.value).value.status).value
            && r.body.value.paymentId == n.dataId)
      && (!Concilia(n, consultar, ref) ==> r == ConsultarEstado(st, ref))
  {
  }
}
