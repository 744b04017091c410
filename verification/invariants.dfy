/** Properties of the store across routes: every order-writing route keeps
    the orders consistent, and the dashboard counts move as the routes say. */
module Invariants {
  import opened Wrappers
  import opened Domain
  import opened PublicRoutes
  import opened Pagos
  import opened Admin

  /** Every order is stored under its own id and its amounts agree with its
      line items. */
  predicate Consistente(st: Store) {
    forall id :: id in st.pedidos ==> st.pedidos[id].id == id && PedidoPriced(st.pedidos[id])
  }

  lemma WriteKeepsConsistency(st: Store, st': Store, id: Id)
    requires Consistente(st) && WritesOrder(st, st', id)
    requires st'.pedidos[id].id == id && PedidoPriced(st'.pedidos[id])
    ensures Consistente(st')
  {
  }

  /** Placing an order keeps the store consistent. */
  lemma PedidoKeepsConsistency(st: Store, req: PedidoRequest, alta: Alta)
    requires alta.id !in st.pedidos && Consistente(st)
    ensures Consistente(CrearPedido(st, req, alta).store)
  {
  }

  /** Checkout keeps the store consistent, whatever the provider answers. */
  lemma CheckoutKeepsConsistency(st: Store, req: PedidoRequest, alta: Alta, env: Entorno,
                                 proveedor: PreferenceBody -> Option<PreferenciaCreada>)
    requires alta.id !in st.pedidos && Consistente(st)
    ensures Consistente(CrearPreferencia(st, req, alta, env, proveedor).store)
  {
    var c := CrearPreferencia(st, req, alta, env, proveedor);
    if c.enviada.Some? {
      WriteKeepsConsistency(st, c.store, alta.id);
    }
  }

  /** The webhook keeps the store consistent. */
  lemma WebhookKeepsConsistency(st: Store, n: Notificacion, consultar: string -> Option<InfoPago>)
    requires Consistente(st)
    ensures Consistente(Webhook(st, n, consultar).store)
  {
    WebhookKeepsOrders(st, n, consultar);
  }

  /** Every admin request keeps the store consistent. */
  lemma AdminKeepsConsistency(st: Store, authorization: Option<string>, verify: string -> Option<Id>, ruta: Ruta)
    requires Fresca(st, ruta) && Consistente(st)
    ensures Consistente(Atender(st, authorization, verify, ruta).store)
  {
    var r := Atender(st, authorization, verify, ruta);
    if ruta.PedidoPut? && r.store != st {
      var h := ActualizarPedido(st, ruta.pedidoId, ruta.estado);
      WriteKeepsConsistency(st, h.store, ruta.pedidoId);
    } else {
      assert r.store.pedidos == st.pedidos;
    }
  }

  /** A checkout order waits for payment: it adds one to the order count
      and nothing to the pending count. */
  lemma StatsAfterCheckout(st: Store, req: PedidoRequest, alta: Alta, env: Entorno,
                           proveedor: PreferenceBody -> Option<PreferenciaCreada>)
    requires alta.id !in st.pedidos
    requires CrearPreferencia(st, req, alta, env, proveedor).enviada.Some?
    ensures var r := Stats(CrearPreferencia(st, req, alta, env, proveedor).store);
      && r.totalPedidos == Stats(st).totalPedidos + 1
      && r.pedidosPendientes == Stats(st).pedidosPendientes
  {
    var c := CrearPreferencia(st, req, alta, env, proveedor);
    InsertCounts(st, alta.id, c.store.pedidos[alta.id]);
  }

  /** The webhook never changes the order count and never adds a pending
      order. */
  lemma StatsAfterWebhook(st: Store, n: Notificacion, consultar: string -> Option<InfoPago>)
    ensures var r := Stats(Webhook(st, n, consultar).store);
      && r.totalPedidos == Stats(st).totalPedidos
      && r.pedidosPendientes <= Stats(st).pedidosPendientes
  {
    var a := Webhook(st, n, consultar);
    if a.store != st {
      var id := n.dataId.value;
      var info := consultar(id).value;
      var ref := info.externalReference.value;
      var e := EstadoPorPago(info.status).value;
      ReplaceCounts(st, ref, a.store.pedidos[ref]);
    }
  }
}
