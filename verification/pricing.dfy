/** The pricing rule shared by the public order route and the checkout
    route: look up every item's product (the first unknown id aborts), price
    it at the sale price when that is truthy and at the base price otherwise,
    add up price times quantity in item order, and add a flat shipping fee
    below the free-shipping threshold. */
module Pricing {
  import opened Wrappers
  import opened Domain

  /** Orders whose subtotal reaches this many pesos ship free. */
  const EnvioGratisDesde: int := 50000
  /** The flat shipping fee below the threshold. */
  const CostoEnvio: int := 5000

  /** One element of the request's `items`. */
  datatype ItemInput = ItemInput(productoId: Id, cantidad: int, variante: Option<string>)

  datatype ErrorPedido = SinItems | ProductoNoEncontrado(id: Id)

  /** `producto.precioOferta || producto.precio`: a null or zero sale price
      falls back to the base price. */
  function UnitPrice(p: Producto): int {
    if p.precioOferta.Some? && p.precioOferta.value != 0 then p.precioOferta.value else p.precio
  }

  /** `producto.imagenes[0] || null`: a missing or empty first URL is null. */
  function FirstImage(p: Producto): Option<string> {
    if |p.imagenes| > 0 && p.imagenes[0] != "" then Some(p.imagenes[0]) else None
  }

  /** The line item recorded for `it`, priced from `p`, under `nombre`. */
  function Snapshot(p: Producto, it: ItemInput, nombre: string): ItemPedido {
    ItemPedido(p.id, nombre, UnitPrice(p), it.cantidad, FirstImage(p))
  }

  /** `items[k]` is the first item whose product is unknown. */
  predicate FirstMissing(catalogo: map<Id, Producto>, items: seq<ItemInput>, k: int) {
    && 0 <= k < |items|
    && items[k].productoId !in catalogo
    && forall j :: 0 <= j < k ==> items[j].productoId in catalogo
  }

  /** Looks the items' products up in order, stopping at the first unknown
      id. */
  function Resolve(catalogo: map<Id, Producto>, items: seq<ItemInput>): (r: Result<seq<Producto>, Id>)
    ensures r.Success? <==> forall i :: 0 <= i < |items| ==> items[i].productoId in catalogo
    ensures r.Success? ==>
      && |r.value| == |items|
      && forall i :: 0 <= i < |items| ==> r.value[i] == catalogo[items[i].productoId]
    ensures r.Failure? ==> exists k :: FirstMissing(catalogo, items, k) && r.error == items[k].productoId
  {
    if items == [] then Success([])
    else if items[0].productoId !in catalogo then
      assert FirstMissing(catalogo, items, 0);
      Failure(items[0].productoId)
    else
      match Resolve(catalogo, items[1..])
      case Failure(id) =>
        var k :| FirstMissing(catalogo, items[1..], k) && id == items[1..][k].productoId;
        assert FirstMissing(catalogo, items, k + 1);
        Failure(id)
      case Success(ps) =>
        assert forall i :: 1 <= i < |items| ==> items[i] == items[1..][i - 1];
        Success([catalogo[items[0].productoId]] + ps)
  }

  /** The running total of the handlers' loop: price times quantity, added
      in item order. */
  function Subtotal(lineas: seq<ItemPedido>): int {
    if lineas == [] then 0
    else
      var n := |lineas| - 1;
      Subtotal(lineas[..n]) + lineas[n].precio * lineas[n].cantidad
  }

  /** `subtotal >= 50000 ? 0 : 5000`. */
  function Envio(subtotal: int): int {
    if subtotal >= EnvioGratisDesde then 0 else CostoEnvio
  }

  /** The priced request: the resolved products and the three amounts. */
  datatype Cotizacion = Cotizacion(productos: seq<Producto>, lineas: seq<ItemPedido>, subtotal: int, envio: int, total: int)

  /** The invariant of an order's amounts: the subtotal is the sum of its
      line items, shipping follows the threshold rule, the total adds them. */
  predicate Priced(lineas: seq<ItemPedido>, subtotal: int, envio: int, total: int) {
    && subtotal == Subtotal(lineas)
    && (envio == 0 <==> subtotal >= EnvioGratisDesde)
    && (envio != 0 ==> envio == CostoEnvio)
    && total == subtotal + envio
  }

  /** Validates and prices the request's items. Line names are the product
      names; the routes rename them where they differ. */
  function Cotizar(catalogo: map<Id, Producto>, items: Option<seq<ItemInput>>): (r: Result<Cotizacion, ErrorPedido>)
    ensures (items.None? || items.value == []) ==> r == Failure(SinItems)
    ensures items.Some? && items.value != [] ==>
      (r.Failure? <==> exists k :: FirstMissing(catalogo, items.value, k))
    ensures r.Failure? && r.error.ProductoNoEncontrado? ==>
      exists k :: FirstMissing(catalogo, items.value, k) && r.error.id == items.value[k].productoId
    ensures r.Success? ==>
      && items.Some? && items.value != []
      && |r.value.productos| == |items.value| == |r.value.lineas|
      && (forall i :: 0 <= i < |items.value| ==> items.value[i].productoId in catalogo)
      && (forall i :: 0 <= i < |items.value| ==>
            && r.value.productos[i] == catalogo[items.value[i].productoId]
            && r.value.lineas[i] == Snapshot(r.value.productos[i], items.value[i], r.value.productos[i].nombre))
      && Priced(r.value.lineas, r.value.subtotal, r.value.envio, r.value.total)
  {
    if items.None? || items.value == [] then Failure(SinItems)
    else
      var its := items.value;
      match Resolve(catalogo, its)
      case Failure(id) =>
        MissingHasFirst(catalogo, its);
        Failure(ProductoNoEncontrado(id))
      case Success(ps) =>
        Success(Quote(ps, its))
  }

  /** Prices resolved products: one snapshot per item, then the amounts. */
  function Quote(ps: seq<Producto>, its: seq<ItemInput>): (c: Cotizacion)
    requires |ps| == |its|
    ensures c.productos == ps && |c.lineas| == |its|
    ensures forall i :: 0 <= i < |its| ==> c.lineas[i] == Snapshot(ps[i], its[i], ps[i].nombre)
    ensures Priced(c.lineas, c.subtotal, c.envio, c.total)
  {
    var lineas := seq(|its|, i requires 0 <= i < |its| => Snapshot(ps[i], its[i], ps[i].nombre));
    var subtotal := Subtotal(lineas);
    var envio := Envio(subtotal);
    Cotizacion(ps, lineas, subtotal, envio, subtotal + envio)
  }

  /** Some item's product is unknown, so there is a first such item. */
  lemma MissingHasFirst(catalogo: map<Id, Producto>, items: seq<ItemInput>)
    requires exists j :: 0 <= j < |items| && items[j].productoId !in catalogo
    ensures exists k :: FirstMissing(catalogo, items, k)
  {
    var j :| 0 <= j < |items| && items[j].productoId !in catalogo;
    NoFirstMissing(catalogo, items, j);
  }

  lemma {:induction false} NoFirstMissing(catalogo: map<Id, Producto>, items: seq<ItemInput>, j: int)
    requires 0 <= j < |items| && items[j].productoId !in catalogo
    ensures exists k :: FirstMissing(catalogo, items, k)
    decreases j
  {
    if !FirstMissing(catalogo, items, j) {
      var i :| 0 <= i < j && items[i].productoId !in catalogo;
      NoFirstMissing(catalogo, items, i);
    }
  }

  /** Sums over concatenated item lists add. */
  lemma {:induction false} SubtotalAppend(a: seq<ItemPedido>, b: seq<ItemPedido>)
    ensures Subtotal(a + b) == Subtotal(a) + Subtotal(b)
    decreases |b|
  {
    if b == [] {
      assert a + b == a;
    } else {
      var n := |b| - 1;
      assert (a + b)[..|a + b| - 1] == a + b[..n];
      assert (a + b)[|a + b| - 1] == b[n];
      SubtotalAppend(a, b[..n]);
    }
  }

  /** The subtotal does not depend on which part of the cart comes first. */
  lemma SubtotalOrderIndependent(a: seq<ItemPedido>, b: seq<ItemPedido>)
    ensures Subtotal(a + b) == Subtotal(b + a)
  {
    SubtotalAppend(a, b);
    SubtotalAppend(b, a);
  }

  /** The amounts of a priced order: the total never falls below the
      subtotal, exceeds it by at most the fee, and is not monotone in the
      subtotal: just below the threshold the customer pays more than at it. */
  lemma PricedBounds(lineas: seq<ItemPedido>, subtotal: int, envio: int, total: int)
    requires Priced(lineas, subtotal, envio, total)
    ensures subtotal <= total <= subtotal + CostoEnvio
    ensures EnvioGratisDesde - CostoEnvio < subtotal < EnvioGratisDesde ==> total > EnvioGratisDesde
  {
  }

  /** The worked example: two units of a product priced 20000 without a sale
      price cost 40000, below the threshold, so 45000 with shipping. */
  lemma ExampleBelowThreshold(p: Producto)
    requires p.precio == 20000 && p.precioOferta.None?
    ensures var r := Cotizar(map[p.id := p], Some([ItemInput(p.id, 2, None)]));
      r.Success? && r.value.subtotal == 40000 && r.value.envio == 5000 && r.value.total == 45000
  {
    var r := Cotizar(map[p.id := p], Some([ItemInput(p.id, 2, None)]));
    var l := r.value.lineas;
    assert l[..0] == [];
    assert Subtotal(l) == 40000;
  }

  /** A sale price of zero is falsy, so the base price applies. */
  lemma ZeroSalePriceFallsBack(p: Producto)
    requires p.precioOferta == Some(0)
    ensures UnitPrice(p) == p.precio
  {
  }
}
