# grana3d-backend: a Dafny model of the shop's request logic

grana3d-backend is the REST backend of an online shop for 3D-printed
products. It is written in Express and Prisma. This project models the decisions its route
handlers make, as pure functions over an in-memory store:

- pricing and creation of an order, both by the public order route and by the
  MercadoPago checkout;
- the payment webhook that moves an order to `CONFIRMADO` or `CANCELADO`;
- slug derivation for categories and products;
- the public catalogue and configuration reads;
- the administrator's configuration, category, product and order maintenance
  and the dashboard counts;
- the authentication middleware (`verificarToken`, `soloAdmin`).

The store is a record of maps from primary key to row (`Domain.Store`). A
handler takes the store and the request fields and returns the reply (status
plus body or `{ error }` message) together with the store afterwards.
Listing routes receive the table's rows as a sequence already in the order the
query's `orderBy` asks for. The values the database assigns on insert arrive in
an `Alta` record: the id, the order number and the creation time. The
JSON Web Token verifier, MercadoPago's `preference.create` and its `payment.get`
are function parameters (oracles). Every property holds for all of
their behaviours.

Files:

- `wrappers.dfy`: `Option` and `Result`.
- `domain.dfy`: the rows, the order states, the reply shape.
- `text.dfy`: lower-casing, substring search, `split`, base 36.
- `slug.dfy`: the slug function.
- `config_table.dfy`: the key/value upsert fold.
- `listing.dfy`: row filtering and `take`.
- `pricing.dfy`: the pricing rule shared by both order routes.
- `public_routes.dfy`: `src/routes/public.ts`.
- `pagos.dfy`: `src/routes/pagos.ts`.
- `auth.dfy`: `src/middleware/auth.ts`.
- `admin.dfy`: `src/routes/admin.ts` and its guard.
- `invariants.dfy`: properties of the store that span routes.

Two points where the code does not do what its own text suggests; the model
follows the code:

- The route comment at `src/routes/pagos.ts:13` places checkout at
  `POST /api/pagos/crear-preferencia`. `src/index.ts` imports and mounts only
  the auth, public and admin routers (lines 7-9 and 27-29), never the payment
  router. The payment handlers are modelled as that router defines them.
- The seed data stores a free-shipping threshold and a shipping cost in the
  configuration table. Both order routes ignore them and use the constants
  50000 and 5000.

## Model

| member | source | states |
|---|---|---|
| Pricing.Resolve | src/routes/public.ts:105-109 | succeeds exactly when every item's product exists, giving each item's product in order; a failure names the first unknown product id |
| Pricing.Cotizar | src/routes/public.ts:97-124 | an absent or empty list fails with "no items"; it fails exactly when some product id is unknown, naming the first one; on success there is one snapshot line per item (product id, name, sale-or-base price, quantity, first image or null), the subtotal is the sum of the lines, shipping is 0 iff the subtotal is at least 50000 and 5000 otherwise, and the total is their sum |
| Pricing.SubtotalAppend | src/routes/public.ts:102-112 | the running subtotal of a concatenation is the sum of the subtotals of the parts |
| Pricing.SubtotalOrderIndependent | src/routes/public.ts:112 | the subtotal does not depend on the order of the line items |
| Pricing.PricedBounds | src/routes/public.ts:123-124 | the total lies between the subtotal and the subtotal plus 5000; a subtotal just under the threshold costs more in total than the threshold itself |
| Pricing.ExampleBelowThreshold | src/routes/public.ts:111-124 | two units at 20000 with no sale price give subtotal 40000, shipping 5000, total 45000 |
| Pricing.ZeroSalePriceFallsBack | src/routes/public.ts:111 | a sale price of 0 is falsy, so the base price is charged |
| ConfigTable.Upsert | src/routes/admin.ts:29-35 | the keys afterwards are the old keys plus the keys written; an unmentioned key keeps its value; a written key holds the value of the last entry for it |
| ConfigTable.UpsertIsOverride | src/routes/admin.ts:29-35 | writing entries over a map is the same as overriding the map with the fold of the entries alone |
| ConfigTable.ReadBackTable | src/routes/public.ts:9-11 | folding any listing of a key/value table rebuilds exactly that table |
| ConfigTable.LastOccurrence | src/routes/public.ts:11 | every key that occurs in the rows has a last row mentioning it |
| PublicRoutes.ConfigMap | src/routes/public.ts:9-11 | the configuration object has exactly the listed keys except `__proto__` (an assignment to it on a plain object goes to the prototype setter and is lost), each mapped to the value of its last row |
| PublicRoutes.ConfigMapOfStore | src/routes/public.ts:9-12 | reading the whole configuration table returns the stored configuration without a `__proto__` key, every other key with its stored value |
| PublicRoutes.ListCategorias | src/routes/public.ts:21-27 | only active categories, every active category, each with its count of active products, in ascending `orden` when the table is so ordered; for a table listing (no repeated row) no category gets two lines and there is exactly one line per active category |
| PublicRoutes.ActiveCounts | src/routes/public.ts:21-27 | for a table listing, the counted active categories never repeat and number exactly the active categories |
| PublicRoutes.ListProductos | src/routes/public.ts:39-62 | every result is an active product matching the category, featured and case-insensitive name-or-description filters; at most `limite` results; every matching product when there is no limit or fewer matches; newest first; for a table listing (no repeated row) no row repeats, the length is exactly the smaller of `limite` and the number of matches, and a match is never left out while a later row is listed, so the result is the newest `limite` matches |
| PublicRoutes.ListingShowsOnlyActive | src/routes/public.ts:39 | an inactive product is never listed |
| PublicRoutes.DetalleProducto | src/routes/public.ts:75-86 | 200 with the product iff it exists and is active, otherwise 404 "Producto no encontrado" |
| PublicRoutes.CrearPedido | src/routes/public.ts:97-155 | 201 iff the list is non-empty, every product exists and the customer reference is valid; otherwise the store is untouched; the new order is stored under its fresh id as `PENDIENTE` with no payment method, one snapshot line per item in order, and amounts consistent with the lines |
| PublicRoutes.PedidoRejects | src/routes/public.ts:97-109 | an empty list gives 400 "El pedido debe tener al menos un producto"; an unknown product gives 400 "Producto <id> no encontrado" naming the first unknown one; the store is unchanged in both cases |
| PublicRoutes.FirstMissingUnique | src/routes/public.ts:105-109 | the first unknown item is unique |
| Pagos.ItemsMp | src/routes/pagos.ts:58-108 | one provider line per item (product id, title with ` - variante`, quantity, unit price, ARS, first image), then one shipping line of quantity 1 priced at the shipping cost exactly when shipping is positive |
| Pagos.CrearPreferencia | src/routes/pagos.ts:31-161 | a preference is sent iff the list is non-empty, every product exists and the customer reference is valid; otherwise nothing is written and the reply is not 200; when sent, exactly one order is written under the fresh id as `PENDIENTE_PAGO` with method `MERCADOPAGO`, variant-named snapshot lines and consistent amounts; the preference carries the order id as external reference and in all three return URLs; a provider failure gives 500 and leaves the order without preference id, success records the preference id and returns the checkout links |
| Pagos.CheckoutRejects | src/routes/pagos.ts:31-44 | an empty list gives 400 "Debe haber al menos un producto"; an unknown product gives 400 naming the first one; nothing is sent or written |
| Pagos.Tramitar | src/routes/pagos.ts:72-161 | after a successful quote, an invalid customer reference is a 500 that sends nothing and writes nothing; otherwise the order is written and the preference sent |
| Pagos.Registrar | src/routes/pagos.ts:111-161 | the reply is 200 with the links and the preference id recorded when the provider answers, 500 with no preference id when it does not; the stored order is the checkout order in both cases |
| Pagos.CheckoutOrderOf | src/routes/pagos.ts:46-97 | the order built from the quote is a pending-payment MercadoPago order with the item names extended by ` (variante)` and consistent amounts |
| Pagos.RecordPreference | src/routes/pagos.ts:146-149 | recording the preference id changes no other property of the order |
| Pagos.CheckoutPriced | src/routes/pagos.ts:46-69 | renaming lines by variant keeps the amounts of the quote |
| Pagos.SubtotalSamePrices | src/routes/pagos.ts:47-51 | line lists with equal prices and quantities have equal subtotals |
| Pagos.ChargedIsTotal | src/routes/pagos.ts:58-108 | what the provider charges (quantity times unit price over its lines) equals the order's total |
| Pagos.CheckoutChargesTotal | src/routes/pagos.ts:58-123 | the preference a checkout sends charges exactly the total of the order it stores |
| Pagos.ChargedLines | src/routes/pagos.ts:58-65 | the provider lines of the items charge exactly the subtotal |
| Pagos.CheckoutAgreesWithPublicOrder | src/routes/pagos.ts:40-69 | checkout accepts exactly the requests the public order route accepts and computes the same subtotal, shipping, total and per-line prices and quantities |
| Pagos.EstadoPorPago | src/routes/pagos.ts:180-202 | `approved` maps to `CONFIRMADO`, `rejected` and `cancelled` to `CANCELADO`, any other status to no change |
| Pagos.Webhook | src/routes/pagos.ts:167-210 | a non-payment notification is 200 with no change; a missing `data` or a failing provider lookup is 500 with no change; an unrecognised status is 200 with no change; otherwise the referenced order gets the new state and the payment id, or 500 when the reference is absent or unknown |
| Pagos.WebhookIdempotent | src/routes/pagos.ts:184-202 | delivering a notification twice leaves the store as delivering it once |
| Pagos.WebhookKeepsOrders | src/routes/pagos.ts:184-202 | the webhook adds and removes no order, touches no other table, and keeps every order's id, items, total and price consistency |
| Pagos.ConsultarEstado | src/routes/pagos.ts:216-233 | 200 with id, number, state, total and payment id iff the order exists, otherwise 404 "Pedido no encontrado" |
| Pagos.WebhookThenEstado | src/routes/pagos.ts:184-233 | after a webhook, the status of an order the notification settles is the state the payment status maps to with the notification's payment id; any other order's status reads as before; number and total never change |
| Auth.Token | src/middleware/auth.ts:21 | the token is the header's second space-separated segment and contains no space |
| Auth.BearerSplits | src/middleware/auth.ts:17-21 | a header starting with `Bearer ` has a second segment, the first piece of what follows `Bearer ` |
| Auth.TokenAfterBearer | src/middleware/auth.ts:21 | the token is the text after `Bearer ` up to the next space or the end |
| Auth.VerificarToken | src/middleware/auth.ts:13-38 | every rejection is a 401; a missing or non-bearer header gives "Token no proporcionado", a failed verification "Token inválido", an unknown user "Usuario no encontrado"; it passes iff the token verifies to a registered user, with that user's id, email and role |
| Auth.MalformedHeaderSkipsLookup | src/middleware/auth.ts:17-19 | a missing or malformed header is rejected whatever the verifier and the users are, so neither is consulted |
| Auth.SesionOfRegisteredUser | src/middleware/auth.ts:24-34 | a passing session is the id, email and role of a stored user |
| Auth.SoloAdmin | src/middleware/auth.ts:40-45 | passes iff there is a session with the admin role, otherwise 403 "Acceso denegado. Solo administradores." |
| Auth.GuardAdmin | src/routes/admin.ts:8 | every rejection is 401 or 403; a pass carries the admin role |
| Auth.GuardAdminOutcomes | src/routes/admin.ts:8 | 401 exactly when authentication fails, 403 exactly when an authenticated user is not an administrator, pass exactly for an administrator |
| Admin.Aceptadas | src/routes/admin.ts:29-35 | the entries written before the first rejected one |
| Admin.PutConfig | src/routes/admin.ts:25-41 | a non-list is a 500 with no change; otherwise the accepted prefix is upserted (keys added, unmentioned keys kept, last entry wins), only the configuration table changes, and the reply is "Configuración actualizada" iff every entry was accepted |
| Admin.PutConfigThenRead | src/routes/admin.ts:29-35 | after a write the public configuration read returns the old configuration overridden by the entries written before any rejected one (all of them when none is rejected), the last entry for a key winning |
| Admin.CrearCategoria | src/routes/admin.ts:61-73 | 201 iff a name is given and its slug is free; the category stored under the fresh id has that name, the slug of the name (a valid slug), the given fields, `orden` 0 by default, and is active; otherwise 500 with no change |
| Admin.CrearCategoriaKeepsSlugsUnique | src/routes/admin.ts:64-67 | category slugs stay unique |
| Admin.ActualizarCategoria | src/routes/admin.ts:76-87 | an unknown id is a 500 with no change; otherwise each of name, description, icon, colour, order and active flag takes the given value when sent and keeps the stored one when absent, and the id, slug and image never change |
| Admin.EmptyCategoriaPatch | src/routes/admin.ts:78-82 | an update with no fields leaves the store unchanged |
| Admin.EliminarCategoria | src/routes/admin.ts:90-97 | an unknown id is a 500 with no change; otherwise exactly that category is removed |
| Admin.DeletedCategoryUnlisted | src/routes/admin.ts:90-97 | a deleted category appears in neither the public nor the admin category listing of the remaining table |
| Admin.ListCategoriasAdmin | src/routes/admin.ts:50-54 | every category in order, each with the count of all its products |
| Admin.PublicCountAtMostAdminCount | src/routes/admin.ts:52 | a category's public count of active products never exceeds its admin count |
| Admin.CrearProducto | src/routes/admin.ts:117-137 | 201 iff name, price and an existing category are given and the product slug is free; the stored product has the name's slug plus `-` plus the base-36 time, the given description, prices, category and pass-through details, images defaulting to empty, stock 0 and not featured by default, and is active; otherwise 500 with no change |
| Admin.CreatedProductSlug | src/routes/admin.ts:120 | a created product's slug is its name's slug, a dash, and a suffix that reads back as the creation time |
| Admin.ActualizarProducto | src/routes/admin.ts:140-151 | 200 iff the product exists and any new category exists; each of name, description, price, sale price, stock, images, featured flag, active flag and category takes the given value when sent and keeps the stored one when absent; id, slug, creation time and pass-through details never change |
| Admin.DeactivatedProductHidden | src/routes/admin.ts:142-146 | a product set inactive is no longer served by the public detail route |
| Admin.EliminarProducto | src/routes/admin.ts:154-161 | an unknown id is a 500 with no change; otherwise exactly that product is removed |
| Admin.DeletedProductGone | src/routes/admin.ts:154-161 | a deleted product gets 404 from the public detail route and appears in no public listing of the remaining table |
| Admin.ListPedidos | src/routes/admin.ts:168-185 | an empty or absent filter lists every order; an unknown state is a 500; otherwise every listed order is in that state and every order in that state is listed, and for a table listing (no repeated row) no order repeats and the list is as long as the number of orders in that state |
| Admin.ListPedidosKeepsOrder | src/routes/admin.ts:173-175 | the filtered list stays newest first |
| Admin.ActualizarPedido | src/routes/admin.ts:188-200 | 200 iff the order exists and the state is absent or valid; only that order's state changes, to the given one; an absent state changes nothing |
| Admin.ActualizarPedidoIgnoresCurrentState | src/routes/admin.ts:190-194 | the result does not depend on the order's current state |
| Admin.EstadoNameRoundTrip | src/routes/admin.ts:190-194 | every state's name parses back to the state |
| Admin.Stats | src/routes/admin.ts:207-233 | the counts are exactly the active products, the active categories, all orders, the `PENDIENTE` orders and the `CLIENTE` users; each is bounded by its table and the pending count by the order count |
| Admin.DeactivationLowersProductCount | src/routes/admin.ts:142-146 | deactivating an active product through the update route lowers the product count by one and keeps every other count |
| Admin.UserCountIsCustomers | src/routes/admin.ts:220 | adding an administrator leaves the user count as it was; adding a customer adds one |
| Admin.InsertCounts | src/routes/admin.ts:218-219 | inserting an order adds one to the order count, and one to the pending count iff the order is `PENDIENTE` |
| Admin.PendientesInsert | src/routes/admin.ts:219 | the pending set grows by the new order exactly when it is pending |
| Admin.StatsAfterPedido | src/routes/admin.ts:218-219 | a public order adds one to both the order and the pending count |
| Admin.ReplaceCounts | src/routes/admin.ts:218-219 | replacing an order keeps the order count and moves the pending count only in the direction of the state change |
| Admin.SubsetCard | src/routes/admin.ts:216-220 | a filtered count never exceeds the unfiltered one |
| Admin.Despachar | src/routes/admin.ts:14-233 | every handler answers 200, 201 or 500; the read routes change nothing; only the order update touches the orders |
| Admin.Atender | src/routes/admin.ts:8 | a request the guard rejects gets the guard's status and changes nothing; an admitted one is handled by its route |
| Admin.OnlyAdminsWrite | src/routes/admin.ts:8 | any change to the store comes from a registered administrator's token; anyone else gets 401 or 403 and changes nothing |
| Slug.Slug | src/routes/admin.ts:64 | the result is a slug (only `[a-z0-9-]`, no two dashes in a row, no leading or trailing dash) and keeps exactly the letters and digits of the normalised name, in order |
| Slug.SlugKeepsLetters | src/routes/admin.ts:64 | the slug of an ASCII name keeps exactly the name's letters, lower-cased, and its digits, in order |
| Slug.Normalize | src/routes/admin.ts:64 | lower-casing and diacritic removal never lengthen the name |
| Slug.Collapse | src/routes/admin.ts:64 | the result is empty iff the input is |
| Slug.CollapseShape | src/routes/admin.ts:64 | the collapsed string uses only slug characters and has no two dashes in a row |
| Slug.CollapseAlnum | src/routes/admin.ts:64 | collapsing keeps the letters and digits of the input, in order |
| Slug.CollapseFirst | src/routes/admin.ts:64 | the collapsed string starts with a dash iff the input starts with a character outside `[a-z0-9]` |
| Slug.Words | src/routes/admin.ts:64 | the maximal `[a-z0-9]` runs of a string: each is a non-empty run of letters and digits, and there are none iff the string has no letter or digit |
| Slug.CollapseWords | src/routes/admin.ts:64 | from a word boundary, collapsing gives the maximal `[a-z0-9]` runs joined by single dashes, plus one dash iff the input ends in a separator |
| Slug.TrimCollapse | src/routes/admin.ts:64 | collapsing and then trimming one dash from each end leaves exactly the maximal `[a-z0-9]` runs joined by single dashes |
| Slug.SlugIsDashedWords | src/routes/admin.ts:64 | the slug is the maximal `[a-z0-9]` runs of the normalised name, in order, joined by single dashes |
| Slug.NormalizeSlugAlphabet | src/routes/admin.ts:64 | a slug passes normalisation unchanged |
| Slug.CollapseFixedPoint | src/routes/admin.ts:64 | collapsing a dash-separated slug changes nothing |
| Slug.SlugFixedPoint | src/routes/admin.ts:64 | a string is its own slug iff it is a slug |
| Slug.SlugIdempotent | src/routes/admin.ts:64 | the slug of a slug is the same slug |
| Slug.NormalizeAscii | src/routes/admin.ts:64 | on ASCII input normalisation is plain lower-casing |
| Slug.ProductSlugParts | src/routes/admin.ts:120 | a product slug is the name's slug, a dash and a base-36 suffix reading back as the time; it is a slug when the name's slug is non-empty and starts with a dash when it is empty |
| Text.ToBase36 | src/routes/admin.ts:120 | `Number.prototype.toString(36)` of a natural: non-empty, base-36 digits only, no leading zero for a positive number |
| Text.Base36RoundTrip | src/routes/admin.ts:120 | reading the base-36 text back gives the number |
| Text.Split | src/middleware/auth.ts:21 | `split` on one character gives at least one piece and no piece contains the separator |
| Text.JoinSplit | src/middleware/auth.ts:21 | joining the pieces back with the separator restores the string |
| Text.ContainsIff | src/routes/public.ts:51-52 | the substring test holds iff the pattern occurs at some position |
| Listing.Filter | src/routes/public.ts:56-62 | every kept row satisfies the condition, and every satisfying row is kept |
| Listing.FilterSubset | src/routes/public.ts:56-62 | every kept row is a row of the input |
| Listing.FilterKeepsOrder | src/routes/public.ts:61 | filtering keeps the rows in the query's order |
| Listing.Take | src/routes/public.ts:62 | `take` gives the first `n` rows, or all rows when there are fewer |
| Listing.FilterCount | src/routes/admin.ts:173-175 | filtering rows without repeats gives rows without repeats, one per distinct matching row |
| Listing.TakeFilter | src/routes/public.ts:56-62 | on rows without repeats, the first `n` matches have no repeats, number the smaller of `n` and the matches, and never skip a match for a later row |
| Invariants.PedidoKeepsConsistency | src/routes/public.ts:123-149 | a public order keeps every stored order under its own id with amounts consistent with its lines |
| Invariants.CheckoutKeepsConsistency | src/routes/pagos.ts:68-149 | checkout keeps the store consistent whatever the provider answers |
| Invariants.WebhookKeepsConsistency | src/routes/pagos.ts:184-202 | the webhook keeps the store consistent |
| Invariants.AdminKeepsConsistency | src/routes/admin.ts:188-200 | every admin request keeps the store consistent |
| Invariants.WriteKeepsConsistency | src/routes/public.ts:126-149 | writing one consistent order keeps the store consistent |
| Invariants.StatsAfterCheckout | src/routes/pagos.ts:88 | a checkout order adds one to the order count and nothing to the pending count |
| Invariants.StatsAfterWebhook | src/routes/pagos.ts:184-202 | the webhook keeps the order count and never increases the pending count |

## Left out

- Database access is a map lookup or update. The model leaves out the following:
  - connection failures and timeouts. In a route handler such a failure would give that route's 500. In `verificarToken` the user lookup sits inside the `try` whose `catch` answers 401 "Token inválido" (src/middleware/auth.ts:24-37), so there it would give that 401;
  - transactions;
  - the nested creation of order items;
  - the order of rows beyond the `orderBy` the listing receives.
- The database schema is not part of this model, so these things are assumed:
  - the defaults `activo = true`, `destacado = false`, `stock = 0` and `orden = 0`;
  - the order defaults `estado = PENDIENTE` and `metodoPago = null`, which `PublicRoutes.CrearPedido` states of a public order although src/routes/public.ts:126-145 sets neither;
  - `precio` and `categoriaId` are required product columns, so a product create without one of them is a 500. A missing `nombre` needs no assumption: `nombre.toLowerCase()` throws, and the route's `catch` answers 500;
  - unique slugs: a clash is a 500;
  - foreign keys on the customer and the category: a dangling reference is a 500;
  - the four order states named in the code as the whole enum.
- Deleting a category or product leaves the rows that reference it untouched. The foreign-key delete policy is not visible in the code.
- Checkout writes the order and then records the preference id in a second step, with no transaction. The model records that a provider failure leaves a `PENDIENTE_PAGO` order without a preference id and replies 500. It does not model a crash between the two writes.
- JSON Web Token signature and expiry checking are an oracle. So are MercadoPago's `preference.create` and `payment.get`. A token whose payload lacks an id makes the lookup throw, which gives the same "Token inválido" reply; it is folded into the oracle's `None`.
- `Slug.Normalize` applies Unicode NFD and mark stripping exactly for Latin-1 letters and the combining marks U+0300 to U+036F. It treats every other non-ASCII character as a separator.
- `Date.now()` is the parameter `ahora`. `parseInt(limite)` is already parsed into `Option<nat>`: a negative or non-numeric limit is not modelled.
- Prices, quantities and amounts are unbounded integers. Floating-point rounding of JavaScript numbers is not modelled.
- The case-insensitive search folds ASCII letters only (`Text.Lower`).
- Request bodies of the wrong shape are left out: a non-array `items`, an item without a product id, or a quantity that is not a number. A configuration entry the store rejects is an abstract `None` entry.
- `PUT` bodies cannot set a nullable field to `null`: `None` means the field was absent.
- The admin `GET /config` and `GET /productos` return their table unfiltered. The model gives them status 200 and no change, in `Admin.Despachar`.
- Express wiring, CORS, logging, the health check and the seed script are plumbing and are not modelled. The compiled `dist/` files are stale copies of the sources and are not modelled either.
- `Promise.all` in the statistics route is five independent reads. The model computes them as five counts.
