# Caixa Panda stock core in Dafny

The point-of-sale backend keeps a per-product stock count. Four things change it:
- typed stock movements (`ENTRADA`, `SAIDA`, `PERDA`, `AJUSTE_ENTRADA`, `AJUSTE_SAIDA`), each appended to a movement log;
- corrections to an absolute stock value, recorded as one adjustment movement;
- sale creation;
- the catalog's product update.

This project models that core as pure functions over an immutable database value, `Modelo.Db`. The database holds:
- the product map;
- the barcode table;
- the movement log;
- the sales;
- the two id counters.

Every write returns a `Result`; the reads return a sequence or an `Option`. A failed write leaves the database untouched: the model treats each service call as one atomic step.

Modules follow the source files:

| module | models |
|---|---|
| `EstoqueService` | the stock ledger: movements, correction, the two history reads, and the ledger invariant `Razao` (stock = initial stock + signed sum of logged movements, never negative) |
| `EstoqueController` | which HTTP bodies reach the ledger, and with which arguments |
| `VendaService` | sale creation as written, a corrected sale creation that goes through the ledger, and the sale reads |
| `ProdutoService` | the catalog: create, update, delete, barcode lookup, name-ordered listing |
| `Carrinho` | the sales screen's cart |
| `FormularioProduto` | the product form's comma-separated barcode field |

Two support modules:
- `Sequencias`: sums, filtering, a generic insertion sort standing in for `orderBy`, and code-point string order.
- `Tipos`: `Option`, `Result` and the error kinds.

Representation choices:
- Money is integer cents.
- Quantities are unbounded integers.
- Timestamps are integer milliseconds.
- The clock is a parameter (`agora`).
- Calendar days are UTC days.

Two points about the code as it stands:
- Sale creation does not go through the stock ledger. It writes no movement rows and checks each line on its own. `VendaService.Cadastrar` models that code. `VendaService.CadastrarCorrigido` is a version that routes each line through the ledger as one outgoing movement naming the sale.
- The sale listing of `backend/src/services/vendaService.ts` has no product filter, so the model has none. Only the compiled `.js` output has one.

## Model

| member | source | states |
|---|---|---|
| EstoqueService.RegistrarMovimentacao | backend/src/services/estoqueService.ts:6-55 | A quantity ≤ 0 is refused first. A missing product is refused next (not found). A decreasing type (`SAIDA`, `PERDA`, `AJUSTE_SAIDA`) for more than the stock is refused, carrying the available amount. The call succeeds exactly in the remaining cases. On success: that product's stock moves by +q for increasing types (any other string counts as increasing) and by −q for decreasing ones; its name and price are unchanged; every other product, the barcodes and the sales are unchanged; exactly one movement stamped with the clock is appended. A non-negative stock stays non-negative. A database that meets the schema's invariants still meets them. |
| EstoqueService.CorrigirEstoque | backend/src/services/estoqueService.ts:74-87 | A missing product is refused. A target equal to the stock changes nothing. Otherwise the stock becomes exactly the target, through one `AJUSTE_ENTRADA` movement (raising) or one `AJUSTE_SAIDA` movement (lowering). The lowering movement's reason is prefixed with "Correção de Estoque: ". The correction fails exactly when the target is negative and below the stock. A negative target on a non-negative stock is refused as insufficient stock. On success the barcodes, the sales and both id counters are unchanged, and a database that meets the schema's invariants still meets them. |
| EstoqueService.ClassificacaoDosTipos | backend/src/services/estoqueService.ts:22-23 | Exactly `SAIDA`, `PERDA` and `AJUSTE_SAIDA` are decreasing. `ENTRADA`, `AJUSTE_ENTRADA` and every other string are increasing. |
| EstoqueService.Sinal | backend/src/services/estoqueService.ts:22-23 | A movement's signed change is its quantity or the quantity negated. For a positive quantity it is negative exactly when the type is decreasing, so `decrement` is chosen for those and `increment` for everything else. |
| EstoqueService.SaldoAcrescentar | backend/src/services/estoqueService.ts:45-53 | Appending a movement adds its signed quantity to its own product's balance, and to no other product's. |
| EstoqueService.SaldoSemMovimentos | backend/src/services/estoqueService.ts:45-53 | A product with no logged movement has a zero balance. |
| EstoqueService.RegistrarPreservaRazao | backend/src/services/estoqueService.ts:22-53 | Every successful movement preserves the ledger invariant. |
| EstoqueService.CorrigirPreservaRazao | backend/src/services/estoqueService.ts:74-87 | Every successful correction preserves the ledger invariant. |
| EstoqueService.GetHistorico | backend/src/services/estoqueService.ts:57-63 | Returns exactly the product's movements, each as often as it is logged, newest first. |
| EstoqueService.PrefixoTemOsMaisRecentes | backend/src/services/estoqueService.ts:66-68 | A prefix of a newest-first list is at least as new as anything it leaves out, counting copies: a movement the prefix holds fewer times than the list is no newer than any movement in the prefix. |
| EstoqueService.ListarGeral | backend/src/services/estoqueService.ts:65-71 | Returns min(log size, 100) logged movements, newest first, each at most as often as it is logged. Identical rows are counted as copies: any movement returned fewer times than it is logged is no newer than every movement returned. |
| EstoqueController.ValidarMovimentacao | backend/src/controllers/estoqueController.ts:8-16 | Accepts exactly when produtoId, tipo and quantidade are all truthy and the type is `ENTRADA`, `SAIDA`, `PERDA` or starts with `AJUSTE`. A missing, zero or empty field is "incomplete data"; any other rejection is "invalid type". The accepted fields are passed on unchanged. |
| EstoqueController.RegistrarMovimentacao | backend/src/controllers/estoqueController.ts:6-23 | A zero quantity is stopped as incomplete data before the ledger is reached. A validation failure is returned as is. A valid request gives exactly the ledger's outcome. |
| EstoqueController.AjusteDesconhecidoAumentaEstoque | backend/src/controllers/estoqueController.ts:14-23 | Any type starting with `AJUSTE` other than `AJUSTE_SAIDA` (for example `AJUSTE_PERDA`) is accepted for an existing product with a positive quantity, and raises its stock by that quantity. |
| EstoqueController.MotivoOuPadrao | backend/src/controllers/estoqueController.ts:42 | The reason is never empty. A non-empty reason is kept; an absent or empty one becomes "Ajuste Manual". |
| EstoqueController.CorrigirEstoque | backend/src/controllers/estoqueController.ts:33-43 | Only a falsy product id or an absent target is stopped. Anything else is the ledger's correction with the defaulted reason. A target of 0 on a non-negative stock succeeds and zeroes it. |
| EstoqueController.ListarHistorico | backend/src/controllers/estoqueController.ts:53-62 | Without a product id, the general history (at most 100 movements). With one, exactly that product's movements. Newest first either way. |
| VendaService.VerificarItens | backend/src/services/vendaService.ts:11-19 | Passes exactly when every line's product exists and, on its own, has at least the line's quantity in stock. Otherwise it reports the error of the first failing line: product not found, or insufficient stock naming the product. |
| VendaService.Precificar | backend/src/services/vendaService.ts:25-37 | When every product exists, there is one sale line per requested line, in order, with subtotal = current price × quantity. Never more lines than requested. |
| VendaService.QtdVendidaDePrecificar | backend/src/services/vendaService.ts:25-37 | Pricing keeps every product's combined quantity. |
| VendaService.Decrementar | backend/src/services/vendaService.ts:59-68 | Each product's stock falls by its combined quantity over the lines. Nothing else changes. There is no check. |
| VendaService.Cadastrar | backend/src/services/vendaService.ts:6-74 | Fails exactly when the pre-check fails, with the pre-check's error. On success: the sale takes the next id and the clock's time; it has one line per requested line with price × quantity; its total is the sum of the subtotals; it is appended to the sales. Each product's stock falls by its combined requested quantity. The movement log and barcodes are unchanged. The schema's invariants are preserved. |
| VendaService.CadastrarDesalinhaRazao | backend/src/services/vendaService.ts:58-68 | A sale that changes some product's stock breaks the ledger invariant, because no movement is logged. |
| VendaService.CadastrarPodeNegativarEstoque | backend/src/services/vendaService.ts:11-19 | Counterexample: with stock 10, the lines (1,6) and (1,6) pass the pre-check and leave the stock at −2. |
| VendaService.CadastrarQuantidadeNegativaAumentaEstoque | backend/src/services/vendaService.ts:11-19 | Counterexample: a line with quantity −5 passes the pre-check, raises the stock from 10 to 15, and gives a negative total. |
| VendaService.VerificarItensCorrigido | backend/src/services/vendaService.ts:11-19 | The corrected pre-check passes exactly when every line's product exists, its quantity is positive, and the request's combined quantity of that product fits in its stock. Otherwise it reports a failing line's error. |
| VendaService.BaixarEstoqueSucede | backend/src/services/vendaService.ts:58-68 | When the corrected pre-check holds, every per-line ledger step succeeds. Each product loses exactly its combined quantity. |
| VendaService.BaixarEstoqueMoldura | backend/src/services/vendaService.ts:58-68 | A completed run of per-line ledger steps keeps the product ids, the sales, the barcodes and both id counters. |
| VendaService.BaixarEstoqueRegistraSaidas | backend/src/services/vendaService.ts:58-68 | A completed run of per-line ledger steps appends to the old log exactly one outgoing movement per line, in line order, each carrying the line's product and quantity, the given reason and the clock's time. |
| VendaService.BaixarEstoqueMantemConsistente | backend/src/services/vendaService.ts:58-68 | A completed run of per-line ledger steps keeps the schema's invariants. |
| VendaService.BaixarEstoquePreservaRazao | backend/src/services/vendaService.ts:58-68 | Decrementing through the ledger preserves the ledger invariant. |
| VendaService.CadastrarCorrigido | backend/src/services/vendaService.ts:6-74 | Fails exactly when the corrected pre-check fails, with its error. On success the sale is the one the code creates: the next id, the clock's time, one priced line per requested line, the sum of the subtotals as total; it is appended to the sales and the sale counter advances. Each product's stock falls by its combined quantity, and a non-negative stock stays non-negative. The old log is kept as a prefix, followed by one outgoing movement per line, in line order, with the line's product and quantity, a reason naming the sale, and the clock's time. Barcodes and the product counter are unchanged. A database that meets the schema's invariants still meets them. |
| VendaService.CadastrarCorrigidoPreservaRazao | backend/src/services/vendaService.ts:40-71 | The corrected sale creation preserves the ledger invariant. |
| VendaService.FimDoDia | backend/src/services/vendaService.ts:81-84 | The end of the day is in the same day, not earlier than the given instant, and at its last millisecond. |
| VendaService.Listar | backend/src/services/vendaService.ts:76-101 | Returns exactly the sales in the period (inclusive start; inclusive end-of-day), each as often as stored, newest first. With no bounds, it returns every sale. |
| VendaService.BuscarPorId | backend/src/services/vendaService.ts:103-115 | The result is a stored sale with that id. It is absent exactly when no sale has that id. Because ids are distinct, it is the one sale with that id. |
| ProdutoService.Livres | backend/src/services/produtoService.ts:24-26 | New barcode rows fit the unique constraint exactly when no new string is already used and none repeats. |
| ProdutoService.AcrescentarLivres | backend/src/services/produtoService.ts:24-26 | Appending such rows keeps the barcodes unique. |
| ProdutoService.Cadastrar | backend/src/services/produtoService.ts:18-30 | Fails exactly on a used or repeated barcode. On success: the product gets the next id with the given fields, and the product counter advances. Other products' barcodes, the log, the sales and the sale counter are unchanged. In a database that meets the schema's invariants, the new product gets exactly the given barcodes, in order, under an id no product had, and the invariants are preserved. |
| ProdutoService.CadastrarPreservaRazao | backend/src/services/produtoService.ts:18-30 | In a consistent database, a product created with a non-negative stock joins the ledger invariant with that stock as its initial stock, and every other product keeps its own. |
| ProdutoService.CadastrarEstoqueNegativo | backend/src/services/produtoService.ts:18-30 | Counterexample: creation does not check the stock's sign. A product created with stock −3 in an empty database is stored with −3, and no choice of initial stocks satisfies the ledger invariant afterwards. |
| ProdutoService.CodigosDeSemProduto | backend/src/services/produtoService.ts:39-40 | Deleting a product's barcode rows empties its barcodes and keeps every other product's. |
| ProdutoService.FiltrarPreservaUnicos | backend/src/services/produtoService.ts:39-40 | Deleting rows keeps the barcode table unique. |
| ProdutoService.SubstituirCodigos | backend/src/services/produtoService.ts:39-42 | Replacing a product's rows with free strings gives it exactly the new barcodes, keeps everyone else's, and preserves the schema's invariants. |
| ProdutoService.Atualizar | backend/src/services/produtoService.ts:32-46 | A missing id is refused. A given barcode list that clashes with other products' barcodes, or repeats itself, is refused. On success: every given field replaces the stored one and every omitted field is kept; a given barcode list replaces all of the product's barcodes. Other products, the log, the sales and both id counters are unchanged. |
| ProdutoService.AtualizarDesalinhaRazao | backend/src/services/produtoService.ts:36-38 | An update that changes the stock field breaks the ledger invariant, because no movement is logged. |
| ProdutoService.Excluir | backend/src/services/produtoService.ts:48-50 | A missing id is refused. Otherwise exactly that product is removed, together with its barcodes. Other products and their barcodes are kept; the log, the sales and both id counters are unchanged; the schema's invariants are preserved. |
| ProdutoService.ExcluirPreservaRazao | backend/src/services/produtoService.ts:48-50 | Deleting a product keeps the ledger invariant for every product that remains. |
| ProdutoService.BuscarPorCodigo | backend/src/services/produtoService.ts:52-58 | A found product exists, carries its stored fields and all its barcodes, and owns the searched barcode. In a consistent database, nothing is found exactly when the barcode is unused, and otherwise the result is the barcode's owner. |
| ProdutoService.Listar | backend/src/services/produtoService.ts:11-16 | Products are ordered by name. Each entry is a stored product with its barcodes. In a consistent database every product is listed. No product is listed twice. |
| Carrinho.Indice | frontend/src/App.tsx:502 | Returns the first line of the product, or −1 exactly when the product has no line. |
| Carrinho.QtdNoCarrinho | frontend/src/App.tsx:527-528 | The quantity the stock check reads is the quantity of the product's first line, or 0 when the product has no line. |
| Carrinho.Adicionar | frontend/src/App.tsx:500-515 | For a product already in the cart: that line's quantity grows by q and its subtotal is recomputed as the new quantity × the line's stored price; every other line is unchanged. Otherwise: one new line with q and q × price is appended at the end. |
| Carrinho.AdicionarQuantidade | frontend/src/App.tsx:500-513 | Adding raises the product's total units in the cart by exactly q, and no other product's. |
| Carrinho.TotalDaEsquerda | frontend/src/App.tsx:98 | The cart total is `reduce` from 0: the empty cart totals 0, and each line's subtotal is added after those of the lines before it. With no negative subtotal the total is never negative. |
| Carrinho.AdicionarTotal | frontend/src/App.tsx:98 | Adding to a cart whose subtotals equal quantity × price keeps that so, and raises the total by q × the line's price. |
| Carrinho.AdicionarSemRepetidos | frontend/src/App.tsx:500-513 | Adding never creates a second line for a product. The quantity the stock check reads grows by exactly q. |
| Carrinho.QtdNoCarrinhoEhQuantidade | frontend/src/App.tsx:527-528 | Without repeated lines, the quantity the stock check reads is all of the product's units in the cart. |
| Carrinho.Confirmar | frontend/src/App.tsx:517-540 | With no product selected, nothing changes. A missing or non-positive quantity is refused. A quantity that would take the product's cart quantity past its stock is refused with that stock. Otherwise the units are added, and the product's cart quantity is then at most its stock. |
| Carrinho.Remover | frontend/src/App.tsx:626 | Removing a valid position gives the lines before it followed by the lines after it, in their order. An invalid position changes nothing. |
| Carrinho.RemoverTotal | frontend/src/App.tsx:98 | Removing a line lowers the total by exactly its subtotal. |
| Carrinho.RemoverPreserva | frontend/src/App.tsx:626 | Removing a line keeps subtotals consistent and lines unrepeated. |
| FormularioProduto.Dividir | frontend/src/App.tsx:389 | Splitting always gives at least one piece. No piece holds a comma. Rejoining the pieces with commas gives the input back. |
| FormularioProduto.DividirJuntar | frontend/src/App.tsx:389 | Comma-free pieces are recovered exactly from their comma-joined string. |
| FormularioProduto.DividirConcat | frontend/src/App.tsx:389 | A comma splits the input into the pieces before it followed by the pieces after it. |
| FormularioProduto.Aparar | frontend/src/App.tsx:389 | The input is the result with only white space before and after it. The result neither starts nor ends with white space (JavaScript's full white-space and line-terminator set). |
| FormularioProduto.ApararIdempotente | frontend/src/App.tsx:389 | Trimming twice equals trimming once. |
| FormularioProduto.ParseCodigos | frontend/src/App.tsx:389 | No barcode is empty, holds a comma, or starts or ends with white space. A comma-free field gives its trimmed text, or nothing when that is empty. |
| FormularioProduto.ParseConcatena | frontend/src/App.tsx:389 | Written order is kept: the field before a comma yields its barcodes first, then the field after it yields its own. |

## Left out

- Concurrency and transaction isolation. Each service call is one atomic step, so the following are not modelled:
  - races between the sale pre-check, which reads outside the transaction, and the transactional writes;
  - the correction reading the product through the global client rather than the transaction.
- Partial writes. Outside a sale, the ledger runs on the global client (`backend/src/services/estoqueService.ts:11`), not in a transaction. So the stock `update` (:33) and the movement `create` (:45) are two separate statements, and if the insert fails the stock change stays with no row logged. The model makes the two one step, so `EstoqueService.RegistrarMovimentacao` and `EstoqueService.CorrigirEstoque` do not model that failure.
- Floating point. Prices and subtotals are JavaScript numbers in the source and integer cents here, so rounding is not modelled. The following are not modelled either:
  - `parseFloat`/`parseInt` and `NaN`. A quantity that does not parse is the absent value `None` in `Carrinho.Confirmar`.
  - string-to-number coercion of request fields (`Number(produtoId)` on a string). Request fields are already numbers.
  - `null` request fields.
- Clock and time zones. `new Date()` is the parameter `agora`. `setHours(23, 59, 59, 999)` is taken in UTC days (`VendaService.FimDoDia`).
- Error mapping and HTTP. The model has error values, not status codes, and the error middleware is not modelled. The sale controller's non-empty item check sits outside the service and is not modelled.
- Database-generated fields. `criadoEm` and the barcode row ids are not modelled.
- Joined relations (`include: { produto: true }`). They are not copied into the results. Barcodes are joined in only for the catalog reads.
- Unspecified row orders:
  - Movements and sales with equal timestamps, and products with equal names, come out in some order. Only sortedness and the result's contents are stated.
  - The catalog listing is stated complete only for a database that meets the schema's invariants (`Modelo.Consistente`), since it enumerates product ids from the id counter.
- String order. Product names are compared by code point. Database collation is not modelled.
- Deleting a product cascades to its barcode rows in the model. The database schema is not part of this model. A delete that the schema would refuse because movements or sale lines still reference the product is not modelled.
- A duplicate barcode on create or update is the `CodigoDuplicado` error, standing for the database's unique-constraint failure.
- The compiled `.js` and `.d.ts` files are not modelled. They are build outputs whose signatures differ from the `.ts` sources, for example the product filter on sales.
- Customers and configuration are not modelled. They are plain CRUD and not part of the stock core.
- The reason on each movement of the corrected sale creation is "Venda #" followed by the sale id. This wording is the model's choice, because the code records no sale movements at all.

## Findings

| source | as written | input that shows it | evidently intended | confidence | as-written member | corrected member |
|---|---|---|---|---|---|---|
| backend/src/services/vendaService.ts:11-19 | The stock pre-check compares each line's quantity with the stock on its own, and the decrement loop then subtracts every line. | Product 1 with stock 10 and lines (1,6), (1,6): both lines pass and the stock ends at −2. | The combined quantity of each product is checked against its stock, so stock never goes negative. | high (not executed) | VendaService.CadastrarPodeNegativarEstoque | VendaService.CadastrarCorrigido |
| backend/src/services/vendaService.ts:16-18 | A negative line quantity passes the check (`estoque < quantidade` is false) and the decrement raises the stock. | Product 1 with stock 10 and line (1,−5): the stock becomes 15 and the total is −129.50. | Non-positive quantities are refused, as the stock ledger does. | high (not executed) | VendaService.CadastrarQuantidadeNegativaAumentaEstoque | VendaService.CadastrarCorrigido |
| backend/src/services/vendaService.ts:58-68 | The stock is decremented directly, and no movement row is written. | Any successful sale of a product with a positive quantity: stock no longer equals initial stock plus the logged movements. | Each line goes through the ledger as an outgoing movement naming the sale. | high (not executed) | VendaService.CadastrarDesalinhaRazao | VendaService.CadastrarCorrigidoPreservaRazao |
