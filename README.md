# Order workflow and CSV helpers of a small sales API

This project models, in Dafny, the core of a FastAPI sales service: the order handlers of
`routers/pedido_routes.py` (create, update and delete an order, and the arithmetic of the
paginated order list) and the CSV helpers of `Utils/utils.py` (append, read, update and
remove rows, count records).

- `results.dfy` (`Results`): the `Option` and `Result` wrappers.
- `entities.dfy` (`Entities`): the tables as datatypes: customers, products, the order
  status table, orders and line items. It also holds the database snapshot `Db` and the
  failures the handlers raise. A failure is `Falha(codigo, motivo)`: an HTTP status code and
  a reason.
- `order_spec.dfy` (`OrderSpec`): each handler as a function from a snapshot and a request
  to an `Efeito`, the response paired with the snapshot after it.
  - `Percorrer` is the item loop of `criar_pedido`.
  - `Viavel`, `Demanda`, `Debitar` and `Linhas` describe that loop's result declaratively.
  - `Consistente` is the database invariant. Every order id is below the next id. Every
    line item belongs to an existing order. Every order's `valor_total` is the sum of its
    line items' subtotals.
- `order_lemmas.dfy` (`OrderLemmas`): what each handler does. It characterises success and
  failure, the status codes, the new state and "nothing else changes", and proves that each
  handler keeps `Consistente`.
- `order_store.dfy` (`OrderStore`): the class `Store`, whose fields are the tables.
  - Its methods run the handlers step by step: look-ups, the item loop with its running
    total, stock decrements in place, and the rollback on failure.
  - Each method is proved to end in the state, and with the response, that `OrderSpec`
    gives for the state it started from, and to keep `Consistente`.
- `pagination.dfy` (`Pagination`): the offset `(page - 1) * size` and the page count
  `-(-total // size)`. It proves that the count is the ceiling of `total / size`, that a page
  is non-empty exactly up to the page count, and that pages 1 to the page count together
  hold every row once, in order.
- `csv_parse.dfy` (`CsvParse`): Python's `int(text)` and `str(n)` on integers, with
  `int(str(n)) == n`.
- `csv_rows.dfy` (`CsvRows`): the CSV file as the class `ArquivoCsv` over its rows, the
  read loops of update and remove, the record count, and their properties.

The service's behaviour modelled here, as the code does it:

- `criar_pedido` re-raises its own `HTTPException`s, so its failures reach the client as:
  - 404 for a missing customer;
  - 500 for a missing PENDENTE status;
  - 404 for a missing product;
  - 400 for insufficient stock. The message reports the product's stock as committed before
    the request: the rollback at routers/pedido_routes.py:107 discards the loaded rows, so the
    message re-reads the product from the database, not the stock left after the earlier items.
- `atualizar_pedido` and `deletar_pedido` catch their own 404 in `except Exception`, so
  every one of their failures reaches the client as 500.
- The stock check is `estoque < quantidade`, so an item may take the whole stock. It sees
  the decrements of earlier items of the same request.
- Quantities are never validated. A negative quantity passes the stock check and raises the
  stock.
- `atualizar_pedido` neither checks products nor touches stock. `deletar_pedido` does not
  restore stock.
- `int(row[0])` raises on a header row such as `id,...`. So `atualizar_csv` and
  `remover_do_csv` fail on any file whose first row is a header (`CabecalhoBloqueia`).

## Model

| member | source | states |
|---|---|---|
| OrderStore.Store.CriarPedido | routers/pedido_routes.py:64-137 | ends in exactly the state and response `Criar` gives for the starting tables; a failure leaves every table as it was (rollback); keeps `Consistente` |
| OrderStore.Store.LancarItens | routers/pedido_routes.py:93-124 | the item loop fails exactly when `Percorrer` does, with the same error, whose insufficient-stock message reports the committed stock; on success the tables are what `Percorrer` gives and the running total is the sum of the requested subtotals |
| OrderStore.Store.SubstituirItens | routers/pedido_routes.py:352-371 | the order's old items are deleted and one line item per new item is appended in order with consecutive ids; the returned total is the sum of the new subtotals; no other table changes |
| OrderStore.Store.AtualizarPedido | routers/pedido_routes.py:331-390 | ends in the state and response `Atualizar` gives; a failure changes nothing; products are never touched; keeps `Consistente` |
| OrderStore.Store.DeletarPedido | routers/pedido_routes.py:392-419 | ends in the state and response `Deletar` gives; a failure changes nothing; products are never touched; keeps `Consistente` |
| OrderStore.Store.Reverter | routers/pedido_routes.py:132-137 | the session rollback: every table returns to the saved snapshot |
| OrderSpec.PrimeiroStatus | routers/pedido_routes.py:76-79 | `.first()` of the status rows with a given name: None exactly when no row has that name, otherwise the row at the lowest such index |
| OrderLemmas.SemItensCaracterizado | routers/pedido_routes.py:354-356 | the bulk delete of an order's items: no item of that order is left, every other item is kept, nothing is added |
| OrderLemmas.PercorrerCaracterizado | routers/pedido_routes.py:95-124 | the item loop succeeds iff every item, in order, names an existing product whose stock after the earlier items covers it; it then appends one line item per request item in order, advances the item id by the item count, and lowers each product's stock by exactly the total quantity requested of it |
| OrderLemmas.PercorrerFalha | routers/pedido_routes.py:95-111 | the first item failing its checks decides the error: 404 for a missing product, 400 naming the product and its stock as committed before the request, which the rollback reloads |
| OrderLemmas.DebitarNaoNegativo | routers/pedido_routes.py:105-124 | after an accepted request every product it names, and every product whose stock was non-negative, has non-negative stock |
| OrderLemmas.CriarRecusado | routers/pedido_routes.py:66-82 | a missing customer gives 404 and a missing PENDENTE status gives 500; every failure leaves the database unchanged |
| OrderLemmas.CriarAceito | routers/pedido_routes.py:84-131 | with a customer and a PENDENTE status, creation succeeds iff the items are feasible; on success the order gets the next id, the customer, the first PENDENTE status and the sum of the subtotals as its total; line items and stock change as the loop says, and nothing else changes |
| OrderLemmas.CriarItemRecusado | routers/pedido_routes.py:95-111 | a request whose item k is the first to fail is answered with that item's error: 400 naming the product and its stock as committed before the request when the product exists, 404 naming the product id otherwise; the database is unchanged |
| OrderLemmas.SegundoItemRelataEstoqueComprometido | routers/pedido_routes.py:105-111 | two items of one product, each within its stock but together over it: the request fails with 400 whose message reports the full committed stock, and nothing changes |
| OrderLemmas.CriarEstoqueNaoNegativo | routers/pedido_routes.py:105-124 | after a successful creation every product named in the request has non-negative stock, and non-negative stock everywhere is preserved |
| OrderLemmas.PercorrerLevanta | routers/pedido_routes.py:98-111 | every failure of the item loop carries the status code it was raised with |
| OrderLemmas.CodigosDeFalha | routers/pedido_routes.py:132-137 | creation failures keep their raised code (404, 500 or 400); every update and delete failure is answered with 500 |
| OrderLemmas.CriarPreserva | routers/pedido_routes.py:84-127 | creation keeps `Consistente`: the new order's total equals the sum of its line items, and every line item belongs to an order |
| OrderLemmas.AtualizarCaracterizado | routers/pedido_routes.py:331-373 | fails iff the order is missing or a non-empty status name matches no row, and then changes nothing; a non-empty status takes the first row of that name; non-empty items replace exactly the order's items, keep the other orders' items in order, and set the total to the new sum; absent or empty items change neither items nor total; products, customers, statuses and other orders never change |
| OrderLemmas.AtualizarPreserva | routers/pedido_routes.py:351-371 | update keeps `Consistente` |
| OrderLemmas.DeletarCaracterizado | routers/pedido_routes.py:392-406 | fails iff the order is missing, and then changes nothing; otherwise the order and exactly its items are gone, every other item stays, nothing is added, the other orders' sums are unchanged, and products, customers and statuses are untouched |
| OrderLemmas.DeletarPreserva | routers/pedido_routes.py:400-405 | delete keeps `Consistente` |
| OrderLemmas.DeletarDuasVezes | routers/pedido_routes.py:396-398 | deleting the same order again fails with 500 and changes nothing |
| Pagination.DivisaoInteira | routers/pedido_routes.py:196 | Python's `//` for a positive divisor: the quotient q with `q*b <= a < q*b + b` |
| Pagination.Paginas | routers/pedido_routes.py:196 | the page count is the ceiling of total / size: `(pages-1)*size < total <= pages*size` |
| Pagination.ListarPagina | routers/pedido_routes.py:141-204 | the paginated response carries the row total, the requested page and size; the page count is the least number of `size`-row pages holding the total; the items are the rows from offset `(page - 1) * size` up to `size` rows further, cut at the end of the rows |
| Pagination.PaginaNaoVazia | routers/pedido_routes.py:147-159 | the page at offset `(page-1)*size` has rows iff `page <= pages` |
| Pagination.PaginasCobrem | routers/pedido_routes.py:147-196 | pages 1 to `pages`, one after the other, are exactly the rows, each once and in order |
| CsvParse.Digitos | Utils/utils.py:14 | the decimal digits written for a natural number: non-empty and all digits |
| CsvParse.ParseIntDecimal | Utils/utils.py:52 | `int(str(n)) == n` for every integer, negatives included |
| CsvParse.CabecalhoNaoNumerico | Utils/utils.py:52 | `int("id")` raises ValueError |
| CsvRows.ManterCaracterizado | Utils/utils.py:68-74 | the rows kept by removal: none has the id, every row without it is kept, and the length is unchanged iff no row had the id |
| CsvRows.NaoVaziasCaracterizado | Utils/utils.py:36-37 | the rows turned into objects are exactly the non-empty rows: each kept row is non-empty and from the file, and every non-empty row is kept |
| CsvRows.ContarRegistros | Utils/utils.py:82-85 | the record count is the number of non-empty rows; it equals the row count iff no row is empty |
| CsvRows.VarrerAtualizacao | Utils/utils.py:49-56 | succeeds iff every row's first cell is an integer, otherwise fails with the first bad row's error; returns the rows with every match replaced and a flag that is true iff some row matched |
| CsvRows.VarrerRemocao | Utils/utils.py:68-74 | succeeds iff every row's first cell is an integer, otherwise fails with the first bad row's error; returns the rows without the id and a flag that is true iff some row had it |
| CsvRows.ArquivoCsv.EscreverCsv | Utils/utils.py:10-14 | appends the record's row at the end of the file |
| CsvRows.ArquivoCsv.LerCsv | Utils/utils.py:16-42 | an empty file gives no objects; a header whose width is not the field count fails; otherwise every later non-empty row gives one object, in order, from its first cells; a row too short for every field fails |
| CsvRows.ArquivoCsv.AtualizarCsv | Utils/utils.py:45-62 | fails on an unparsable id, leaving the file unchanged; otherwise returns whether the id exists, and only then rewrites the file with the matching rows replaced |
| CsvRows.ArquivoCsv.RemoverDoCsv | Utils/utils.py:64-80 | fails on an unparsable id, leaving the file unchanged; otherwise returns whether the id exists, and only then rewrites the file without those rows |
| CsvRows.RemoverIdempotente | Utils/utils.py:64-80 | after a removal no row has the id, and removing it again changes nothing |
| CsvRows.EscritaCorresponde | Utils/utils.py:10-14 | a written record with integer id n is read back by the id test as id n |
| CsvRows.EscreverRemover | Utils/utils.py:64-80 | writing a record with a fresh id and then removing that id restores the file |
| CsvRows.EscreverAtualizar | Utils/utils.py:45-62 | writing a record with a fresh id and then updating that id replaces exactly the written row |
| CsvRows.AtualizarMantemContagem | Utils/utils.py:45-62 | updating with a non-empty row keeps the record count |
| CsvRows.RemoverContagem | Utils/utils.py:82-85 | every row a removal drops was a counted record: the count falls by exactly the number of rows removed |
| CsvRows.CabecalhoBloqueia | Utils/utils.py:52 | a header whose first cell is `id` makes update and removal fail |
| CsvRows.LidosContados | Utils/utils.py:36-39 | with a non-empty header, reading yields the record count minus one objects |
| CsvRows.EscreverLer | Utils/utils.py:16-42 | a non-empty row appended to a file is read back as the last object |

## Left out

- HTTP routing, request parsing and pydantic validation of request bodies are not modelled. A request's `itens` entries are taken as well-formed (integer `produto_id`, `quantidade` and `preco_unitario`). A missing key, which the source would answer with 500, is not modelled.
- Prices and totals are integers (cents). The source uses floats, and float rounding is not modelled.
- The ORM session is left out: flush, refresh, lazy loading and concurrency between requests. Ids come from counters in the snapshot. A rollback restores the counters too, whereas a real database may skip the ids a rolled-back transaction used.
- `data_pedido` (the creation timestamp) is not modelled, because it reads the clock.
- Read views are left out: `listar_pedidos`' response building, `buscar_pedido`, `listar_pedidos_cliente`, `listar_pedidos_por_data` and `listar_itens_pedido`. They only format stored rows. Their order total at routers/pedido_routes.py:312 is `ValorDoPedido`. `Pagination.ListarPagina` takes the rows already ordered and does not model the skipping of items without a product (routers/pedido_routes.py:168-169).
- Status names are compared as strings. The column's enum type, and what the database does with a name outside `StatusPedidoEnum`, are not modelled.
- Foreign keys are not enforced. The update handler stores line items for any `produto_id`, as the code does. The constraint a real database might add is not modelled.
- Update and delete raise 404 for a missing order (routers/pedido_routes.py:337 and :398), but their own `except Exception` (routers/pedido_routes.py:388 and :414) turns it into 500; the model answers 500, as the code does.
- Update neither validates products and stock nor adjusts stock, as the code does.
- The customer and product routes and `compactar_csv` / `calcular_hash` (ZIP and SHA-256 of a file) are not part of this model.
- File I/O is left out: the CSV file is the sequence of rows `csv.reader` yields, so quoting, newlines and encodings are not modelled. The `print` calls in `ler_csv` are left out.
- `CsvRows.ArquivoCsv.LerCsv` does not model pydantic's conversion of cell text to the model's field types: an object is its list of cells. A too-short row stands for the validation error of a required field; an optional field would not fail.
- `CsvRows.ArquivoCsv.LerCsv` returns the inner error of the exception it rewraps, not the rewrapped exception.
- `CsvParse.ParseInt` accepts only ASCII digits and ASCII whitespace. Python's `int` also accepts other Unicode decimal digits and spaces.
- `escrever_csv` writes a record as the list of its field values. How `csv.writer` renders non-integer values is not modelled. `CsvParse.Decimal` is `str` on integers, which is all the id column needs.
- In this snapshot of the repository, `StatusPedidoEnum`, `StatusPedido`, `Pedido` and `ItemPedido` sit inside a string literal in Models/models.py:42-82, so the import at routers/pedido_routes.py:4-12 would fail. The model uses the definitions written inside that literal.
