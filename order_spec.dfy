/**
 * The order workflow of `routers/pedido_routes.py` as functions on database snapshots.
 *
 * `Criar`, `Atualizar` and `Deletar` give, for a snapshot taken before the request, the
 * response and the snapshot after it; a failed request leaves the snapshot as it was (the
 * session rollback). `Passo` is one pass of the item loop of `criar_pedido` and `Percorrer`
 * runs it over the item list. `Viavel`, `Debitar`, `Demanda` and `Linhas` say the same thing
 * without a loop: which item lists go through, how much stock each product loses and which
 * line items are inserted. The lemmas in OrderLemmas connect the two descriptions.
 */
module OrderSpec {
  import opened Results
  import opened Entities

  /** The response of a handler together with the database state after it. */
  datatype Efeito<T> = Efeito(resposta: Result<T, Falha>, depois: Db)

  /** A failure raised as an HTTPException and re-raised unchanged (as `criar_pedido` does). */
  function Levantar(m: Motivo): Falha
  {
    Falha(CodigoLevantado(m), m)
  }

  /**
   * A failure caught by `except Exception` and re-raised as a 500 (as `atualizar_pedido` and
   * `deletar_pedido` do, which also catches the HTTPExceptions they raise themselves).
   */
  function Capturar(m: Motivo): Falha
  {
    Falha(500, m)
  }

  /** The subtotal `quantidade * preco_unitario` of one requested item. */
  function Subtotal(item: ItemReq): int
  {
    item.quantidade * item.precoUnitario
  }

  /** The sum of the subtotals of a list of requested items. */
  function SomaSubtotais(s: seq<ItemReq>): int
  {
    if s == [] then 0 else Subtotal(s[0]) + SomaSubtotais(s[1..])
  }

  /** The sum of `quantidade * preco_unitario` over the stored items of one order. */
  function ValorDoPedido(itens: seq<ItemPedido>, pedidoId: int): int
  {
    if itens == [] then 0
    else (if itens[0].pedidoId == pedidoId then itens[0].quantidade * itens[0].precoUnitario else 0)
         + ValorDoPedido(itens[1..], pedidoId)
  }

  /** The total quantity that the items of `s` ask of product `produtoId`. */
  function Demanda(s: seq<ItemReq>, produtoId: int): int
  {
    if s == [] then 0
    else (if s[0].produtoId == produtoId then s[0].quantidade else 0) + Demanda(s[1..], produtoId)
  }

  /** Whether some item of `s` names product `produtoId`. */
  predicate Nomeia(s: seq<ItemReq>, produtoId: int)
  {
    exists k :: 0 <= k < |s| && s[k].produtoId == produtoId
  }

  /** Every product with its stock lowered by the total quantity the items ask of it. */
  function Debitar(produtos: map<int, Produto>, s: seq<ItemReq>): map<int, Produto>
  {
    map p | p in produtos :: produtos[p].(estoque := produtos[p].estoque - Demanda(s, p))
  }

  /**
   * Whether `item` passes the checks of `criar_pedido` once the items `anteriores` have
   * been taken from stock: its product exists and the remaining stock covers it.
   */
  predicate ItemAceito(produtos: map<int, Produto>, anteriores: seq<ItemReq>, item: ItemReq)
  {
    && item.produtoId in produtos
    && Demanda(anteriores, item.produtoId) + item.quantidade <= produtos[item.produtoId].estoque
  }

  /** Whether every item passes its checks, each one seeing the decrements of those before it. */
  predicate Viavel(produtos: map<int, Produto>, s: seq<ItemReq>)
  {
    forall k :: 0 <= k < |s| ==> ItemAceito(produtos, s[..k], s[k])
  }

  /**
   * The failure raised for an item that does not pass its checks, given the product rows
   * as committed before the request. The insufficient-stock message is built after the
   * session rollback, which discards the loaded rows, so it reports the product's
   * committed stock, not the stock left after the request's earlier items.
   */
  function ErroDoItem(comprometidos: map<int, Produto>, item: ItemReq): Falha
  {
    if item.produtoId !in comprometidos then Levantar(ProdutoNaoEncontrado(item.produtoId))
    else
      var recarregado := comprometidos[item.produtoId];
      Levantar(EstoqueInsuficiente(recarregado.nome, recarregado.estoque))
  }

  /** The stored line item for a requested item: the request's price is kept as a snapshot. */
  function Linha(pedidoId: int, id: int, item: ItemReq): ItemPedido
  {
    ItemPedido(id, pedidoId, item.produtoId, item.quantidade, item.precoUnitario)
  }

  /** The line items inserted for `s`, one per requested item, in order, with consecutive ids. */
  function Linhas(pedidoId: int, primeiroId: int, s: seq<ItemReq>): seq<ItemPedido>
  {
    seq(|s|, k requires 0 <= k < |s| => Linha(pedidoId, primeiroId + k, s[k]))
  }

  /** The items of the store that do not belong to order `pedidoId`, in their order. */
  function SemItensDoPedido(itens: seq<ItemPedido>, pedidoId: int): (r: seq<ItemPedido>)
    ensures |r| <= |itens|
  {
    if itens == [] then []
    else if itens[0].pedidoId == pedidoId then SemItensDoPedido(itens[1..], pedidoId)
    else [itens[0]] + SemItensDoPedido(itens[1..], pedidoId)
  }

  /**
   * The first row of the status table with the given name (`select ... .first()`), if any.
   */
  function PrimeiroStatus(status: seq<StatusPedido>, nome: string): (r: Option<StatusPedido>)
    ensures r.None? <==> forall k :: 0 <= k < |status| ==> status[k].nome != nome
    ensures r.Some? ==>
      exists k :: (0 <= k < |status| && status[k] == r.value && r.value.nome == nome &&
        forall j :: 0 <= j < k ==> status[j].nome != nome)
  {
    if status == [] then None
    else if status[0].nome == nome then Some(status[0])
    else
      var r := PrimeiroStatus(status[1..], nome);
      assert r.Some? ==> exists k :: (0 < k < |status| && status[k] == r.value && r.value.nome == nome &&
        forall j :: 0 <= j < k ==> status[j].nome != nome) by {
        if r.Some? {
          var k :| (0 <= k < |status| - 1 && status[1..][k] == r.value && r.value.nome == nome &&
            forall j :: 0 <= j < k ==> status[1..][j].nome != nome);
          assert status[k + 1] == r.value;
          assert forall j :: 0 < j < k + 1 ==> status[j].nome != nome by {
            forall j | 0 < j < k + 1 ensures status[j].nome != nome {
              assert status[j] == status[1..][j - 1];
            }
          }
        }
      }
      r
  }

  /**
   * One pass of the item loop of `criar_pedido`: look the product up, check its stock,
   * append the line item and take the quantity from stock. `comprometidos` are the product
   * rows as committed before the request: when the stock check fails, the rollback runs
   * before the message is built, and the message reads the product reloaded from them.
   */
  function Passo(d: Db, comprometidos: map<int, Produto>, pedidoId: int, item: ItemReq): (r: Result<Db, Falha>)
    requires d.produtos.Keys == comprometidos.Keys
    ensures r.Success? ==> r.value.produtos.Keys == d.produtos.Keys
  {
    if item.produtoId !in d.produtos then Failure(Levantar(ProdutoNaoEncontrado(item.produtoId)))
    else
      var produto := d.produtos[item.produtoId];
      if produto.estoque < item.quantidade then
        var recarregado := comprometidos[item.produtoId];
        Failure(Levantar(EstoqueInsuficiente(recarregado.nome, recarregado.estoque)))
      else
        Success(d.(itens := d.itens + [Linha(pedidoId, d.proximoItemId, item)],
                   proximoItemId := d.proximoItemId + 1,
                   produtos := d.produtos[item.produtoId := produto.(estoque := produto.estoque - item.quantidade)]))
  }

  /** The item loop of `criar_pedido`, stopping at the first item that fails. */
  function Percorrer(d: Db, comprometidos: map<int, Produto>, pedidoId: int, s: seq<ItemReq>): Result<Db, Falha>
    requires d.produtos.Keys == comprometidos.Keys
    decreases |s|
  {
    if s == [] then Success(d)
    else
      match Passo(d, comprometidos, pedidoId, s[0])
      case Failure(e) => Failure(e)
      case Success(d1) => Percorrer(d1, comprometidos, pedidoId, s[1..])
  }

  /** `criar_pedido`: the new order's id, or the failure and the untouched snapshot. */
  function Criar(d: Db, clienteId: int, s: seq<ItemReq>): Efeito<int>
  {
    if clienteId !in d.clientes then Efeito(Failure(Levantar(ClienteNaoEncontrado(clienteId))), d)
    else
      match PrimeiroStatus(d.status, Pendente)
      case None => Efeito(Failure(Levantar(StatusInicialAusente)), d)
      case Some(inicial) =>
        var pedidoId := d.proximoPedidoId;
        var aberto := d.(pedidos := d.pedidos[pedidoId := Pedido(clienteId, inicial.id, 0)],
                         proximoPedidoId := pedidoId + 1);
        match Percorrer(aberto, d.produtos, pedidoId, s)
        case Failure(e) => Efeito(Failure(e), d)
        case Success(d1) =>
          Efeito(Success(pedidoId),
                 d1.(pedidos := d1.pedidos[pedidoId := Pedido(clienteId, inicial.id, SomaSubtotais(s))]))
  }

  /** Whether an update request carries a status (`if pedido_update.status:`). */
  predicate TemStatus(status: Option<string>)
  {
    status.Some? && status.value != ""
  }

  /** Whether an update request carries items (`if pedido_update.itens:`). */
  predicate TemItens(novos: Option<seq<ItemReq>>)
  {
    novos.Some? && novos.value != []
  }

  /** `atualizar_pedido`: the updated order row, or the failure and the untouched snapshot. */
  function Atualizar(d: Db, pedidoId: int, status: Option<string>, novos: Option<seq<ItemReq>>): Efeito<Pedido>
  {
    if pedidoId !in d.pedidos then Efeito(Failure(Capturar(PedidoNaoEncontrado)), d)
    else if TemStatus(status) && PrimeiroStatus(d.status, status.value).None? then
      Efeito(Failure(Capturar(StatusNaoEncontrado)), d)
    else
      var p0 := d.pedidos[pedidoId];
      var p1 := if TemStatus(status) then p0.(statusId := PrimeiroStatus(d.status, status.value).value.id) else p0;
      if TemItens(novos) then
        var p2 := p1.(valorTotal := SomaSubtotais(novos.value));
        Efeito(Success(p2),
               d.(pedidos := d.pedidos[pedidoId := p2],
                  itens := SemItensDoPedido(d.itens, pedidoId) + Linhas(pedidoId, d.proximoItemId, novos.value),
                  proximoItemId := d.proximoItemId + |novos.value|))
      else
        Efeito(Success(p1), d.(pedidos := d.pedidos[pedidoId := p1]))
  }

  /** `deletar_pedido`: the deleted order's id, or the failure and the untouched snapshot. */
  function Deletar(d: Db, pedidoId: int): Efeito<int>
  {
    if pedidoId !in d.pedidos then Efeito(Failure(Capturar(PedidoNaoEncontrado)), d)
    else
      Efeito(Success(pedidoId),
             d.(itens := SemItensDoPedido(d.itens, pedidoId), pedidos := d.pedidos - {pedidoId}))
  }

  /**
   * The database invariant the three handlers keep: ids handed out are fresh, every line
   * item belongs to an existing order, and every order's total is the sum of its items'
   * subtotals (the `valor_total` that `listar_itens_pedido` recomputes).
   */
  ghost predicate Consistente(d: Db)
  {
    && (forall id :: id in d.pedidos ==> id < d.proximoPedidoId)
    && (forall k :: 0 <= k < |d.itens| ==> d.itens[k].pedidoId in d.pedidos)
    && (forall id :: id in d.pedidos ==> d.pedidos[id].valorTotal == ValorDoPedido(d.itens, id))
  }

  /** No product has negative stock. */
  ghost predicate EstoqueNaoNegativo(produtos: map<int, Produto>)
  {
    forall p :: p in produtos ==> produtos[p].estoque >= 0
  }
}
