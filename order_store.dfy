/**
 * The write handlers of `routers/pedido_routes.py` as methods of an in-memory store whose
 * fields are the database tables. Each method does what its handler does step by step
 * (look-ups, the item loop, the running total, in-place stock decrements) and restores the
 * saved tables when it fails, as the session rollback does. Each is proved to end in the
 * state, and with the response, that OrderSpec gives for the state it started from, and to
 * keep the invariant `Consistente`.
 */
module OrderStore {
  import opened Results
  import opened Entities
  import opened OrderSpec
  import OrderLemmas

  class Store {
    var clientes: map<int, Cliente>
    var produtos: map<int, Produto>
    var status: seq<StatusPedido>
    var pedidos: map<int, Pedido>
    var itens: seq<ItemPedido>
    var proximoPedidoId: int
    var proximoItemId: int

    /** The tables as one value. */
    function Snapshot(): Db
      reads this
    {
      Db(clientes, produtos, status, pedidos, itens, proximoPedidoId, proximoItemId)
    }

    ghost predicate Valid()
      reads this
    {
      Consistente(Snapshot())
    }

    /** A store with the given customers, products and seeded status table, and no orders yet. */
    constructor (clientes0: map<int, Cliente>, produtos0: map<int, Produto>, status0: seq<StatusPedido>)
      ensures Valid()
      ensures Snapshot() == Db(clientes0, produtos0, status0, map[], [], 1, 1)
    {
      clientes, produtos, status := clientes0, produtos0, status0;
      pedidos, itens := map[], [];
      proximoPedidoId, proximoItemId := 1, 1;
    }

    /** The session rollback: every table goes back to the saved value. */
    method Reverter(salvo: Db)
      modifies this
      ensures Snapshot() == salvo
    {
      clientes, produtos, status := salvo.clientes, salvo.produtos, salvo.status;
      pedidos, itens := salvo.pedidos, salvo.itens;
      proximoPedidoId, proximoItemId := salvo.proximoPedidoId, salvo.proximoItemId;
    }

    /**
     * `criar_pedido`: checks the customer and the PENDENTE status, inserts the order with a
     * zero total, then for each requested item checks the product and its stock, appends the
     * line item, adds its subtotal to the running total and takes the quantity from stock;
     * finally stores the total. Any failure rolls every table back.
     */
    method CriarPedido(clienteId: int, pedidoItens: seq<ItemReq>) returns (r: Result<int, Falha>)
      requires Valid()
      modifies this
      ensures Valid()
      ensures Efeito(r, Snapshot()) == Criar(old(Snapshot()), clienteId, pedidoItens)
      ensures r.Failure? ==> Snapshot() == old(Snapshot())
    {
      var salvo := Snapshot();
      if clienteId !in clientes {
        r := Failure(Levantar(ClienteNaoEncontrado(clienteId)));
        return;
      }
      var inicial := PrimeiroStatus(status, Pendente);
      if inicial.None? {
        r := Failure(Levantar(StatusInicialAusente));
        return;
      }
      var pedidoId := proximoPedidoId;
      pedidos := pedidos[pedidoId := Pedido(clienteId, inicial.value.id, 0)];
      proximoPedidoId := proximoPedidoId + 1;
      var lancado := LancarItens(pedidoId, pedidoItens, salvo.produtos);
      if lancado.Failure? {
        r := Failure(lancado.error);
        Reverter(salvo);
        return;
      }
      pedidos := pedidos[pedidoId := Pedido(clienteId, inicial.value.id, lancado.value)];
      r := Success(pedidoId);
      OrderLemmas.CriarPreserva(salvo, clienteId, pedidoItens);
    }

    /**
     * The item loop of `criar_pedido`: for each requested item, checks the product and its
     * stock, appends the line item, adds its subtotal to the running total and takes the
     * quantity from stock. It stops at the first item that fails; an insufficient-stock
     * message reads the product as reloaded by the rollback, that is, its committed row in
     * `comprometidos`. On success the tables are what `Percorrer` gives and the result is
     * the sum of the subtotals.
     */
    method LancarItens(pedidoId: int, pedidoItens: seq<ItemReq>, comprometidos: map<int, Produto>)
      returns (r: Result<int, Falha>)
      requires produtos.Keys == comprometidos.Keys
      modifies this
      ensures Percorrer(old(Snapshot()), comprometidos, pedidoId, pedidoItens).Failure? <==> r.Failure?
      ensures r.Failure? ==> r.error == Percorrer(old(Snapshot()), comprometidos, pedidoId, pedidoItens).error
      ensures r.Success? ==>
                && r.value == SomaSubtotais(pedidoItens)
                && Snapshot() == Percorrer(old(Snapshot()), comprometidos, pedidoId, pedidoItens).value
    {
      var valorTotal := 0;
      var i := 0;
      while i < |pedidoItens|
        invariant 0 <= i <= |pedidoItens|
        invariant produtos.Keys == comprometidos.Keys
        invariant Percorrer(old(Snapshot()), comprometidos, pedidoId, pedidoItens)
                  == Percorrer(Snapshot(), comprometidos, pedidoId, pedidoItens[i..])
        invariant valorTotal + SomaSubtotais(pedidoItens[i..]) == SomaSubtotais(pedidoItens)
      {
        var item := pedidoItens[i];
        assert pedidoItens[i..][0] == item && pedidoItens[i..][1..] == pedidoItens[i + 1..];
        if item.produtoId !in produtos {
          r := Failure(Levantar(ProdutoNaoEncontrado(item.produtoId)));
          return;
        }
        var produto := produtos[item.produtoId];
        if produto.estoque < item.quantidade {
          var recarregado := comprometidos[item.produtoId];
          r := Failure(Levantar(EstoqueInsuficiente(recarregado.nome, recarregado.estoque)));
          return;
        }
        itens := itens + [Linha(pedidoId, proximoItemId, item)];
        proximoItemId := proximoItemId + 1;
        valorTotal := valorTotal + item.quantidade * item.precoUnitario;
        produtos := produtos[item.produtoId := produto.(estoque := produto.estoque - item.quantidade)];
        i := i + 1;
      }
      assert pedidoItens[i..] == [];
      r := Success(valorTotal);
    }

    /**
     * `atualizar_pedido`: looks the order up; when a non-empty status name is given, looks
     * up the first status of that name and takes its id; when non-empty items are given,
     * deletes the order's items, inserts the new ones while summing their subtotals and
     * stores that sum as the total. Stock is never touched. Any failure changes nothing.
     */
    method AtualizarPedido(pedidoId: int, novoStatus: Option<string>, novosItens: Option<seq<ItemReq>>)
      returns (r: Result<Pedido, Falha>)
      requires Valid()
      modifies this
      ensures Valid()
      ensures Efeito(r, Snapshot()) == Atualizar(old(Snapshot()), pedidoId, novoStatus, novosItens)
      ensures r.Failure? ==> Snapshot() == old(Snapshot())
      ensures produtos == old(produtos)
    {
      ghost var antes := Snapshot();
      if pedidoId !in pedidos {
        r := Failure(Capturar(PedidoNaoEncontrado));
        return;
      }
      var pedido := pedidos[pedidoId];
      if novoStatus.Some? && novoStatus.value != "" {
        var encontrado := PrimeiroStatus(status, novoStatus.value);
        if encontrado.None? {
          r := Failure(Capturar(StatusNaoEncontrado));
          return;
        }
        pedido := pedido.(statusId := encontrado.value.id);
      }
      if novosItens.Some? && novosItens.value != [] {
        var valorTotal := SubstituirItens(pedidoId, novosItens.value);
        pedido := pedido.(valorTotal := valorTotal);
      }
      pedidos := pedidos[pedidoId := pedido];
      r := Success(pedido);
      OrderLemmas.AtualizarPreserva(antes, pedidoId, novoStatus, novosItens);
    }

    /**
     * The item replacement of `atualizar_pedido`: deletes the order's items, then inserts one
     * line item per new item, in order, while summing their subtotals. Nothing but the items
     * and the item id counter changes.
     */
    method SubstituirItens(pedidoId: int, novos: seq<ItemReq>) returns (valorTotal: int)
      modifies this
      ensures itens == SemItensDoPedido(old(itens), pedidoId) + Linhas(pedidoId, old(proximoItemId), novos)
      ensures proximoItemId == old(proximoItemId) + |novos|
      ensures valorTotal == SomaSubtotais(novos)
      ensures clientes == old(clientes) && produtos == old(produtos) && status == old(status)
      ensures pedidos == old(pedidos) && proximoPedidoId == old(proximoPedidoId)
    {
      var restantes := SemItensDoPedido(itens, pedidoId);
      var primeiroId := proximoItemId;
      var novas: seq<ItemPedido> := restantes;
      var proximo := primeiroId;
      valorTotal := 0;
      var i := 0;
      while i < |novos|
        modifies {}
        invariant 0 <= i <= |novos|
        invariant novas == restantes + Linhas(pedidoId, primeiroId, novos[..i])
        invariant proximo == primeiroId + i
        invariant valorTotal + SomaSubtotais(novos[i..]) == SomaSubtotais(novos)
      {
        var item := novos[i];
        OrderLemmas.LinhasSnoc(pedidoId, primeiroId, novos, i);
        assert novos[i..][0] == item && novos[i..][1..] == novos[i + 1..];
        novas := novas + [Linha(pedidoId, proximo, item)];
        proximo := proximo + 1;
        valorTotal := valorTotal + item.quantidade * item.precoUnitario;
        i := i + 1;
      }
      assert novos[..i] == novos && novos[i..] == [];
      itens, proximoItemId := novas, proximo;
    }

    /**
     * `deletar_pedido`: looks the order up, deletes its items and then the order. Stock is
     * never touched. A missing order changes nothing.
     */
    method DeletarPedido(pedidoId: int) returns (r: Result<int, Falha>)
      requires Valid()
      modifies this
      ensures Valid()
      ensures Efeito(r, Snapshot()) == Deletar(old(Snapshot()), pedidoId)
      ensures r.Failure? ==> Snapshot() == old(Snapshot())
      ensures produtos == old(produtos)
    {
      ghost var antes := Snapshot();
      if pedidoId !in pedidos {
        r := Failure(Capturar(PedidoNaoEncontrado));
        return;
      }
      itens := SemItensDoPedido(itens, pedidoId);
      pedidos := pedidos - {pedidoId};
      r := Success(pedidoId);
      OrderLemmas.DeletarPreserva(antes, pedidoId);
    }
  }
}
