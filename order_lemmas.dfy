/**
 * Properties of the order workflow of `routers/pedido_routes.py`, proved about the
 * functions of OrderSpec: what the item loop of `criar_pedido` computes, when it fails and
 * with which error, what it does to stock, and that the three write handlers keep the
 * database invariant `Consistente`.
 */
module OrderLemmas {
  import opened Results
  import opened Entities
  import opened OrderSpec

  // ---------------------------------------------------------------------------------------
  // Arithmetic of demands, sums and line items over concatenated lists
  // ---------------------------------------------------------------------------------------

  /** The demand of two lists one after the other is the sum of their demands. */
  lemma {:induction false} DemandaConcat(a: seq<ItemReq>, b: seq<ItemReq>, p: int)
    ensures Demanda(a + b, p) == Demanda(a, p) + Demanda(b, p)
  {
    if a == [] {
      assert a + b == b;
    } else {
      assert (a + b)[1..] == a[1..] + b;
      DemandaConcat(a[1..], b, p);
    }
  }

  /** The order totals of two item tables one after the other add up. */
  lemma {:induction false} ValorConcat(a: seq<ItemPedido>, b: seq<ItemPedido>, id: int)
    ensures ValorDoPedido(a + b, id) == ValorDoPedido(a, id) + ValorDoPedido(b, id)
  {
    if a == [] {
      assert a + b == b;
    } else {
      assert (a + b)[1..] == a[1..] + b;
      ValorConcat(a[1..], b, id);
    }
  }

  /** An order none of whose items is in the table has a total of zero there. */
  lemma {:induction false} ValorAusente(itens: seq<ItemPedido>, id: int)
    requires forall k :: 0 <= k < |itens| ==> itens[k].pedidoId != id
    ensures ValorDoPedido(itens, id) == 0
  {
    if itens != [] {
      ValorAusente(itens[1..], id);
    }
  }

  /** The first line item, then the rest with the next ids. */
  lemma {:induction false} LinhasCons(pedidoId: int, primeiroId: int, s: seq<ItemReq>)
    requires s != []
    ensures Linhas(pedidoId, primeiroId, s)
            == [Linha(pedidoId, primeiroId, s[0])] + Linhas(pedidoId, primeiroId + 1, s[1..])
  {
  }

  /**
   * The inserted line items of an order add up, in the order's total, to the sum of the
   * requested subtotals, and contribute nothing to any other order.
   */
  lemma {:induction false} ValorLinhas(pedidoId: int, primeiroId: int, s: seq<ItemReq>, id: int)
    ensures ValorDoPedido(Linhas(pedidoId, primeiroId, s), id) == if id == pedidoId then SomaSubtotais(s) else 0
    decreases |s|
  {
    if s == [] {
      assert Linhas(pedidoId, primeiroId, s) == [];
    } else {
      LinhasCons(pedidoId, primeiroId, s);
      var l := Linhas(pedidoId, primeiroId, s);
      assert l[1..] == Linhas(pedidoId, primeiroId + 1, s[1..]);
      ValorLinhas(pedidoId, primeiroId + 1, s[1..], id);
    }
  }

  /** The line items for one more requested item: the next line item, at the next id. */
  lemma {:induction false} LinhasSnoc(pedidoId: int, primeiroId: int, s: seq<ItemReq>, i: nat)
    requires i < |s|
    ensures Linhas(pedidoId, primeiroId, s[..i + 1])
            == Linhas(pedidoId, primeiroId, s[..i]) + [Linha(pedidoId, primeiroId + i, s[i])]
  {
  }

  /** Dropping an order's items zeroes its total and leaves every other order's total as it was. */
  lemma {:induction false} ValorSemItens(itens: seq<ItemPedido>, pedidoId: int, id: int)
    ensures ValorDoPedido(SemItensDoPedido(itens, pedidoId), id)
            == if id == pedidoId then 0 else ValorDoPedido(itens, id)
  {
    if itens != [] {
      ValorSemItens(itens[1..], pedidoId, id);
      if itens[0].pedidoId != pedidoId {
        var r := SemItensDoPedido(itens, pedidoId);
        assert r[0] == itens[0];
        assert r[1..] == SemItensDoPedido(itens[1..], pedidoId);
      }
    }
  }

  /**
   * The bulk delete of an order's items: no item of that order is left, every other item
   * is kept, and nothing is added.
   */
  lemma {:induction false} SemItensCaracterizado(itens: seq<ItemPedido>, pedidoId: int)
    ensures forall k :: 0 <= k < |SemItensDoPedido(itens, pedidoId)| ==>
              SemItensDoPedido(itens, pedidoId)[k].pedidoId != pedidoId && SemItensDoPedido(itens, pedidoId)[k] in itens
    ensures forall k :: 0 <= k < |itens| && itens[k].pedidoId != pedidoId ==> itens[k] in SemItensDoPedido(itens, pedidoId)
  {
    if itens != [] {
      SemItensCaracterizado(itens[1..], pedidoId);
      forall k | 0 < k < |itens| ensures itens[k] == itens[1..][k - 1] {
      }
    }
  }

  // ---------------------------------------------------------------------------------------
  // The item loop of criar_pedido against its declarative description
  // ---------------------------------------------------------------------------------------

  /** Debiting a list that starts with `a` is debiting `a`, then the rest. */
  lemma {:induction false} DebitarCons(produtos: map<int, Produto>, s: seq<ItemReq>)
    requires s != []
    ensures Debitar(produtos, s) == Debitar(Debitar(produtos, [s[0]]), s[1..])
  {
    var um := Debitar(produtos, [s[0]]);
    forall p | p in produtos
      ensures Debitar(produtos, s)[p] == Debitar(um, s[1..])[p]
    {
      assert Demanda([s[0]], p) == (if s[0].produtoId == p then s[0].quantidade else 0) by {
        assert [s[0]][1..] == [];
      }
    }
  }

  /** Debiting nothing changes nothing. */
  lemma {:induction false} DebitarVazio(produtos: map<int, Produto>)
    ensures Debitar(produtos, []) == produtos
  {
  }

  /** One successful pass of the loop debits exactly the one item it handled. */
  lemma {:induction false} PassoDebita(d: Db, comprometidos: map<int, Produto>, pedidoId: int, item: ItemReq)
    requires d.produtos.Keys == comprometidos.Keys
    requires Passo(d, comprometidos, pedidoId, item).Success?
    ensures Passo(d, comprometidos, pedidoId, item).value.produtos == Debitar(d.produtos, [item])
  {
    var d1 := Passo(d, comprometidos, pedidoId, item).value;
    forall p | p in d.produtos
      ensures d1.produtos[p] == Debitar(d.produtos, [item])[p]
    {
      assert Demanda([item], p) == (if item.produtoId == p then item.quantidade else 0) by {
        assert [item][1..] == [];
      }
    }
  }

  /** An item's check against the stock left by `[a] + u` is its check after debiting `a`, against `u`. */
  lemma {:induction false} ItemAceitoDeslocado(produtos: map<int, Produto>, a: ItemReq, u: seq<ItemReq>, item: ItemReq)
    ensures ItemAceito(produtos, [a] + u, item) <==> ItemAceito(Debitar(produtos, [a]), u, item)
  {
    DemandaConcat([a], u, item.produtoId);
  }

  /** A list goes through iff its first item does and the rest goes through the debited stock. */
  lemma {:induction false} ViavelCons(produtos: map<int, Produto>, s: seq<ItemReq>)
    requires s != []
    ensures Viavel(produtos, s) <==>
              ItemAceito(produtos, [], s[0]) && Viavel(Debitar(produtos, [s[0]]), s[1..])
  {
    var a, t := s[0], s[1..];
    var um := Debitar(produtos, [a]);
    assert s[..0] == [];
    if Viavel(produtos, s) {
      forall k | 0 <= k < |t| ensures ItemAceito(um, t[..k], t[k]) {
        assert s[..k + 1] == [a] + t[..k];
        assert ItemAceito(produtos, s[..k + 1], s[k + 1]);
        ItemAceitoDeslocado(produtos, a, t[..k], t[k]);
      }
    }
    if ItemAceito(produtos, [], a) && Viavel(um, t) {
      forall k | 0 <= k < |s| ensures ItemAceito(produtos, s[..k], s[k]) {
        if k > 0 {
          assert s[..k] == [a] + t[..k - 1];
          assert ItemAceito(um, t[..k - 1], t[k - 1]);
          ItemAceitoDeslocado(produtos, a, t[..k - 1], t[k - 1]);
        }
      }
    }
  }

  /**
   * A pass succeeds exactly when the item is accepted against the current stock, and
   * otherwise fails with the item's error built from the committed rows.
   */
  lemma {:induction false} PassoAceito(d: Db, comprometidos: map<int, Produto>, pedidoId: int, item: ItemReq)
    requires d.produtos.Keys == comprometidos.Keys
    ensures Passo(d, comprometidos, pedidoId, item).Success? <==> ItemAceito(d.produtos, [], item)
    ensures Passo(d, comprometidos, pedidoId, item).Failure? ==>
              Passo(d, comprometidos, pedidoId, item).error == ErroDoItem(comprometidos, item)
  {
  }

  /**
   * The item loop of `criar_pedido` succeeds exactly when every item, in order, names an
   * existing product whose stock, after the earlier items' decrements, covers it; it then
   * appends one line item per requested item, in order, with the requested price, and
   * lowers each product's stock by the total quantity asked of it and nothing else.
   */
  lemma {:induction false} PercorrerCaracterizado(d: Db, comprometidos: map<int, Produto>, pedidoId: int, s: seq<ItemReq>)
    requires d.produtos.Keys == comprometidos.Keys
    ensures Percorrer(d, comprometidos, pedidoId, s).Success? <==> Viavel(d.produtos, s)
    ensures Percorrer(d, comprometidos, pedidoId, s).Success? ==>
              Percorrer(d, comprometidos, pedidoId, s).value
              == d.(itens := d.itens + Linhas(pedidoId, d.proximoItemId, s),
                    proximoItemId := d.proximoItemId + |s|,
                    produtos := Debitar(d.produtos, s))
    decreases |s|
  {
    if s == [] {
      DebitarVazio(d.produtos);
      assert Linhas(pedidoId, d.proximoItemId, s) == [];
      assert d.itens + [] == d.itens;
    } else {
      PassoAceito(d, comprometidos, pedidoId, s[0]);
      ViavelCons(d.produtos, s);
      var passo := Passo(d, comprometidos, pedidoId, s[0]);
      if passo.Success? {
        var d1 := passo.value;
        PassoDebita(d, comprometidos, pedidoId, s[0]);
        assert Percorrer(d, comprometidos, pedidoId, s) == Percorrer(d1, comprometidos, pedidoId, s[1..]);
        PercorrerCaracterizado(d1, comprometidos, pedidoId, s[1..]);
        if Percorrer(d1, comprometidos, pedidoId, s[1..]).Success? {
          PassoSeguido(d, comprometidos, pedidoId, s);
        }
      } else {
        assert s[..0] == [];
      }
    }
  }

  /** The state after an accepted first item, followed by the effect of the rest, is the effect of the whole list. */
  lemma {:induction false} PassoSeguido(d: Db, comprometidos: map<int, Produto>, pedidoId: int, s: seq<ItemReq>)
    requires d.produtos.Keys == comprometidos.Keys
    requires s != [] && Passo(d, comprometidos, pedidoId, s[0]).Success?
    ensures var d1 := Passo(d, comprometidos, pedidoId, s[0]).value;
            d1.(itens := d1.itens + Linhas(pedidoId, d1.proximoItemId, s[1..]),
                proximoItemId := d1.proximoItemId + |s[1..]|,
                produtos := Debitar(d1.produtos, s[1..]))
            == d.(itens := d.itens + Linhas(pedidoId, d.proximoItemId, s),
                  proximoItemId := d.proximoItemId + |s|,
                  produtos := Debitar(d.produtos, s))
  {
    var d1 := Passo(d, comprometidos, pedidoId, s[0]).value;
    PassoDebita(d, comprometidos, pedidoId, s[0]);
    DebitarCons(d.produtos, s);
    LinhasCons(pedidoId, d.proximoItemId, s);
    assert d1.itens + Linhas(pedidoId, d1.proximoItemId, s[1..])
           == d.itens + Linhas(pedidoId, d.proximoItemId, s);
  }

  /** The effect half of `PercorrerCaracterizado`, for a loop known to go through. */
  lemma {:induction false} PercorrerEfeito(d: Db, comprometidos: map<int, Produto>, pedidoId: int, s: seq<ItemReq>)
    requires d.produtos.Keys == comprometidos.Keys
    requires Percorrer(d, comprometidos, pedidoId, s).Success?
    ensures Percorrer(d, comprometidos, pedidoId, s).value
            == d.(itens := d.itens + Linhas(pedidoId, d.proximoItemId, s),
                  proximoItemId := d.proximoItemId + |s|,
                  produtos := Debitar(d.produtos, s))
  {
    PercorrerCaracterizado(d, comprometidos, pedidoId, s);
  }

  /**
   * When items `s[..k]` go through and item `k` does not, the loop fails with item `k`'s
   * error: not-found for a missing product, or insufficient stock reporting the product's
   * name and its committed stock.
   */
  lemma {:induction false} PercorrerFalha(d: Db, comprometidos: map<int, Produto>, pedidoId: int, s: seq<ItemReq>, k: nat)
    requires d.produtos.Keys == comprometidos.Keys
    requires k < |s|
    requires Viavel(d.produtos, s[..k])
    requires !ItemAceito(d.produtos, s[..k], s[k])
    ensures Percorrer(d, comprometidos, pedidoId, s) == Failure(ErroDoItem(comprometidos, s[k]))
    decreases k
  {
    PassoAceito(d, comprometidos, pedidoId, s[0]);
    if k == 0 {
      assert s[..0] == [];
    } else {
      var t := s[1..];
      assert s[..k] == [s[0]] + t[..k - 1];
      assert s[..k][0] == s[0] && s[..k][1..] == t[..k - 1];
      ViavelCons(d.produtos, s[..k]);
      assert s[..k][..0] == [];
      var d1 := Passo(d, comprometidos, pedidoId, s[0]).value;
      PassoDebita(d, comprometidos, pedidoId, s[0]);
      ItemAceitoDeslocado(d.produtos, s[0], t[..k - 1], t[k - 1]);
      PercorrerFalha(d1, comprometidos, pedidoId, t, k - 1);
    }
  }

  /**
   * Every product named by an accepted request, and every product whose stock was not
   * negative, has non-negative stock after the debit.
   */
  lemma {:induction false} DebitarNaoNegativo(produtos: map<int, Produto>, s: seq<ItemReq>)
    requires Viavel(produtos, s)
    ensures forall p :: p in produtos && (produtos[p].estoque >= 0 || Nomeia(s, p)) ==>
              Debitar(produtos, s)[p].estoque >= 0
  {
    if s == [] {
      DebitarVazio(produtos);
    } else {
      var a, t := s[0], s[1..];
      var um := Debitar(produtos, [a]);
      ViavelCons(produtos, s);
      assert s[..0] == [];
      DebitarNaoNegativo(um, t);
      DebitarCons(produtos, s);
      assert Demanda([a], a.produtoId) == a.quantidade by { assert [a][1..] == []; }
      forall p | p in produtos && (produtos[p].estoque >= 0 || Nomeia(s, p))
        ensures Debitar(produtos, s)[p].estoque >= 0
      {
        if !Nomeia(t, p) && p != a.produtoId {
          assert Demanda([a], p) == 0 by { assert [a][1..] == []; }
          assert !Nomeia(s, p) by {
            forall k | 0 <= k < |s| ensures s[k].produtoId != p {
              if k > 0 {
                assert s[k] == t[k - 1];
              }
            }
          }
        }
      }
    }
  }

  // ---------------------------------------------------------------------------------------
  // criar_pedido
  // ---------------------------------------------------------------------------------------

  /**
   * `criar_pedido`, failure cases: a missing customer fails with 404 and a missing PENDENTE
   * status with 500, and every failure leaves the database as it was.
   */
  lemma {:induction false} CriarRecusado(d: Db, clienteId: int, s: seq<ItemReq>)
    ensures Criar(d, clienteId, s).resposta.Failure? ==> Criar(d, clienteId, s).depois == d
    ensures clienteId !in d.clientes ==>
              Criar(d, clienteId, s).resposta == Failure(Falha(404, ClienteNaoEncontrado(clienteId)))
    ensures clienteId in d.clientes && PrimeiroStatus(d.status, Pendente).None? ==>
              Criar(d, clienteId, s).resposta == Failure(Falha(500, StatusInicialAusente))
  {
    if clienteId in d.clientes && PrimeiroStatus(d.status, Pendente).Some? {
      var inicial := PrimeiroStatus(d.status, Pendente).value;
      var pedidoId := d.proximoPedidoId;
      var aberto := d.(pedidos := d.pedidos[pedidoId := Pedido(clienteId, inicial.id, 0)],
                       proximoPedidoId := pedidoId + 1);
      match Percorrer(aberto, d.produtos, pedidoId, s)
      case Failure(e) =>
        assert Criar(d, clienteId, s) == Efeito(Failure(e), d);
      case Success(d1) =>
    }
  }

  /**
   * `criar_pedido` with an existing customer and a PENDENTE status succeeds exactly when its
   * items go through (`Viavel`). A success adds one order under a fresh id, with the
   * requesting customer, the first PENDENTE status and the sum of the requested subtotals
   * as its total; appends one line item per requested item, in order, carrying the
   * requested price; lowers each product's stock by the total quantity asked of it; and
   * changes nothing else.
   */
  lemma {:induction false} CriarAceito(d: Db, clienteId: int, s: seq<ItemReq>)
    requires clienteId in d.clientes && PrimeiroStatus(d.status, Pendente).Some?
    ensures Criar(d, clienteId, s).resposta.Success? <==> Viavel(d.produtos, s)
    ensures Criar(d, clienteId, s).resposta.Success? ==>
              var inicial := PrimeiroStatus(d.status, Pendente).value;
              && inicial.nome == Pendente
              && Criar(d, clienteId, s).resposta.value == d.proximoPedidoId
              && Criar(d, clienteId, s).depois
                 == d.(pedidos := d.pedidos[d.proximoPedidoId := Pedido(clienteId, inicial.id, SomaSubtotais(s))],
                       proximoPedidoId := d.proximoPedidoId + 1,
                       itens := d.itens + Linhas(d.proximoPedidoId, d.proximoItemId, s),
                       proximoItemId := d.proximoItemId + |s|,
                       produtos := Debitar(d.produtos, s))
  {
    CriarViavel(d, clienteId, s);
    CriarDesdobrado(d, clienteId, s);
    if Criar(d, clienteId, s).resposta.Success? {
      CriarEstado(d, clienteId, s);
    }
  }

  /** The success half of `CriarAceito`: creation goes through exactly when the items do. */
  lemma {:induction false} CriarViavel(d: Db, clienteId: int, s: seq<ItemReq>)
    requires clienteId in d.clientes && PrimeiroStatus(d.status, Pendente).Some?
    ensures Criar(d, clienteId, s).resposta.Success? <==> Viavel(d.produtos, s)
  {
    var inicial := PrimeiroStatus(d.status, Pendente).value;
    var aberto := d.(pedidos := d.pedidos[d.proximoPedidoId := Pedido(clienteId, inicial.id, 0)],
                     proximoPedidoId := d.proximoPedidoId + 1);
    CriarDesdobrado(d, clienteId, s);
    PercorrerCaracterizado(aberto, d.produtos, d.proximoPedidoId, s);
  }

  /** The state half of `CriarAceito`: what a creation whose items go through leaves behind. */
  lemma {:induction false} CriarEstado(d: Db, clienteId: int, s: seq<ItemReq>)
    requires clienteId in d.clientes && PrimeiroStatus(d.status, Pendente).Some?
    requires Criar(d, clienteId, s).resposta.Success?
    ensures var inicial := PrimeiroStatus(d.status, Pendente).value;
            Criar(d, clienteId, s).depois
               == d.(pedidos := d.pedidos[d.proximoPedidoId := Pedido(clienteId, inicial.id, SomaSubtotais(s))],
                     proximoPedidoId := d.proximoPedidoId + 1,
                     itens := d.itens + Linhas(d.proximoPedidoId, d.proximoItemId, s),
                     proximoItemId := d.proximoItemId + |s|,
                     produtos := Debitar(d.produtos, s))
  {
    var inicial := PrimeiroStatus(d.status, Pendente).value;
    var pedidoId := d.proximoPedidoId;
    var aberto := d.(pedidos := d.pedidos[pedidoId := Pedido(clienteId, inicial.id, 0)],
                     proximoPedidoId := pedidoId + 1);
    var pedido := Pedido(clienteId, inicial.id, SomaSubtotais(s));
    CriarDesdobrado(d, clienteId, s);
    var laco := Percorrer(aberto, d.produtos, pedidoId, s);
    assert laco.Success?;
    assert Criar(d, clienteId, s).depois == laco.value.(pedidos := laco.value.pedidos[pedidoId := pedido]);
    PercorrerEfeito(aberto, d.produtos, pedidoId, s);
    FecharPedido(d, laco.value, pedidoId, Pedido(clienteId, inicial.id, 0), pedido, s);
  }

  /**
   * Opening an order as `rascunho`, running the item loop on it and then storing the order
   * as `pedido` leaves the same tables as storing `pedido` directly next to the loop's
   * effects.
   */
  lemma {:induction false} FecharPedido(d: Db, d1: Db, pedidoId: int, rascunho: Pedido, pedido: Pedido, s: seq<ItemReq>)
    requires d1 == d.(pedidos := d.pedidos[pedidoId := rascunho], proximoPedidoId := pedidoId + 1,
                      itens := d.itens + Linhas(pedidoId, d.proximoItemId, s),
                      proximoItemId := d.proximoItemId + |s|,
                      produtos := Debitar(d.produtos, s))
    ensures d1.(pedidos := d1.pedidos[pedidoId := pedido])
            == d.(pedidos := d.pedidos[pedidoId := pedido], proximoPedidoId := pedidoId + 1,
                  itens := d.itens + Linhas(pedidoId, d.proximoItemId, s),
                  proximoItemId := d.proximoItemId + |s|,
                  produtos := Debitar(d.produtos, s))
  {
    assert d.pedidos[pedidoId := rascunho][pedidoId := pedido] == d.pedidos[pedidoId := pedido];
  }

  /** `criar_pedido` past its customer and status checks is the item loop on the opened order. */
  lemma {:induction false} CriarDesdobrado(d: Db, clienteId: int, s: seq<ItemReq>)
    requires clienteId in d.clientes && PrimeiroStatus(d.status, Pendente).Some?
    ensures var inicial := PrimeiroStatus(d.status, Pendente).value;
            var aberto := d.(pedidos := d.pedidos[d.proximoPedidoId := Pedido(clienteId, inicial.id, 0)],
                             proximoPedidoId := d.proximoPedidoId + 1);
            var laco := Percorrer(aberto, d.produtos, d.proximoPedidoId, s);
            && (Criar(d, clienteId, s).resposta.Success? <==> laco.Success?)
            && (laco.Success? ==>
                  && Criar(d, clienteId, s).resposta.value == d.proximoPedidoId
                  && Criar(d, clienteId, s).depois
                     == laco.value.(pedidos := laco.value.pedidos[d.proximoPedidoId := Pedido(clienteId, inicial.id, SomaSubtotais(s))]))
  {
  }

  /**
   * A `criar_pedido` request whose item `k` is the first one to fail its checks fails with
   * that item's error, and the database is unchanged: 404 for a missing product, or 400
   * naming the product and reporting its stock as committed before the request.
   */
  lemma {:induction false} CriarItemRecusado(d: Db, clienteId: int, s: seq<ItemReq>, k: nat)
    requires clienteId in d.clientes && PrimeiroStatus(d.status, Pendente).Some?
    requires k < |s| && Viavel(d.produtos, s[..k]) && !ItemAceito(d.produtos, s[..k], s[k])
    ensures Criar(d, clienteId, s) == Efeito(Failure(ErroDoItem(d.produtos, s[k])), d)
    ensures Criar(d, clienteId, s).resposta.error
            == if s[k].produtoId in d.produtos
               then Falha(400, EstoqueInsuficiente(d.produtos[s[k].produtoId].nome, d.produtos[s[k].produtoId].estoque))
               else Falha(404, ProdutoNaoEncontrado(s[k].produtoId))
  {
    var inicial := PrimeiroStatus(d.status, Pendente).value;
    var pedidoId := d.proximoPedidoId;
    var aberto := d.(pedidos := d.pedidos[pedidoId := Pedido(clienteId, inicial.id, 0)],
                     proximoPedidoId := pedidoId + 1);
    PercorrerFalha(aberto, d.produtos, pedidoId, s, k);
  }

  /**
   * Two items of the same product, each within its stock but together over it: the second
   * one fails with 400, and the message reports the whole committed stock, not what the
   * first item left.
   */
  lemma {:induction false} SegundoItemRelataEstoqueComprometido(d: Db, clienteId: int, a: ItemReq, b: ItemReq)
    requires clienteId in d.clientes && PrimeiroStatus(d.status, Pendente).Some?
    requires a.produtoId in d.produtos && b.produtoId == a.produtoId
    requires 0 <= a.quantidade <= d.produtos[a.produtoId].estoque
    requires d.produtos[a.produtoId].estoque < a.quantidade + b.quantidade
    ensures Criar(d, clienteId, [a, b])
            == Efeito(Failure(Falha(400, EstoqueInsuficiente(d.produtos[a.produtoId].nome, d.produtos[a.produtoId].estoque))), d)
  {
    var s := [a, b];
    assert s[..1] == [a];
    assert Demanda([a], a.produtoId) == a.quantidade;
    assert Demanda(s[..0], a.produtoId) == 0;
    assert Viavel(d.produtos, s[..1]);
    CriarItemRecusado(d, clienteId, s, 1);
  }

  /**
   * After a successful `criar_pedido` every product named in the request has non-negative
   * stock, and if no stock was negative before, none is after.
   */
  lemma {:induction false} CriarEstoqueNaoNegativo(d: Db, clienteId: int, s: seq<ItemReq>)
    requires Criar(d, clienteId, s).resposta.Success?
    ensures forall p :: p in d.produtos && Nomeia(s, p) ==>
              p in Criar(d, clienteId, s).depois.produtos && Criar(d, clienteId, s).depois.produtos[p].estoque >= 0
    ensures EstoqueNaoNegativo(d.produtos) ==> EstoqueNaoNegativo(Criar(d, clienteId, s).depois.produtos)
  {
    CriarRecusado(d, clienteId, s);
    CriarAceito(d, clienteId, s);
    DebitarNaoNegativo(d.produtos, s);
  }

  /** The failures of `criar_pedido` reach the client with the status code they were raised with. */
  lemma {:induction false} PercorrerLevanta(d: Db, comprometidos: map<int, Produto>, pedidoId: int, s: seq<ItemReq>)
    requires d.produtos.Keys == comprometidos.Keys
    ensures Percorrer(d, comprometidos, pedidoId, s).Failure? ==>
              var e := Percorrer(d, comprometidos, pedidoId, s).error;
              e.codigo == CodigoLevantado(e.motivo) && (e.codigo == 404 || e.codigo == 400)
    decreases |s|
  {
    if s != [] && Passo(d, comprometidos, pedidoId, s[0]).Success? {
      PercorrerLevanta(Passo(d, comprometidos, pedidoId, s[0]).value, comprometidos, pedidoId, s[1..]);
    }
  }

  /**
   * The status codes of the three handlers: `criar_pedido` answers 404, 400 or 500 as
   * raised, while `atualizar_pedido` and `deletar_pedido` answer every failure with 500.
   */
  lemma {:induction false} CodigosDeFalha(d: Db, clienteId: int, s: seq<ItemReq>, pedidoId: int,
                       status: Option<string>, novos: Option<seq<ItemReq>>)
    ensures Criar(d, clienteId, s).resposta.Failure? ==>
              var e := Criar(d, clienteId, s).resposta.error;
              e.codigo == CodigoLevantado(e.motivo) && e.codigo in {400, 404, 500}
    ensures Atualizar(d, pedidoId, status, novos).resposta.Failure? ==>
              Atualizar(d, pedidoId, status, novos).resposta.error.codigo == 500
    ensures Deletar(d, pedidoId).resposta.Failure? ==> Deletar(d, pedidoId).resposta.error.codigo == 500
  {
    if clienteId in d.clientes && PrimeiroStatus(d.status, Pendente).Some? {
      var inicial := PrimeiroStatus(d.status, Pendente).value;
      var aberto := d.(pedidos := d.pedidos[d.proximoPedidoId := Pedido(clienteId, inicial.id, 0)],
                       proximoPedidoId := d.proximoPedidoId + 1);
      PercorrerLevanta(aberto, d.produtos, d.proximoPedidoId, s);
    }
  }

  /** `criar_pedido` keeps the database invariant. */
  lemma {:induction false} CriarPreserva(d: Db, clienteId: int, s: seq<ItemReq>)
    requires Consistente(d)
    ensures Consistente(Criar(d, clienteId, s).depois)
  {
    CriarRecusado(d, clienteId, s);
    if Criar(d, clienteId, s).resposta.Success? {
      CriarAceito(d, clienteId, s);
      var d1 := Criar(d, clienteId, s).depois;
      var n := d.proximoPedidoId;
      var novas := Linhas(n, d.proximoItemId, s);
      assert d1.itens == d.itens + novas;
      forall k | 0 <= k < |d1.itens| ensures d1.itens[k].pedidoId in d1.pedidos {
        if k >= |d.itens| {
          assert d1.itens[k] == novas[k - |d.itens|];
        }
      }
      forall id | id in d1.pedidos ensures d1.pedidos[id].valorTotal == ValorDoPedido(d1.itens, id) {
        ValorConcat(d.itens, novas, id);
        ValorLinhas(n, d.proximoItemId, s, id);
        if id == n {
          ValorAusente(d.itens, n);
        }
      }
    }
  }

  // ---------------------------------------------------------------------------------------
  // atualizar_pedido and deletar_pedido
  // ---------------------------------------------------------------------------------------

  /**
   * `atualizar_pedido`, case by case. A missing order, or a status name with no row in the
   * status table, fails with nothing changed. Otherwise the order takes the first status of
   * that name when a non-empty one is given; non-empty items replace all of the order's
   * items (others' items stay, in order) and set its total to the new sum, which is also
   * what its stored items add up to; absent or empty items leave items and total as they
   * were. Products, customers, the status table and every other order never change.
   */
  lemma {:induction false} AtualizarCaracterizado(d: Db, pedidoId: int, status: Option<string>, novos: Option<seq<ItemReq>>)
    ensures var e := Atualizar(d, pedidoId, status, novos);
      && (e.resposta.Failure? <==>
            pedidoId !in d.pedidos || (TemStatus(status) && PrimeiroStatus(d.status, status.value).None?))
      && (e.resposta.Failure? ==> e.depois == d)
      && e.depois.produtos == d.produtos
      && e.depois.clientes == d.clientes
      && e.depois.status == d.status
      && e.depois.pedidos.Keys == d.pedidos.Keys
      && (forall id :: id in d.pedidos && id != pedidoId ==> e.depois.pedidos[id] == d.pedidos[id])
      && (e.resposta.Success? ==>
            && e.depois.pedidos[pedidoId] == e.resposta.value
            && e.resposta.value.clienteId == d.pedidos[pedidoId].clienteId
            && (TemStatus(status) ==>
                  exists k :: 0 <= k < |d.status| && d.status[k].nome == status.value
                              && d.status[k].id == e.resposta.value.statusId
                              && forall j :: 0 <= j < k ==> d.status[j].nome != status.value)
            && (!TemStatus(status) ==> e.resposta.value.statusId == d.pedidos[pedidoId].statusId)
            && (TemItens(novos) ==>
                  && e.depois.itens == SemItensDoPedido(d.itens, pedidoId) + Linhas(pedidoId, d.proximoItemId, novos.value)
                  && e.resposta.value.valorTotal == SomaSubtotais(novos.value)
                  && ValorDoPedido(e.depois.itens, pedidoId) == SomaSubtotais(novos.value))
            && (!TemItens(novos) ==>
                  && e.depois.itens == d.itens
                  && e.resposta.value.valorTotal == d.pedidos[pedidoId].valorTotal))
  {
    var e := Atualizar(d, pedidoId, status, novos);
    if e.resposta.Success? && TemItens(novos) {
      var novas := Linhas(pedidoId, d.proximoItemId, novos.value);
      ValorConcat(SemItensDoPedido(d.itens, pedidoId), novas, pedidoId);
      ValorSemItens(d.itens, pedidoId, pedidoId);
      ValorLinhas(pedidoId, d.proximoItemId, novos.value, pedidoId);
    }
  }

  /** `atualizar_pedido` keeps the database invariant. */
  lemma {:induction false} AtualizarPreserva(d: Db, pedidoId: int, status: Option<string>, novos: Option<seq<ItemReq>>)
    requires Consistente(d)
    ensures Consistente(Atualizar(d, pedidoId, status, novos).depois)
  {
    var e := Atualizar(d, pedidoId, status, novos);
    if e.resposta.Success? && TemItens(novos) {
      var d1 := e.depois;
      var resto := SemItensDoPedido(d.itens, pedidoId);
      var novas := Linhas(pedidoId, d.proximoItemId, novos.value);
      SemItensCaracterizado(d.itens, pedidoId);
      assert d1.itens == resto + novas;
      forall k | 0 <= k < |d1.itens| ensures d1.itens[k].pedidoId in d1.pedidos {
        if k >= |resto| {
          assert d1.itens[k] == novas[k - |resto|];
        } else {
          assert d1.itens[k] == resto[k];
          var j :| 0 <= j < |d.itens| && d.itens[j] == resto[k];
        }
      }
      forall id | id in d1.pedidos ensures d1.pedidos[id].valorTotal == ValorDoPedido(d1.itens, id) {
        ValorConcat(resto, novas, id);
        ValorSemItens(d.itens, pedidoId, id);
        ValorLinhas(pedidoId, d.proximoItemId, novos.value, id);
      }
    }
  }

  /**
   * `deletar_pedido`: a missing order fails with nothing changed; otherwise the order and
   * exactly the items that belong to it are gone, every other item stays in order, and
   * products, customers, statuses and the other orders are untouched.
   */
  lemma {:induction false} DeletarCaracterizado(d: Db, pedidoId: int)
    ensures var e := Deletar(d, pedidoId);
      && (e.resposta.Failure? <==> pedidoId !in d.pedidos)
      && (e.resposta.Failure? ==> e.depois == d)
      && e.depois.produtos == d.produtos
      && e.depois.clientes == d.clientes
      && e.depois.status == d.status
      && (e.resposta.Success? ==>
            && e.depois.pedidos == d.pedidos - {pedidoId}
            && (forall k :: 0 <= k < |e.depois.itens| ==> e.depois.itens[k].pedidoId != pedidoId)
            && (forall k :: 0 <= k < |d.itens| && d.itens[k].pedidoId != pedidoId ==> d.itens[k] in e.depois.itens)
            && (forall x :: x in e.depois.itens ==> x in d.itens)
            && ValorDoPedido(e.depois.itens, pedidoId) == 0
            && (forall id :: id != pedidoId ==> ValorDoPedido(e.depois.itens, id) == ValorDoPedido(d.itens, id)))
  {
    if pedidoId in d.pedidos {
      SemItensCaracterizado(d.itens, pedidoId);
      forall id ensures ValorDoPedido(SemItensDoPedido(d.itens, pedidoId), id)
                        == if id == pedidoId then 0 else ValorDoPedido(d.itens, id) {
        ValorSemItens(d.itens, pedidoId, id);
      }
    }
  }

  /** `deletar_pedido` keeps the database invariant. */
  lemma {:induction false} DeletarPreserva(d: Db, pedidoId: int)
    requires Consistente(d)
    ensures Consistente(Deletar(d, pedidoId).depois)
  {
    var e := Deletar(d, pedidoId);
    if e.resposta.Success? {
      var d1 := e.depois;
      SemItensCaracterizado(d.itens, pedidoId);
      forall k | 0 <= k < |d1.itens| ensures d1.itens[k].pedidoId in d1.pedidos {
        var j :| 0 <= j < |d.itens| && d.itens[j] == d1.itens[k];
      }
      forall id | id in d1.pedidos ensures d1.pedidos[id].valorTotal == ValorDoPedido(d1.itens, id) {
        ValorSemItens(d.itens, pedidoId, id);
      }
    }
  }

  /** Deleting an order twice: the second request fails with 500 and changes nothing. */
  lemma {:induction false} DeletarDuasVezes(d: Db, pedidoId: int)
    requires pedidoId in d.pedidos
    ensures var d1 := Deletar(d, pedidoId).depois;
      Deletar(d1, pedidoId) == Efeito(Failure(Falha(500, PedidoNaoEncontrado)), d1)
  {
  }
}
