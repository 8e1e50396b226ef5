/**
 * The relational schema of the order workflow: customers, products, the order-status
 * lookup table, orders and order line items, plus the database snapshot that groups them
 * and the failures the order handlers raise.
 *
 * Prices and totals are integers (cents); the source keeps them as floats.
 */
module Entities {

  /** A row of the `Cliente` table; only its identity matters to the order workflow. */
  datatype Cliente = Cliente(
    nome: string, dataNascimento: string, email: string, telefone: string,
    endereco: string, cidade: string, estado: string, cep: string)

  /** A row of the `Produto` table; `preco` is the current list price, `estoque` the stock. */
  datatype Produto = Produto(nome: string, categoria: string, preco: int, estoque: int)

  /** A row of the `status_pedido` lookup table. */
  datatype StatusPedido = StatusPedido(id: int, nome: string, descricao: string)

  /** The string value of `StatusPedidoEnum.PENDENTE`, the status of every new order. */
  const Pendente: string := "Pendente"

  /** A row of the `pedido` table (its id is the key of the map that holds it). */
  datatype Pedido = Pedido(clienteId: int, statusId: int, valorTotal: int)

  /** A row of the `item_pedido` table. */
  datatype ItemPedido = ItemPedido(id: int, pedidoId: int, produtoId: int, quantidade: int, precoUnitario: int)

  /** One entry of the `itens` list of a create or update request. */
  datatype ItemReq = ItemReq(produtoId: int, quantidade: int, precoUnitario: int)

  /**
   * A snapshot of the database. Rows of `status` and `itens` are kept in insertion order;
   * `proximoPedidoId` and `proximoItemId` are the ids the database assigns next.
   */
  datatype Db = Db(
    clientes: map<int, Cliente>,
    produtos: map<int, Produto>,
    status: seq<StatusPedido>,
    pedidos: map<int, Pedido>,
    itens: seq<ItemPedido>,
    proximoPedidoId: int,
    proximoItemId: int)

  /** Why a handler failed: the `detail` of the HTTPException it raises, without the text. */
  datatype Motivo =
    | ClienteNaoEncontrado(clienteId: int)
    | StatusInicialAusente
    | ProdutoNaoEncontrado(produtoId: int)
    | EstoqueInsuficiente(nome: string, disponivel: int)
    | PedidoNaoEncontrado
    | StatusNaoEncontrado

  /** A failed request: the HTTP status code that reaches the client and the reason. */
  datatype Falha = Falha(codigo: int, motivo: Motivo)

  /** The status code each reason is raised with at the point where it is detected. */
  function CodigoLevantado(m: Motivo): int
  {
    match m
    case ClienteNaoEncontrado(_) => 404
    case StatusInicialAusente => 500
    case ProdutoNaoEncontrado(_) => 404
    case EstoqueInsuficiente(_, _) => 400
    case PedidoNaoEncontrado => 404
    case StatusNaoEncontrado => 404
  }
}
