/**
 * The pagination of `listar_pedidos` in `routers/pedido_routes.py`: the row offset
 * `(page - 1) * size`, the page count `-(-total // size)` and the page itself, the rows
 * that `.offset(offset).limit(size)` selects from the ordered result.
 */
module Pagination {

  /** The body of a `PaginatedResponse`. */
  datatype Pagina<T> = Pagina(items: seq<T>, total: nat, page: int, size: int, pages: nat)

  /** Whether `page` and `size` pass the query validation (`ge=1`, `ge=1, le=100`). */
  predicate ParametrosValidos(page: int, size: int)
  {
    page >= 1 && 1 <= size <= 100
  }

  /**
   * Python's floor division `a // b` for a positive divisor (Dafny's `/` rounds the same
   * way when the divisor is positive).
   */
  function DivisaoInteira(a: int, b: int): (q: int)
    requires b > 0
    ensures q * b <= a < q * b + b
  {
    a / b
  }

  /** The number of rows skipped before page `page`. */
  function Deslocamento(page: int, size: int): nat
    requires ParametrosValidos(page, size)
  {
    (page - 1) * size
  }

  /** The page count `-(-total // size)`: the ceiling of `total / size`. */
  function Paginas(total: nat, size: int): (pages: nat)
    requires 1 <= size <= 100
    ensures (pages - 1) * size < total <= pages * size
  {
    var q := DivisaoInteira(-(total as int), size);
    -q
  }

  /** The rows `OFFSET offset LIMIT size` selects. */
  function Fatia<T>(linhas: seq<T>, page: int, size: int): seq<T>
    requires ParametrosValidos(page, size)
  {
    var inicio := Deslocamento(page, size);
    if inicio >= |linhas| then []
    else if inicio + size >= |linhas| then linhas[inicio..]
    else linhas[inicio..inicio + size]
  }

  /**
   * `listar_pedidos`: one page of the ordered rows with the total and page count. The items
   * are the rows from the page's offset up to `size` rows further, cut at the end of the
   * rows, and the page count is the least number of pages of `size` rows that hold them.
   */
  function ListarPagina<T>(linhas: seq<T>, page: int, size: int): (r: Pagina<T>)
    requires ParametrosValidos(page, size)
    ensures r.total == |linhas| && r.page == page && r.size == size
    ensures (r.pages - 1) * size < r.total <= r.pages * size
    ensures Min(Deslocamento(page, size), |linhas|) <= Min(Deslocamento(page, size) + size, |linhas|)
    ensures r.items == linhas[Min(Deslocamento(page, size), |linhas|)..Min(Deslocamento(page, size) + size, |linhas|)]
    ensures |r.items| <= size
  {
    FatiaTrecho(linhas, page, size);
    Pagina(Fatia(linhas, page, size), |linhas|, page, size, Paginas(|linhas|, size))
  }

  /** `a * b <= c * b` when `a <= c` and `b` is positive. */
  lemma {:induction false} MultiplicacaoMonotona(a: int, c: int, b: int)
    requires a <= c && b > 0
    ensures a * b <= c * b
  {
    assert c * b - a * b == (c - a) * b;
  }

  /** Page `page` holds some row exactly when `page` is at most the page count. */
  lemma {:induction false} PaginaNaoVazia<T>(linhas: seq<T>, page: int, size: int)
    requires ParametrosValidos(page, size)
    ensures Fatia(linhas, page, size) != [] <==> page <= Paginas(|linhas|, size)
  {
    var pages := Paginas(|linhas|, size);
    if page <= pages {
      MultiplicacaoMonotona(page - 1, pages - 1, size);
    } else {
      MultiplicacaoMonotona(pages, page - 1, size);
    }
  }

  /** The rows of pages `page`, `page + 1`, ... `page + n - 1`, one page after the other. */
  function Juntar<T>(linhas: seq<T>, size: int, page: int, n: nat): seq<T>
    requires ParametrosValidos(page, size)
    decreases n
  {
    if n == 0 then [] else Fatia(linhas, page, size) + Juntar(linhas, size, page + 1, n - 1)
  }

  /** The smaller of two integers. */
  function Min(a: int, b: int): int
  {
    if a <= b then a else b
  }

  /** Page `page + 1` starts `size` rows after page `page`, and later pages never start earlier. */
  lemma {:induction false} DeslocamentoSeguinte(page: int, size: int, n: nat)
    requires ParametrosValidos(page, size)
    ensures Deslocamento(page + 1, size) == Deslocamento(page, size) + size
    ensures Deslocamento(page, size) <= Deslocamento(page + n, size)
  {
    MultiplicacaoMonotona(page - 1, page + n - 1, size);
  }

  /** Page `page` is the stretch of rows from its offset to the next page's offset. */
  lemma {:induction false} FatiaTrecho<T>(linhas: seq<T>, page: int, size: int)
    requires ParametrosValidos(page, size)
    ensures Min(Deslocamento(page, size), |linhas|) <= Min(Deslocamento(page + 1, size), |linhas|)
    ensures Fatia(linhas, page, size)
            == linhas[Min(Deslocamento(page, size), |linhas|)..Min(Deslocamento(page + 1, size), |linhas|)]
  {
    DeslocamentoSeguinte(page, size, 1);
  }

  /** Two adjoining stretches of rows, each cut at the end of the rows, make one stretch. */
  lemma {:induction false} TrechosConsecutivos<T>(linhas: seq<T>, x: int, y: int, z: int)
    requires 0 <= x <= y <= z
    ensures linhas[Min(x, |linhas|)..Min(y, |linhas|)] + linhas[Min(y, |linhas|)..Min(z, |linhas|)]
            == linhas[Min(x, |linhas|)..Min(z, |linhas|)]
  {
  }

  /** Consecutive pages are consecutive stretches of the rows. */
  lemma {:induction false} JuntarTrecho<T>(linhas: seq<T>, size: int, page: int, n: nat)
    requires ParametrosValidos(page, size)
    ensures Min(Deslocamento(page, size), |linhas|) <= Min(Deslocamento(page + n, size), |linhas|)
    ensures Juntar(linhas, size, page, n)
            == linhas[Min(Deslocamento(page, size), |linhas|)..Min(Deslocamento(page + n, size), |linhas|)]
    decreases n
  {
    DeslocamentoSeguinte(page, size, n);
    if n > 0 {
      JuntarTrecho(linhas, size, page + 1, n - 1);
      FatiaTrecho(linhas, page, size);
      assert page + 1 + (n - 1) == page + n;
      TrechosConsecutivos(linhas, Deslocamento(page, size), Deslocamento(page + 1, size), Deslocamento(page + n, size));
    }
  }

  /**
   * Reading pages 1 to the page count one after the other yields every row exactly once,
   * in order; so the page sizes add up to the total.
   */
  lemma {:induction false} PaginasCobrem<T>(linhas: seq<T>, size: int)
    requires 1 <= size <= 100
    ensures Juntar(linhas, size, 1, Paginas(|linhas|, size)) == linhas
    ensures |Juntar(linhas, size, 1, Paginas(|linhas|, size))| == |linhas|
  {
    var pages := Paginas(|linhas|, size);
    JuntarTrecho(linhas, size, 1, pages);
    assert Deslocamento(1 + pages, size) == pages * size;
    assert linhas[0..|linhas|] == linhas;
  }
}
