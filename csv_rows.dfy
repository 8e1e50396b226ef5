/**
 * The CSV helpers of `Utils/utils.py` over a file abstracted as its sequence of rows, each
 * row a sequence of cells. `ArquivoCsv` is the file; its methods are `escrever_csv`,
 * `ler_csv`, `atualizar_csv` and `remover_do_csv`, and `ContarRegistros` is
 * `contar_registros`. The read loops of `atualizar_csv` and `remover_do_csv` are the methods
 * `VarrerAtualizacao` and `VarrerRemocao`; `Substituir` and `Manter` say what they build.
 */
module CsvRows {
  import opened Results
  import opened CsvParse

  type Linha = seq<string>

  /** The exceptions the helpers let escape. */
  datatype ErroCsv =
    | IndiceInvalido                                 // IndexError: `row[0]` on an empty row
    | ValorInvalido(texto: string)                   // ValueError: `int(row[0])` on a non-integer
    | ColunasIncompativeis(colunas: nat, campos: nat) // header width differs from the field count
    | CamposFaltando(celulas: nat)                   // a data row too short to fill every field

  /** `int(row[0])`. */
  function IdDaLinha(linha: Linha): Result<int, ErroCsv>
  {
    if linha == [] then Failure(IndiceInvalido)
    else
      match ParseInt(linha[0])
      case None => Failure(ValorInvalido(linha[0]))
      case Some(n) => Success(n)
  }

  /** Whether the row's id is `id`. */
  predicate Corresponde(linha: Linha, id: int)
  {
    IdDaLinha(linha) == Success(id)
  }

  /** Whether every row, the header included, has an integer first cell. */
  predicate IdsLegiveis(linhas: seq<Linha>)
  {
    forall k :: 0 <= k < |linhas| ==> IdDaLinha(linhas[k]).Success?
  }

  /** Whether some row has id `id`. */
  predicate AlgumaCorresponde(linhas: seq<Linha>, id: int)
  {
    exists k :: 0 <= k < |linhas| && Corresponde(linhas[k], id)
  }

  /** Every row with id `id` replaced by `valores`, every other row where it was. */
  function Substituir(linhas: seq<Linha>, id: int, valores: Linha): seq<Linha>
  {
    seq(|linhas|, k requires 0 <= k < |linhas| => if Corresponde(linhas[k], id) then valores else linhas[k])
  }

  /** The rows whose id is not `id`, in their order. */
  function Manter(linhas: seq<Linha>, id: int): (r: seq<Linha>)
    ensures |r| <= |linhas|
  {
    if linhas == [] then []
    else if Corresponde(linhas[0], id) then Manter(linhas[1..], id)
    else [linhas[0]] + Manter(linhas[1..], id)
  }

  /** The non-empty rows, in their order. */
  function NaoVazias(linhas: seq<Linha>): (r: seq<Linha>)
    ensures |r| <= |linhas|
  {
    if linhas == [] then []
    else if linhas[0] == [] then NaoVazias(linhas[1..])
    else [linhas[0]] + NaoVazias(linhas[1..])
  }

  /**
   * `contar_registros`: the number of non-empty rows, a header row included. It is the
   * number of rows `NaoVazias` keeps, and it equals the row count exactly when no row is
   * empty.
   */
  function ContarRegistros(linhas: seq<Linha>): (n: nat)
    ensures n == |NaoVazias(linhas)|
    ensures n <= |linhas|
    ensures n == |linhas| <==> forall k :: 0 <= k < |linhas| ==> linhas[k] != []
  {
    if linhas == [] then 0
    else
      var resto := ContarRegistros(linhas[1..]);
      assert (forall k :: 0 <= k < |linhas| ==> linhas[k] != [])
             <==> linhas[0] != [] && forall k :: 0 <= k < |linhas| - 1 ==> linhas[1..][k] != [] by {
        if linhas[0] != [] && forall k :: 0 <= k < |linhas| - 1 ==> linhas[1..][k] != [] {
          forall k | 0 < k < |linhas| ensures linhas[k] != [] {
            assert linhas[k] == linhas[1..][k - 1];
          }
        }
      }
      (if linhas[0] != [] then 1 else 0) + resto
  }

  /** The cells `zip(fields, row)` pairs with the model's `campos` fields. */
  function Primeiros(linha: Linha, campos: nat): Linha
  {
    if |linha| <= campos then linha else linha[..campos]
  }

  /** The objects built from data rows: each row's cells for the model's fields. */
  function Objetos(linhas: seq<Linha>, campos: nat): seq<Linha>
  {
    seq(|linhas|, k requires 0 <= k < |linhas| => Primeiros(linhas[k], campos))
  }

  /** Whether every row has at least `campos` cells, so that every field gets a value. */
  predicate Completas(linhas: seq<Linha>, campos: nat)
  {
    forall k :: 0 <= k < |linhas| ==> |linhas[k]| >= campos
  }

  // ---------------------------------------------------------------------------------------
  // Filters over concatenated row lists
  // ---------------------------------------------------------------------------------------

  /** Keeping the non-empty rows of two lists one after the other. */
  lemma {:induction false} NaoVaziasConcat(a: seq<Linha>, b: seq<Linha>)
    ensures NaoVazias(a + b) == NaoVazias(a) + NaoVazias(b)
  {
    if a == [] {
      assert a + b == b;
    } else {
      assert (a + b)[0] == a[0];
      assert (a + b)[1..] == a[1..] + b;
      NaoVaziasConcat(a[1..], b);
    }
  }

  /** Removing id `id` from two lists one after the other. */
  lemma {:induction false} ManterConcat(a: seq<Linha>, b: seq<Linha>, id: int)
    ensures Manter(a + b, id) == Manter(a, id) + Manter(b, id)
  {
    if a == [] {
      assert a + b == b;
    } else {
      assert (a + b)[0] == a[0];
      assert (a + b)[1..] == a[1..] + b;
      ManterConcat(a[1..], b, id);
    }
  }

  /** One more row read: the non-empty rows among rows 1 to `i`. */
  lemma {:induction false} NaoVaziasPasso(linhas: seq<Linha>, i: nat)
    requires 1 <= i < |linhas|
    ensures NaoVazias(linhas[1..i + 1]) == NaoVazias(linhas[1..i]) + (if linhas[i] == [] then [] else [linhas[i]])
  {
    assert linhas[1..i + 1] == linhas[1..i] + [linhas[i]];
    NaoVaziasConcat(linhas[1..i], [linhas[i]]);
    assert [linhas[i]][1..] == [];
  }

  /** A non-empty data row with fewer than `campos` cells leaves some field without a value. */
  lemma {:induction false} LinhaCurta(linhas: seq<Linha>, i: nat, campos: nat)
    requires 1 <= i < |linhas| && linhas[i] != [] && |linhas[i]| < campos
    ensures !Completas(NaoVazias(linhas[1..]), campos)
  {
    assert linhas[1..] == linhas[1..i] + linhas[i..];
    NaoVaziasConcat(linhas[1..i], linhas[i..]);
    assert linhas[i..][0] == linhas[i];
    assert NaoVazias(linhas[1..])[|NaoVazias(linhas[1..i])|] == linhas[i];
  }

  /**
   * Removal keeps exactly the rows without the id: none of the kept rows has it, every row
   * without it is kept, and the row count is unchanged exactly when no row had it.
   */
  lemma {:induction false} ManterCaracterizado(linhas: seq<Linha>, id: int)
    ensures forall k :: 0 <= k < |Manter(linhas, id)| ==>
              !Corresponde(Manter(linhas, id)[k], id) && Manter(linhas, id)[k] in linhas
    ensures forall k :: 0 <= k < |linhas| && !Corresponde(linhas[k], id) ==> linhas[k] in Manter(linhas, id)
    ensures |Manter(linhas, id)| == |linhas| <==> !AlgumaCorresponde(linhas, id)
  {
    if linhas != [] {
      var resto := Manter(linhas[1..], id);
      ManterCaracterizado(linhas[1..], id);
      assert AlgumaCorresponde(linhas[1..], id) ==> AlgumaCorresponde(linhas, id) by {
        if AlgumaCorresponde(linhas[1..], id) {
          var k :| 0 <= k < |linhas| - 1 && Corresponde(linhas[1..][k], id);
          assert linhas[k + 1] == linhas[1..][k];
        }
      }
      assert AlgumaCorresponde(linhas, id) && !Corresponde(linhas[0], id) ==> AlgumaCorresponde(linhas[1..], id) by {
        if AlgumaCorresponde(linhas, id) && !Corresponde(linhas[0], id) {
          var k :| 0 <= k < |linhas| && Corresponde(linhas[k], id);
          assert linhas[1..][k - 1] == linhas[k];
        }
      }
      forall k | 0 < k < |linhas| ensures linhas[k] == linhas[1..][k - 1] {
      }
    }
  }

  /** The rows `ler_csv` turns into objects are exactly the non-empty rows, each one kept. */
  lemma {:induction false} NaoVaziasCaracterizado(linhas: seq<Linha>)
    ensures forall k :: 0 <= k < |NaoVazias(linhas)| ==> NaoVazias(linhas)[k] != [] && NaoVazias(linhas)[k] in linhas
    ensures forall k :: 0 <= k < |linhas| && linhas[k] != [] ==> linhas[k] in NaoVazias(linhas)
  {
    if linhas != [] {
      NaoVaziasCaracterizado(linhas[1..]);
      forall k | 0 < k < |linhas| ensures linhas[k] == linhas[1..][k - 1] {
      }
    }
  }

  /** Removing an id no row has changes nothing. */
  lemma {:induction false} ManterSemCorrespondencia(linhas: seq<Linha>, id: int)
    requires !AlgumaCorresponde(linhas, id)
    ensures Manter(linhas, id) == linhas
  {
    if linhas != [] {
      assert !Corresponde(linhas[0], id);
      assert !AlgumaCorresponde(linhas[1..], id) by {
        forall k | 0 <= k < |linhas| - 1 ensures !Corresponde(linhas[1..][k], id) {
          assert linhas[1..][k] == linhas[k + 1];
        }
      }
      ManterSemCorrespondencia(linhas[1..], id);
    }
  }

  // ---------------------------------------------------------------------------------------
  // The read loops of atualizar_csv and remover_do_csv
  // ---------------------------------------------------------------------------------------

  /** One more row read: the rows read so far all have integer ids. */
  lemma {:induction false} LegiveisPasso(linhas: seq<Linha>, i: nat)
    requires i < |linhas| && IdDaLinha(linhas[i]).Success?
    ensures IdsLegiveis(linhas[..i + 1]) <==> IdsLegiveis(linhas[..i])
  {
    assert forall k :: 0 <= k < i ==> linhas[..i + 1][k] == linhas[..i][k];
    assert linhas[..i + 1][i] == linhas[i];
  }

  /** One more row read: whether some row read so far has the id. */
  lemma {:induction false} CorrespondePasso(linhas: seq<Linha>, i: nat, id: int)
    requires i < |linhas|
    ensures AlgumaCorresponde(linhas[..i + 1], id) <==> AlgumaCorresponde(linhas[..i], id) || Corresponde(linhas[i], id)
  {
    assert forall k :: 0 <= k < i ==> linhas[..i + 1][k] == linhas[..i][k];
    assert linhas[..i + 1][i] == linhas[i];
  }

  /** One more row read: the rows kept so far by removal. */
  lemma {:induction false} ManterPasso(linhas: seq<Linha>, i: nat, id: int)
    requires i < |linhas|
    ensures Manter(linhas[..i + 1], id) == Manter(linhas[..i], id) + (if Corresponde(linhas[i], id) then [] else [linhas[i]])
  {
    assert linhas[..i + 1] == linhas[..i] + [linhas[i]];
    ManterConcat(linhas[..i], [linhas[i]], id);
    assert [linhas[i]][1..] == [];
  }

  /**
   * The read loop of `atualizar_csv`: it goes through every row, failing at the first row
   * without an integer first cell; otherwise it returns the rows with every row of id `id`
   * replaced by `valores`, and whether any row had that id.
   */
  method VarrerAtualizacao(linhas: seq<Linha>, id: int, valores: Linha) returns (r: Result<(seq<Linha>, bool), ErroCsv>)
    ensures r.Success? <==> IdsLegiveis(linhas)
    ensures r.Success? ==> r.value.0 == Substituir(linhas, id, valores)
    ensures r.Success? ==> (r.value.1 <==> AlgumaCorresponde(linhas, id))
    ensures r.Failure? ==>
              exists k :: 0 <= k < |linhas| && IdsLegiveis(linhas[..k]) && IdDaLinha(linhas[k]) == Failure(r.error)
  {
    var novas: seq<Linha> := [];
    var atualizado := false;
    var i := 0;
    while i < |linhas|
      invariant 0 <= i <= |linhas|
      invariant IdsLegiveis(linhas[..i])
      invariant novas == Substituir(linhas[..i], id, valores)
      invariant atualizado <==> AlgumaCorresponde(linhas[..i], id)
    {
      var lido := IdDaLinha(linhas[i]);
      if lido.Failure? {
        r := Failure(lido.error);
        return;
      }
      LegiveisPasso(linhas, i);
      CorrespondePasso(linhas, i, id);
      if lido.value == id {
        novas := novas + [valores];
        atualizado := true;
      } else {
        novas := novas + [linhas[i]];
      }
      assert linhas[..i + 1][..i] == linhas[..i];
      assert linhas[..i + 1][i] == linhas[i];
      i := i + 1;
    }
    assert linhas[..i] == linhas;
    r := Success((novas, atualizado));
  }

  /**
   * The read loop of `remover_do_csv`: it goes through every row, failing at the first row
   * without an integer first cell; otherwise it returns the rows whose id is not `id`, and
   * whether any row was dropped.
   */
  method VarrerRemocao(linhas: seq<Linha>, id: int) returns (r: Result<(seq<Linha>, bool), ErroCsv>)
    ensures r.Success? <==> IdsLegiveis(linhas)
    ensures r.Success? ==> r.value.0 == Manter(linhas, id)
    ensures r.Success? ==> (r.value.1 <==> AlgumaCorresponde(linhas, id))
    ensures r.Failure? ==>
              exists k :: 0 <= k < |linhas| && IdsLegiveis(linhas[..k]) && IdDaLinha(linhas[k]) == Failure(r.error)
  {
    var mantidas: seq<Linha> := [];
    var removido := false;
    var i := 0;
    while i < |linhas|
      invariant 0 <= i <= |linhas|
      invariant IdsLegiveis(linhas[..i])
      invariant mantidas == Manter(linhas[..i], id)
      invariant removido <==> AlgumaCorresponde(linhas[..i], id)
    {
      var lido := IdDaLinha(linhas[i]);
      if lido.Failure? {
        r := Failure(lido.error);
        return;
      }
      LegiveisPasso(linhas, i);
      CorrespondePasso(linhas, i, id);
      ManterPasso(linhas, i, id);
      if lido.value != id {
        mantidas := mantidas + [linhas[i]];
      } else {
        removido := true;
      }
      i := i + 1;
    }
    assert linhas[..i] == linhas;
    r := Success((mantidas, removido));
  }

  // ---------------------------------------------------------------------------------------
  // The file
  // ---------------------------------------------------------------------------------------

  /** A CSV file, as the rows `csv.reader` yields. */
  class ArquivoCsv {
    var linhas: seq<Linha>

    constructor (conteudo: seq<Linha>)
      ensures linhas == conteudo
    {
      linhas := conteudo;
    }

    /** `escrever_csv`: appends one row, the model's field values in declaration order. */
    method EscreverCsv(valores: Linha)
      modifies this
      ensures linhas == old(linhas) + [valores]
    {
      linhas := linhas + [valores];
    }

    /**
     * `ler_csv`: an empty file gives no objects; otherwise the first row is the header and
     * its width must be the model's field count, and every following non-empty row, in
     * order, gives one object from its first `campos` cells. A data row too short to fill
     * every field fails.
     */
    method LerCsv(campos: nat) returns (r: Result<seq<Linha>, ErroCsv>)
      ensures linhas == [] ==> r == Success([])
      ensures linhas != [] && |linhas[0]| != campos ==> r == Failure(ColunasIncompativeis(|linhas[0]|, campos))
      ensures linhas != [] && |linhas[0]| == campos ==>
                && (r.Success? <==> Completas(NaoVazias(linhas[1..]), campos))
                && (r.Success? ==> r.value == Objetos(NaoVazias(linhas[1..]), campos))
                && (r.Failure? ==> r.error.CamposFaltando? && r.error.celulas < campos)
    {
      if linhas == [] {
        r := Success([]);
        return;
      }
      var cabecalho := linhas[0];
      if |cabecalho| != campos {
        r := Failure(ColunasIncompativeis(|cabecalho|, campos));
        return;
      }
      var dados := linhas;
      var objetos: seq<Linha> := [];
      var i := 1;
      while i < |dados|
        invariant 1 <= i <= |dados|
        invariant Completas(NaoVazias(dados[1..i]), campos)
        invariant objetos == Objetos(NaoVazias(dados[1..i]), campos)
      {
        var linha := dados[i];
        NaoVaziasPasso(dados, i);
        if linha != [] {
          if |linha| < campos {
            LinhaCurta(dados, i, campos);
            r := Failure(CamposFaltando(|linha|));
            return;
          }
          objetos := objetos + [Primeiros(linha, campos)];
        }
        i := i + 1;
      }
      assert dados[1..i] == dados[1..];
      r := Success(objetos);
    }

    /**
     * `atualizar_csv`: fails, leaving the file as it was, if some row (the header
     * included) has no integer first cell; otherwise reports whether some row has id `id`
     * and, only then, rewrites the file with every such row replaced by `valores`.
     */
    method AtualizarCsv(id: int, valores: Linha) returns (r: Result<bool, ErroCsv>)
      modifies this
      ensures r.Success? <==> IdsLegiveis(old(linhas))
      ensures r.Failure? ==> linhas == old(linhas)
      ensures r.Success? ==> (r.value <==> AlgumaCorresponde(old(linhas), id))
      ensures linhas == if r == Success(true) then Substituir(old(linhas), id, valores) else old(linhas)
    {
      var lido := VarrerAtualizacao(linhas, id, valores);
      if lido.Failure? {
        r := Failure(lido.error);
        return;
      }
      var (novas, atualizado) := lido.value;
      if atualizado {
        linhas := novas;
      }
      r := Success(atualizado);
    }

    /**
     * `remover_do_csv`: fails, leaving the file as it was, if some row (the header
     * included) has no integer first cell; otherwise reports whether some row has id `id`
     * and, only then, rewrites the file without those rows.
     */
    method RemoverDoCsv(id: int) returns (r: Result<bool, ErroCsv>)
      modifies this
      ensures r.Success? <==> IdsLegiveis(old(linhas))
      ensures r.Failure? ==> linhas == old(linhas)
      ensures r.Success? ==> (r.value <==> AlgumaCorresponde(old(linhas), id))
      ensures linhas == if r == Success(true) then Manter(old(linhas), id) else old(linhas)
    {
      var lido := VarrerRemocao(linhas, id);
      if lido.Failure? {
        r := Failure(lido.error);
        return;
      }
      var (mantidas, removido) := lido.value;
      if removido {
        linhas := mantidas;
      }
      r := Success(removido);
    }
  }
  // ---------------------------------------------------------------------------------------
  // Properties of the helpers
  // ---------------------------------------------------------------------------------------

  /** After `remover_do_csv` no row has the id, so removing it again changes nothing. */
  lemma {:induction false} RemoverIdempotente(linhas: seq<Linha>, id: int)
    ensures !AlgumaCorresponde(Manter(linhas, id), id)
    ensures Manter(Manter(linhas, id), id) == Manter(linhas, id)
  {
    var m := Manter(linhas, id);
    ManterCaracterizado(linhas, id);
    assert !AlgumaCorresponde(m, id) by {
      forall k | 0 <= k < |m| ensures !Corresponde(m[k], id) {
      }
    }
    ManterSemCorrespondencia(m, id);
  }

  /** A row `escrever_csv` writes for an integer id `n` reads back with id `n`. */
  lemma {:induction false} EscritaCorresponde(n: int, resto: Linha)
    ensures Corresponde([Decimal(n)] + resto, n)
  {
    ParseIntDecimal(n);
  }

  /**
   * Writing a record whose id no row has and then removing that id gives back the file as
   * it was.
   */
  lemma {:induction false} EscreverRemover(linhas: seq<Linha>, n: int, resto: Linha)
    requires !AlgumaCorresponde(linhas, n)
    ensures Manter(linhas + [[Decimal(n)] + resto], n) == linhas
  {
    var nova := [Decimal(n)] + resto;
    EscritaCorresponde(n, resto);
    ManterConcat(linhas, [nova], n);
    ManterSemCorrespondencia(linhas, n);
    assert [nova][1..] == [];
  }

  /**
   * Writing a record whose id no row has and then updating that id replaces exactly the
   * written row.
   */
  lemma {:induction false} EscreverAtualizar(linhas: seq<Linha>, n: int, resto: Linha, valores: Linha)
    requires !AlgumaCorresponde(linhas, n)
    ensures Substituir(linhas + [[Decimal(n)] + resto], n, valores) == linhas + [valores]
  {
    EscritaCorresponde(n, resto);
    var t := Substituir(linhas + [[Decimal(n)] + resto], n, valores);
    forall k | 0 <= k < |linhas| ensures t[k] == linhas[k] {
      assert (linhas + [[Decimal(n)] + resto])[k] == linhas[k];
    }
  }

  /** Replacing rows by a non-empty row keeps the record count. */
  lemma {:induction false} AtualizarMantemContagem(linhas: seq<Linha>, id: int, valores: Linha)
    requires valores != []
    ensures ContarRegistros(Substituir(linhas, id, valores)) == ContarRegistros(linhas)
  {
    if linhas != [] {
      var t := Substituir(linhas, id, valores);
      assert t[1..] == Substituir(linhas[1..], id, valores);
      AtualizarMantemContagem(linhas[1..], id, valores);
    }
  }

  /** Every row `remover_do_csv` drops was a counted record. */
  lemma {:induction false} RemoverContagem(linhas: seq<Linha>, id: int)
    ensures ContarRegistros(linhas) == ContarRegistros(Manter(linhas, id)) + (|linhas| - |Manter(linhas, id)|)
  {
    if linhas != [] {
      RemoverContagem(linhas[1..], id);
      if !Corresponde(linhas[0], id) {
        assert ([linhas[0]] + Manter(linhas[1..], id))[1..] == Manter(linhas[1..], id);
      }
    }
  }

  /**
   * A header whose first cell is `id` makes every update and removal fail: `int("id")`
   * raises.
   */
  lemma {:induction false} CabecalhoBloqueia(linhas: seq<Linha>)
    requires linhas != [] && linhas[0] != [] && linhas[0][0] == "id"
    ensures !IdsLegiveis(linhas)
  {
    CabecalhoNaoNumerico();
    assert IdDaLinha(linhas[0]).Failure?;
  }

  /** With a non-empty header, `ler_csv` yields one object per counted record but the header. */
  lemma {:induction false} LidosContados(linhas: seq<Linha>, campos: nat)
    requires linhas != [] && linhas[0] != []
    ensures |Objetos(NaoVazias(linhas[1..]), campos)| == ContarRegistros(linhas) - 1
  {
  }

  /** A non-empty row that `escrever_csv` appends is read back as the last object. */
  lemma {:induction false} EscreverLer(linhas: seq<Linha>, valores: Linha, campos: nat)
    requires linhas != [] && valores != []
    ensures Objetos(NaoVazias((linhas + [valores])[1..]), campos)
            == Objetos(NaoVazias(linhas[1..]), campos) + [Primeiros(valores, campos)]
  {
    assert (linhas + [valores])[1..] == linhas[1..] + [valores];
    NaoVaziasConcat(linhas[1..], [valores]);
    assert [valores][1..] == [];
  }
}
