/**
 * Python's `int(text)` in base 10, which `Utils/utils.py` applies to the first cell of every
 * row, and `str(n)`, which renders an integer field when `csv.writer` writes a row.
 *
 * `int(text)` accepts surrounding whitespace, one optional sign and decimal digits with
 * single underscores between digits; anything else raises ValueError (here: None).
 */
module CsvParse {
  import opened Results

  /**
   * The ASCII whitespace `int()` skips around the digits: space, tab, line feed, carriage
   * return, vertical tab and form feed.
   */
  predicate EspacoBranco(c: char)
  {
    c == ' ' || c == '\t' || c == '\n' || c == '\r' || c == '\U{000B}' || c == '\U{000C}'
  }

  /** The text without its leading whitespace. */
  function SemEspacoInicial(s: string): (r: string)
    ensures |r| <= |s| && (r == [] || !EspacoBranco(r[0]))
  {
    if s != [] && EspacoBranco(s[0]) then SemEspacoInicial(s[1..]) else s
  }

  /** The text without its trailing whitespace. */
  function SemEspacoFinal(s: string): (r: string)
    ensures |r| <= |s| && (r == [] || !EspacoBranco(r[|r| - 1]))
  {
    if s != [] && EspacoBranco(s[|s| - 1]) then SemEspacoFinal(s[..|s| - 1]) else s
  }

  /** The text with the whitespace `int()` skips removed from both ends. */
  function Aparar(s: string): string
  {
    SemEspacoFinal(SemEspacoInicial(s))
  }

  predicate Digito(c: char)
  {
    '0' <= c <= '9'
  }

  function ValorDigito(c: char): nat
    requires Digito(c)
  {
    (c as int) - ('0' as int)
  }

  function CaractereDigito(d: nat): (c: char)
    requires d < 10
    ensures Digito(c) && ValorDigito(c) == d
  {
    ('0' as int + d) as char
  }

  /** Digits with single underscores between them, as base-10 `int()` accepts after the sign. */
  predicate CorpoDecimal(s: string)
  {
    && |s| > 0
    && Digito(s[0])
    && Digito(s[|s| - 1])
    && (forall k :: 0 <= k < |s| ==> Digito(s[k]) || s[k] == '_')
    && (forall k :: 0 <= k < |s| - 1 && s[k] == '_' ==> s[k + 1] != '_')
  }

  /** The number the digits of `s` spell, underscores ignored. */
  function ValorDecimal(s: string): nat
    requires forall k :: 0 <= k < |s| ==> Digito(s[k]) || s[k] == '_'
  {
    if s == [] then 0
    else if s[|s| - 1] == '_' then ValorDecimal(s[..|s| - 1])
    else ValorDecimal(s[..|s| - 1]) * 10 + ValorDigito(s[|s| - 1])
  }

  /** `int(text)`: the integer, or None where Python raises ValueError. */
  function ParseInt(text: string): Option<int>
  {
    var t := Aparar(text);
    if t != [] && (t[0] == '-' || t[0] == '+') then
      if CorpoDecimal(t[1..]) then
        Some(if t[0] == '-' then 0 - ValorDecimal(t[1..]) else ValorDecimal(t[1..]))
      else None
    else if CorpoDecimal(t) then Some(ValorDecimal(t))
    else None
  }

  /** The decimal digits of a natural number, most significant first. */
  function Digitos(n: nat): (s: string)
    ensures |s| > 0 && forall k :: 0 <= k < |s| ==> Digito(s[k])
  {
    if n < 10 then [CaractereDigito(n)] else Digitos(n / 10) + [CaractereDigito(n % 10)]
  }

  /** `str(n)` for an integer. */
  function Decimal(n: int): string
  {
    if n < 0 then "-" + Digitos(-n) else Digitos(n)
  }

  /** The digits of `n` spell `n`. */
  lemma {:induction false} ValorDigitos(n: nat)
    ensures ValorDecimal(Digitos(n)) == n
  {
    var s := Digitos(n);
    if n >= 10 {
      ValorDigitos(n / 10);
      assert s[..|s| - 1] == Digitos(n / 10);
    }
  }

  /** Text with no whitespace at either end is unchanged by `Aparar`. */
  lemma {:induction false} ApararSemEspacos(s: string)
    requires s != [] && !EspacoBranco(s[0]) && !EspacoBranco(s[|s| - 1])
    ensures Aparar(s) == s
  {
  }

  /** `int(str(n)) == n`: a written integer id reads back as the same id. */
  lemma {:induction false} ParseIntDecimal(n: int)
    ensures ParseInt(Decimal(n)) == Some(n)
  {
    var t := Decimal(n);
    var d := Digitos(if n < 0 then -n else n);
    ValorDigitos(if n < 0 then -n else n);
    assert CorpoDecimal(d);
    ApararSemEspacos(t);
    if n < 0 {
      assert t[1..] == d;
    }
  }

  /** A header cell such as `id` is not an integer. */
  lemma {:induction false} CabecalhoNaoNumerico()
    ensures ParseInt("id") == None
  {
    assert Aparar("id") == "id" by {
      ApararSemEspacos("id");
    }
  }
}
