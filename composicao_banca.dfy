/**
 * The composition of an examining board (value object ComposicaoBanca): queries over the list of
 * its members' states, each a stream filter kept in list order, and the counts built on them.
 */
module ComposicaoBanca {
  import opened Wrappers
  import MB = MembroBanca

  /** A stream filter: the elements of s satisfying p, in their order. */
  function Filter(s: seq<MB.Fields>, p: MB.Fields -> bool): (r: seq<MB.Fields>)
    ensures |r| <= |s|
    ensures forall i :: 0 <= i < |r| ==> p(r[i])
  {
    if s == [] then [] else (if p(s[0]) then [s[0]] else []) + Filter(s[1..], p)
  }

  /** One step of the filter. */
  lemma FilterCons(x: MB.Fields, s: seq<MB.Fields>, p: MB.Fields -> bool)
    ensures Filter([x] + s, p) == (if p(x) then [x] else []) + Filter(s, p)
  {
    assert ([x] + s)[1..] == s;
  }

  /** A list whose every member satisfies p passes the filter whole. */
  lemma {:induction false} FilterTodos(s: seq<MB.Fields>, p: MB.Fields -> bool)
    requires forall i :: 0 <= i < |s| ==> p(s[i])
    ensures Filter(s, p) == s
  {
    if s != [] {
      FilterTodos(s[1..], p);
      assert [s[0]] + s[1..] == s;
    }
  }

  /** A list none of whose members satisfies p filters to nothing. */
  lemma {:induction false} FilterNenhum(s: seq<MB.Fields>, p: MB.Fields -> bool)
    requires forall i :: 0 <= i < |s| ==> !p(s[i])
    ensures Filter(s, p) == []
  {
    if s != [] {
      FilterNenhum(s[1..], p);
    }
  }

  /** The filter keeps every element satisfying p as often as it occurs, and nothing else. */
  lemma {:induction false} FilterMultiset(s: seq<MB.Fields>, p: MB.Fields -> bool)
    ensures forall x :: multiset(Filter(s, p))[x] == if p(x) then multiset(s)[x] else 0
  {
    if s != [] {
      FilterMultiset(s[1..], p);
      assert s == [s[0]] + s[1..];
    }
  }

  /** Filtering distributes over concatenation, so it keeps the relative order of what it keeps. */
  lemma {:induction false} FilterConcat(a: seq<MB.Fields>, b: seq<MB.Fields>, p: MB.Fields -> bool)
    ensures Filter(a + b, p) == Filter(a, p) + Filter(b, p)
  {
    if a == [] {
      assert a + b == b;
    } else {
      assert (a + b)[0] == a[0];
      assert (a + b)[1..] == a[1..] + b;
      FilterConcat(a[1..], b, p);
    }
  }

  /** A filter by p and a filter by its negation split the list between them. */
  lemma {:induction false} FilterComplement(s: seq<MB.Fields>, p: MB.Fields -> bool, q: MB.Fields -> bool)
    requires forall x :: q(x) == !p(x)
    ensures |Filter(s, p)| + |Filter(s, q)| == |s|
    ensures multiset(Filter(s, p)) + multiset(Filter(s, q)) == multiset(s)
  {
    if s != [] {
      FilterComplement(s[1..], p, q);
      assert s == [s[0]] + s[1..];
    }
  }

  /** Filtering twice is filtering by both conditions. */
  lemma {:induction false} FilterFilter(s: seq<MB.Fields>, p: MB.Fields -> bool, q: MB.Fields -> bool,
                                        pq: MB.Fields -> bool)
    requires forall x :: pq(x) == (p(x) && q(x))
    ensures Filter(Filter(s, p), q) == Filter(s, pq)
  {
    if s != [] {
      FilterFilter(s[1..], p, q, pq);
      var rest := Filter(s[1..], p);
      if p(s[0]) {
        var f := [s[0]] + rest;
        assert Filter(s, p) == f;
        assert f[0] == s[0] && f[1..] == rest;
        assert Filter(f, q) == (if q(s[0]) then [s[0]] else []) + Filter(rest, q);
      } else {
        assert Filter(s, p) == [] + rest;
        assert [] + rest == rest;
      }
    }
  }

  predicate IsPresidente(m: MB.Fields) {
    m.funcao == Some(MB.Presidente)
  }

  function Titulares(membros: seq<MB.Fields>): seq<MB.Fields> {
    Filter(membros, MB.IsTitular)
  }

  function Suplentes(membros: seq<MB.Fields>): seq<MB.Fields> {
    Filter(membros, MB.IsSuplente)
  }

  function Externos(membros: seq<MB.Fields>): seq<MB.Fields> {
    Filter(membros, MB.IsExterno)
  }

  function Internos(membros: seq<MB.Fields>): seq<MB.Fields> {
    Filter(membros, MB.IsInterno)
  }

  function Presidentes(membros: seq<MB.Fields>): seq<MB.Fields> {
    Filter(membros, IsPresidente)
  }

  function TitularesExternos(membros: seq<MB.Fields>): seq<MB.Fields> {
    Filter(Filter(membros, MB.IsTitular), MB.IsExterno)
  }

  function TitularesInternos(membros: seq<MB.Fields>): seq<MB.Fields> {
    Filter(Filter(membros, MB.IsTitular), MB.IsInterno)
  }

  function NumeroTitulares(membros: seq<MB.Fields>): nat {
    |Titulares(membros)|
  }

  function NumeroExternos(membros: seq<MB.Fields>): nat {
    |Externos(membros)|
  }

  function NumeroInternos(membros: seq<MB.Fields>): nat {
    |Internos(membros)|
  }

  function NumeroTitularesExternos(membros: seq<MB.Fields>): nat {
    |TitularesExternos(membros)|
  }

  function NumeroTitularesInternos(membros: seq<MB.Fields>): nat {
    |TitularesInternos(membros)|
  }

  predicate TemPresidente(membros: seq<MB.Fields>) {
    Presidentes(membros) != []
  }

  predicate TemExatamenteUmPresidente(membros: seq<MB.Fields>) {
    |Presidentes(membros)| == 1
  }

  /** getTitulares keeps exactly the full members, with their multiplicities. */
  lemma TitularesExactly(membros: seq<MB.Fields>, x: MB.Fields)
    ensures x in Titulares(membros) <==> x in membros && MB.IsTitular(x)
    ensures forall i :: 0 <= i < |Titulares(membros)| ==> Titulares(membros)[i].tipoMembro == Some(MB.Titular)
  {
    FilterMultiset(membros, MB.IsTitular);
    assert x in Titulares(membros) <==> multiset(Titulares(membros))[x] > 0;
  }

  /** Internal and external members partition the board, and so do the full members. */
  lemma Partition(membros: seq<MB.Fields>)
    ensures NumeroInternos(membros) + NumeroExternos(membros) == |membros|
    ensures multiset(Internos(membros)) + multiset(Externos(membros)) == multiset(membros)
    ensures NumeroTitularesInternos(membros) + NumeroTitularesExternos(membros) == NumeroTitulares(membros)
  {
    FilterComplement(membros, MB.IsInterno, MB.IsExterno);
    FilterComplement(Titulares(membros), MB.IsInterno, MB.IsExterno);
  }

  /** The full external members are the external full members: the two filters commute. */
  lemma TitularesExternosCommute(membros: seq<MB.Fields>)
    ensures TitularesExternos(membros) == Filter(Externos(membros), MB.IsTitular)
  {
    FilterFilter(membros, MB.IsTitular, MB.IsExterno, (m: MB.Fields) => MB.IsTitular(m) && MB.IsExterno(m));
    FilterFilter(membros, MB.IsExterno, MB.IsTitular, (m: MB.Fields) => MB.IsTitular(m) && MB.IsExterno(m));
  }

  /** temPresidente holds exactly when some member presides; exactly one president implies it. */
  lemma PresidentCounts(membros: seq<MB.Fields>)
    ensures TemPresidente(membros) <==> exists i :: 0 <= i < |membros| && IsPresidente(membros[i])
    ensures TemExatamenteUmPresidente(membros) ==> TemPresidente(membros)
  {
    var ps := Presidentes(membros);
    FilterMultiset(membros, IsPresidente);
    if ps != [] {
      assert multiset(ps)[ps[0]] > 0;
      assert ps[0] in membros;
    }
    if i :| 0 <= i < |membros| && IsPresidente(membros[i]) {
      assert multiset(membros)[membros[i]] > 0;
      assert multiset(ps)[membros[i]] > 0;
    }
  }

  /** A full member as the validator tests build one: an internal member has a lecturer, an
      external one an external professor. */
  function MembroTitular(interno: bool, funcao: MB.Funcao): (r: MB.Fields)
    ensures MB.IsTitular(r) && (MB.IsInterno(r) <==> interno && funcao != MB.MembroExterno)
  {
    MB.Fields(if interno then Some(1) else None, if interno then None else Some(1), Some(MB.Titular),
              Some(funcao), Some(MB.Pendente), None, None, None)
  }

  /** The business-rule violations the composition validators report, with the counts their
      messages carry. */
  datatype Violacao =
    | TitularesAbaixoDoMinimo(titulares: nat)
    | TitularesAcimaDoMaximo(titulares: nat)
    | SemPresidente
    | MaisDeUmPresidente(presidentes: nat)
    | ExternosAbaixoDoMinimo(externos: nat, titulares: nat)
    | ExternosAcimaDoMaximo(externos: nat, titulares: nat)
}
