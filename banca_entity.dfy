/**
 * An examining board as persisted (entity BancaEntity): its type, its status and result, and the
 * list of its members, which addMembro and removeMembro keep in step with each member's
 * back-reference.
 */
module BancaEntity {
  import opened Wrappers
  import opened JavaTime
  import MB = MembroBanca
  import CB = ComposicaoBanca

  datatype TipoBanca =
    QualificacaoMestrado | QualificacaoDoutorado | DefesaMestrado | DefesaDoutorado | DefesaDoutoradoDireto
    | ExameProficiencia

  datatype StatusBanca = Agendada | Confirmada | Realizada | Cancelada | Reagendada

  datatype ResultadoBanca = Aprovado | AprovadoComRestricoes | AprovadoComCorrecoes | Reprovado

  // ---------------------------------------------------------------- status rules

  predicate IsRealizada(status: Option<StatusBanca>) {
    status == Some(Realizada)
  }

  /** isAprovada: a result of one of the three approving kinds. */
  predicate IsAprovada(resultado: Option<ResultadoBanca>) {
    resultado.Some? && resultado.value != Reprovado
  }

  predicate PodeCancelar(status: Option<StatusBanca>) {
    status == Some(Agendada) || status == Some(Confirmada)
  }

  predicate PodeReagendar(status: Option<StatusBanca>) {
    status == Some(Agendada) || status == Some(Confirmada)
  }

  /** A board can be cancelled or rescheduled exactly while it is scheduled or confirmed: never once
      it has taken place. */
  lemma StatusRules(status: Option<StatusBanca>, resultado: Option<ResultadoBanca>)
    ensures PodeCancelar(status) <==> PodeReagendar(status)
    ensures PodeCancelar(status) ==> !IsRealizada(status)
    ensures IsAprovada(resultado) <==>
              resultado in {Some(Aprovado), Some(AprovadoComRestricoes), Some(AprovadoComCorrecoes)}
  {
    if resultado.Some? {
      match resultado.value {
        case Aprovado =>
        case AprovadoComRestricoes =>
        case AprovadoComCorrecoes =>
        case Reprovado =>
      }
    }
  }

  // ---------------------------------------------------------------- validate

  /** The scalar fields of the board. */
  datatype Fields = Fields(
    tipoBanca: Option<TipoBanca>,
    statusBanca: Option<StatusBanca>,
    resultadoBanca: Option<ResultadoBanca>,
    dataRealizacao: Option<Instant>,
    orientadorParticipa: Option<bool>,
    defensaRemota: Option<bool>)

  /** The state validate leaves: status AGENDADA, supervisor taking part and in-person defence when
      unset, and no result unless the board has taken place. */
  function Normalizada(b: Fields): (r: Fields)
    ensures r.statusBanca == (if b.statusBanca.None? then Some(Agendada) else b.statusBanca)
    ensures r.orientadorParticipa == (if b.orientadorParticipa.None? then Some(true) else b.orientadorParticipa)
    ensures r.defensaRemota == (if b.defensaRemota.None? then Some(false) else b.defensaRemota)
    ensures r.resultadoBanca == (if IsRealizada(r.statusBanca) then b.resultadoBanca else None)
    ensures r.tipoBanca == b.tipoBanca && r.dataRealizacao == b.dataRealizacao
  {
    var s := if b.statusBanca.None? then Some(Agendada) else b.statusBanca;
    b.(statusBanca := s,
       orientadorParticipa := if b.orientadorParticipa.None? then Some(true) else b.orientadorParticipa,
       defensaRemota := if b.defensaRemota.None? then Some(false) else b.defensaRemota,
       resultadoBanca := if s != Some(Realizada) then None else b.resultadoBanca)
  }

  datatype ErroBanca = RealizadaSemResultado

  /** validate throws exactly for a board that has taken place without a result. */
  predicate FalhaValidacao(b: Fields) {
    IsRealizada(b.statusBanca) && b.resultadoBanca.None?
  }

  /** After a successful validate a board has a result exactly when it has taken place, and a
      second validate changes nothing. */
  lemma NormalizadaInvariant(b: Fields)
    requires !FalhaValidacao(b)
    ensures IsRealizada(Normalizada(b).statusBanca) <==> Normalizada(b).resultadoBanca.Some?
    ensures !FalhaValidacao(Normalizada(b)) && Normalizada(Normalizada(b)) == Normalizada(b)
  {
  }

  // ---------------------------------------------------------------- members

  /** The members' states, in list order. */
  function Estados(ms: seq<MB.MembroBancaEntity>): (r: seq<MB.Fields>)
    reads set m | m in ms
    ensures |r| == |ms| && forall i :: 0 <= i < |ms| ==> r[i] == ms[i].State()
  {
    if ms == [] then [] else Estados(ms[..|ms| - 1]) + [ms[|ms| - 1].State()]
  }

  /** getNumeroMembrosTitulares: the TITULAR members, counted. */
  function ContarTitulares(ms: seq<MB.Fields>): (r: nat)
    ensures r <= |ms|
  {
    if ms == [] then 0
    else ContarTitulares(ms[..|ms| - 1]) + (if ms[|ms| - 1].tipoMembro == Some(MB.Titular) then 1 else 0)
  }

  /** getNumeroMembrosExternos: the external members, counted. */
  function ContarExternos(ms: seq<MB.Fields>): (r: nat)
    ensures r <= |ms|
  {
    if ms == [] then 0
    else ContarExternos(ms[..|ms| - 1]) + (if MB.IsExterno(ms[|ms| - 1]) then 1 else 0)
  }

  /** The entity's counts agree with the composition's filters. */
  lemma {:induction false} ContagensAgree(ms: seq<MB.Fields>)
    ensures ContarTitulares(ms) == CB.NumeroTitulares(ms)
    ensures ContarExternos(ms) == CB.NumeroExternos(ms)
  {
    if ms != [] {
      var init, last := ms[..|ms| - 1], ms[|ms| - 1];
      ContagensAgree(init);
      assert ms == init + [last];
      CB.FilterConcat(init, [last], MB.IsTitular);
      CB.FilterConcat(init, [last], MB.IsExterno);
      assert [last][1..] == [];
    }
  }

  /** The first occurrence of x removed, as List.remove does; the list unchanged without one. */
  function RemoverPrimeiro(ms: seq<MB.MembroBancaEntity>, x: MB.MembroBancaEntity): (r: seq<MB.MembroBancaEntity>)
    ensures x !in ms ==> r == ms
    ensures x in ms ==> |r| == |ms| - 1 && multiset(r) == multiset(ms) - multiset{x}
  {
    if ms == [] then []
    else if ms[0] == x then
      assert ms == [ms[0]] + ms[1..];
      ms[1..]
    else
      assert ms == [ms[0]] + ms[1..];
      [ms[0]] + RemoverPrimeiro(ms[1..], x)
  }

  /** The position of the first occurrence of x. */
  function PrimeiraPosicao(ms: seq<MB.MembroBancaEntity>, x: MB.MembroBancaEntity): (i: nat)
    requires x in ms
    ensures i < |ms| && ms[i] == x && x !in ms[..i]
  {
    if ms[0] == x then 0
    else
      var j := PrimeiraPosicao(ms[1..], x);
      assert ms[..j + 1] == [ms[0]] + ms[1..][..j];
      j + 1
  }

  /** List.remove keeps the order of the other members: the list is cut around the first
      occurrence of x and joined again. */
  lemma {:induction false} RemoverPrimeiroOrdem(ms: seq<MB.MembroBancaEntity>, x: MB.MembroBancaEntity)
    requires x in ms
    ensures RemoverPrimeiro(ms, x) == ms[..PrimeiraPosicao(ms, x)] + ms[PrimeiraPosicao(ms, x) + 1..]
  {
    if ms[0] != x {
      var cauda := ms[1..];
      RemoverPrimeiroOrdem(cauda, x);
      var j := PrimeiraPosicao(cauda, x);
      assert PrimeiraPosicao(ms, x) == j + 1;
      CortarCauda(ms, j);
      assert RemoverPrimeiro(ms, x) == [ms[0]] + (cauda[..j] + cauda[j + 1..]);
    }
  }

  /** Cutting a list after its head and then at j is cutting it at j + 1. */
  lemma CortarCauda<T>(ms: seq<T>, j: nat)
    requires j + 1 < |ms|
    ensures [ms[0]] + (ms[1..][..j] + ms[1..][j + 1..]) == ms[..j + 1] + ms[j + 2..]
  {
    assert ms[..j + 1] == [ms[0]] + ms[1..][..j];
    assert ms[j + 2..] == ms[1..][j + 1..];
  }

  /** Adding a member that was not on the board and removing it again restores the list. */
  lemma {:induction false} RemoverAposAdicionar(ms: seq<MB.MembroBancaEntity>, x: MB.MembroBancaEntity)
    requires x !in ms
    ensures RemoverPrimeiro(ms + [x], x) == ms
  {
    if ms != [] {
      assert (ms + [x])[1..] == ms[1..] + [x];
      assert RemoverPrimeiro(ms[1..] + [x], x) == ms[1..] by {
        RemoverAposAdicionar(ms[1..], x);
      }
    }
  }

  class BancaEntity {
    var tipoBanca: Option<TipoBanca>
    var statusBanca: Option<StatusBanca>
    var resultadoBanca: Option<ResultadoBanca>
    var dataRealizacao: Option<Instant>
    var orientadorParticipa: Option<bool>
    var defensaRemota: Option<bool>
    var membros: seq<MB.MembroBancaEntity>

    function State(): Fields
      reads this
    {
      Fields(tipoBanca, statusBanca, resultadoBanca, dataRealizacao, orientadorParticipa, defensaRemota)
    }

    /** A board as `new` leaves it: AGENDADA, supervisor taking part, in person, no members. */
    constructor (tipoBanca: Option<TipoBanca>)
      ensures State() == Fields(tipoBanca, Some(Agendada), None, None, Some(true), Some(false))
      ensures membros == []
    {
      this.tipoBanca := tipoBanca;
      this.statusBanca := Some(Agendada);
      this.resultadoBanca := None;
      this.dataRealizacao := None;
      this.orientadorParticipa := Some(true);
      this.defensaRemota := Some(false);
      this.membros := [];
    }

    function NumeroMembrosTitulares(): nat
      reads this, set m | m in membros
    {
      ContarTitulares(Estados(membros))
    }

    /** marcarComoRealizada: the board has taken place now, with the given result. */
    method MarcarComoRealizada(resultado: Option<ResultadoBanca>, agora: Instant)
      modifies this
      ensures State() == old(State()).(statusBanca := Some(Realizada), resultadoBanca := resultado,
                                       dataRealizacao := Some(agora))
      ensures membros == old(membros)
      ensures IsRealizada(statusBanca)
      ensures FalhaValidacao(State()) <==> resultado.None?
    {
      statusBanca := Some(Realizada);
      resultadoBanca := resultado;
      dataRealizacao := Some(agora);
    }

    /** validate (@PrePersist/@PreUpdate): the defaults are written first, then a board that has
        taken place without a result is refused, and a result on a board that has not is dropped. */
    method Validate() returns (r: Result<(), ErroBanca>)
      modifies this
      ensures r.Err? <==> old(FalhaValidacao(State()))
      ensures r.Ok? ==> State() == Normalizada(old(State()))
      ensures r.Err? ==> State() == old(State()).(orientadorParticipa := Normalizada(old(State())).orientadorParticipa,
                                                  defensaRemota := Normalizada(old(State())).defensaRemota)
      ensures membros == old(membros)
    {
      if statusBanca.None? {
        statusBanca := Some(Agendada);
      }
      if orientadorParticipa.None? {
        orientadorParticipa := Some(true);
      }
      if defensaRemota.None? {
        defensaRemota := Some(false);
      }
      if statusBanca == Some(Realizada) && resultadoBanca.None? {
        return Err(RealizadaSemResultado);
      }
      if statusBanca != Some(Realizada) && resultadoBanca.Some? {
        resultadoBanca := None;
      }
      return Ok(());
    }

    /** addMembro: the member joins the end of the list and points back at this board. */
    method AddMembro(m: MB.MembroBancaEntity)
      modifies this, m
      ensures membros == old(membros) + [m]
      ensures m.banca == this && m.State() == old(m.State())
      ensures State() == old(State())
    {
      membros := membros + [m];
      m.banca := this;
    }

    /** removeMembro: the member's first occurrence leaves the list and its back-reference is cleared. */
    method RemoveMembro(m: MB.MembroBancaEntity)
      modifies this, m
      ensures membros == RemoverPrimeiro(old(membros), m)
      ensures m.banca == null && m.State() == old(m.State())
      ensures State() == old(State())
    {
      membros := RemoverPrimeiro(membros, m);
      m.banca := null;
    }
  }

  /** Adding a full member raises the count of full members by one, and any other member leaves it. */
  lemma AddMembroCount(ms: seq<MB.MembroBancaEntity>, m: MB.MembroBancaEntity)
    ensures ContarTitulares(Estados(ms + [m])) ==
              ContarTitulares(Estados(ms)) + (if MB.IsTitular(m.State()) then 1 else 0)
  {
    assert (ms + [m])[..|ms + [m]| - 1] == ms;
  }
}
