/**
 * A user's link to a graduate programme in some role (entity UsuarioProgramaRole): its status and
 * the dates between which it holds.  Today is the parameter hoje.
 */
module UsuarioProgramaRole {
  import opened Wrappers
  import opened JavaTime

  /** The link statuses the entity sets and tests. */
  datatype StatusVinculacao = Ativo | Suspenso | Desligado

  datatype Fields = Fields(
    dataVinculacao: Option<LocalDate>,
    dataDesvinculacao: Option<LocalDate>,
    status: Option<StatusVinculacao>)

  /** isAtiva: status ATIVO and no end date. */
  predicate IsAtiva(v: Fields) {
    v.status == Some(Ativo) && v.dataDesvinculacao.None?
  }

  /** isVigente dereferences dataVinculacao: without one it throws. */
  datatype Erro = DataVinculacaoNula

  /** isVigente at hoje: active, and hoje lies between the start and (when set) the end date. */
  function IsVigente(v: Fields, hoje: LocalDate): (r: Result<bool, Erro>)
    ensures r.Err? <==> v.dataVinculacao.None?
    ensures r == Ok(true) ==> IsAtiva(v) && !IsBefore(hoje, v.dataVinculacao.value)
    ensures r.Ok? && IsAtiva(v) && !IsBefore(hoje, v.dataVinculacao.value) ==> r == Ok(true)
  {
    if v.dataVinculacao.None? then Err(DataVinculacaoNula)
    else
      var dentroPeriodo := !IsBefore(hoje, v.dataVinculacao.value)
                           && (v.dataDesvinculacao.None? || !IsAfter(hoje, v.dataDesvinculacao.value));
      Ok(IsAtiva(v) && dentroPeriodo)
  }

  /** The state after suspender. */
  function Suspensa(v: Fields): (r: Fields)
    ensures r.status == Some(Suspenso) && !IsAtiva(r)
    ensures r.dataVinculacao == v.dataVinculacao && r.dataDesvinculacao == v.dataDesvinculacao
  {
    v.(status := Some(Suspenso))
  }

  /** The state after reativar. */
  function Reativada(v: Fields): (r: Fields)
    ensures r.status == Some(Ativo)
    ensures r.dataVinculacao == v.dataVinculacao && r.dataDesvinculacao == v.dataDesvinculacao
    ensures IsAtiva(r) <==> v.dataDesvinculacao.None?
  {
    v.(status := Some(Ativo))
  }

  /** The state after desligar(dataDesligamento), the date defaulting to hoje. */
  function Desligada(v: Fields, dataDesligamento: Option<LocalDate>, hoje: LocalDate): (r: Fields)
    ensures r.status == Some(Desligado) && !IsAtiva(r)
    ensures r.dataDesvinculacao == (if dataDesligamento.Some? then dataDesligamento else Some(hoje))
    ensures r.dataVinculacao == v.dataVinculacao
  {
    v.(status := Some(Desligado), dataDesvinculacao := if dataDesligamento.Some? then dataDesligamento else Some(hoje))
  }

  /** Suspending and then reactivating an active link gives it back unchanged; a link cut off stays
      inactive even when reactivated, since its end date remains. */
  lemma SuspenderReativar(v: Fields, data: Option<LocalDate>, hoje: LocalDate)
    ensures IsAtiva(v) ==> Reativada(Suspensa(v)) == v
    ensures !IsAtiva(Reativada(Desligada(v, data, hoje)))
    ensures IsVigente(Suspensa(v), hoje) != Ok(true)
  {
  }

  /** The state onCreate leaves: the start date defaults to hoje. */
  function Criada(v: Fields, hoje: LocalDate): (r: Fields)
    ensures r.dataVinculacao == (if v.dataVinculacao.None? then Some(hoje) else v.dataVinculacao)
    ensures r.(dataVinculacao := v.dataVinculacao) == v
  {
    if v.dataVinculacao.None? then v.(dataVinculacao := Some(hoje)) else v
  }

  /** After onCreate, isVigente no longer throws, and a new active link created today holds today. */
  lemma CriadaVigente(v: Fields, hoje: LocalDate)
    ensures IsVigente(Criada(v, hoje), hoje).Ok?
    ensures v.dataVinculacao.None? && IsAtiva(v) ==> IsVigente(Criada(v, hoje), hoje) == Ok(true)
  {
  }

  class UsuarioProgramaRole {
    var dataVinculacao: Option<LocalDate>
    var dataDesvinculacao: Option<LocalDate>
    var status: Option<StatusVinculacao>

    function State(): Fields
      reads this
    {
      Fields(dataVinculacao, dataDesvinculacao, status)
    }

    /** A link as `new` leaves it: ATIVO, with the dates given. */
    constructor (dataVinculacao: Option<LocalDate>)
      ensures State() == Fields(dataVinculacao, None, Some(Ativo))
    {
      this.dataVinculacao := dataVinculacao;
      this.dataDesvinculacao := None;
      this.status := Some(Ativo);
    }

    method Suspender()
      modifies this
      ensures State() == Suspensa(old(State()))
    {
      status := Some(Suspenso);
    }

    method Reativar()
      modifies this
      ensures State() == Reativada(old(State()))
    {
      status := Some(Ativo);
    }

    method Desligar(dataDesligamento: Option<LocalDate>, hoje: LocalDate)
      modifies this
      ensures State() == Desligada(old(State()), dataDesligamento, hoje)
    {
      status := Some(Desligado);
      dataDesvinculacao := if dataDesligamento.Some? then dataDesligamento else Some(hoje);
    }

    /** onCreate (@PrePersist). */
    method OnCreate(hoje: LocalDate)
      modifies this
      ensures State() == Criada(old(State()), hoje)
    {
      if dataVinculacao.None? {
        dataVinculacao := Some(hoje);
      }
    }
  }
}
