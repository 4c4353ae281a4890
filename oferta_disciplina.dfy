/**
 * A course offering (entity OfertaDisciplina): one run of a course in a term, with a bounded seat
 * counter and a lifecycle status.  The seat and status rules are functions of the fields; the
 * class holds the fields the services update in place.
 */
module OfertaDisciplina {
  import opened Wrappers
  import opened JavaNum
  import opened JavaTime
  import SO = StatusOferta

  // ---------------------------------------------------------------- seat rules

  /** temVagasDisponiveis: both counts known and a seat left. */
  predicate TemVagasDisponiveis(oferecidas: Option<Int32>, ocupadas: Option<Int32>) {
    oferecidas.Some? && ocupadas.Some? && ocupadas.value < oferecidas.value
  }

  function Max(a: int, b: int): int {
    if a >= b then a else b
  }

  /** calcularVagasDisponiveis: Math.max(0, oferecidas - ocupadas) on Java ints, 0 when a count is null. */
  function VagasDisponiveis(oferecidas: Option<Int32>, ocupadas: Option<Int32>): (r: Int32)
    ensures r >= 0
    ensures oferecidas.None? || ocupadas.None? ==> r == 0
    ensures oferecidas.Some? && ocupadas.Some? && MinInt <= oferecidas.value - ocupadas.value <= MaxInt ==>
              r == Max(0, oferecidas.value - ocupadas.value)
  {
    if oferecidas.None? || ocupadas.None? then 0
    else Max(0, Subtract(oferecidas.value, ocupadas.value))
  }

  /** With a non-negative occupied count (the entity's @Min(0) constraint) the subtraction cannot
      wrap, so the free seats are exactly the difference, and there is a free seat exactly when
      temVagasDisponiveis holds. */
  lemma VagasDisponiveisExact(oferecidas: Int32, ocupadas: Int32)
    requires 0 <= ocupadas && 0 <= oferecidas
    ensures VagasDisponiveis(Some(oferecidas), Some(ocupadas)) == Max(0, oferecidas - ocupadas)
    ensures VagasDisponiveis(Some(oferecidas), Some(ocupadas)) > 0
            <==> TemVagasDisponiveis(Some(oferecidas), Some(ocupadas))
  {
  }

  datatype SeatError = SemVagasDisponiveis | SemVagasOcupadas

  /** The occupied count after incrementarVagasOcupadas, or the IllegalStateException it throws. */
  function Incrementar(oferecidas: Option<Int32>, ocupadas: Option<Int32>): (r: Result<Int32, SeatError>)
    ensures r.Ok? <==> TemVagasDisponiveis(oferecidas, ocupadas)
    ensures r.Ok? ==> r.value == ocupadas.value + 1 && r.value <= oferecidas.value
    ensures r.Err? ==> r.error == SemVagasDisponiveis
  {
    if !TemVagasDisponiveis(oferecidas, ocupadas) then Err(SemVagasDisponiveis)
    else Ok(Increment(ocupadas.value))
  }

  /** The occupied count after decrementarVagasOcupadas, or the IllegalStateException it throws. */
  function Decrementar(ocupadas: Option<Int32>): (r: Result<Int32, SeatError>)
    ensures r.Ok? <==> ocupadas.Some? && ocupadas.value > 0
    ensures r.Ok? ==> r.value == ocupadas.value - 1 && r.value >= 0
    ensures r.Err? ==> r.error == SemVagasOcupadas
  {
    if ocupadas.None? || ocupadas.value <= 0 then Err(SemVagasOcupadas)
    else Ok(Subtract(ocupadas.value, 1))
  }

  /** Taking a seat and giving it back restores the count. */
  lemma IncrementarThenDecrementar(oferecidas: Option<Int32>, ocupadas: Option<Int32>)
    requires TemVagasDisponiveis(oferecidas, ocupadas) && ocupadas.value >= 0
    ensures Decrementar(Some(Incrementar(oferecidas, ocupadas).value)) == Ok(ocupadas.value)
  {
  }

  /** Giving a seat back and taking it again restores the count. */
  lemma DecrementarThenIncrementar(oferecidas: Int32, ocupadas: Option<Int32>)
    requires Decrementar(ocupadas).Ok? && ocupadas.value <= oferecidas
    ensures Incrementar(Some(oferecidas), Some(Decrementar(ocupadas).value)) == Ok(ocupadas.value)
  {
  }

  /** The seat invariant 0 <= ocupadas <= oferecidas survives both operations. */
  lemma SeatsStayInRange(oferecidas: Int32, ocupadas: Int32)
    requires 0 <= ocupadas <= oferecidas
    ensures Incrementar(Some(oferecidas), Some(ocupadas)).Ok? ==>
              0 <= Incrementar(Some(oferecidas), Some(ocupadas)).value <= oferecidas
    ensures Decrementar(Some(ocupadas)).Ok? ==>
              0 <= Decrementar(Some(ocupadas)).value <= oferecidas
  {
  }

  // ---------------------------------------------------------------- status rules

  /** isInscricoesAbertas: enrolment is open and a seat is left. */
  predicate IsInscricoesAbertas(status: SO.StatusOferta, oferecidas: Option<Int32>, ocupadas: Option<Int32>) {
    status == SO.Aberta && TemVagasDisponiveis(oferecidas, ocupadas)
  }

  /** The entity's isAtiva means "in progress" (EM_CURSO) only. */
  predicate IsAtiva(status: SO.StatusOferta) {
    status == SO.EmCurso
  }

  predicate IsConcluida(status: SO.StatusOferta) {
    status == SO.Concluida
  }

  /** podeCancelar: neither concluded nor already cancelled. */
  predicate PodeCancelar(status: SO.StatusOferta) {
    status != SO.Concluida && status != SO.Cancelada
  }

  /** permiteLancarNotas: in progress or concluded. */
  predicate PermiteLancarNotas(status: SO.StatusOferta) {
    status == SO.EmCurso || status == SO.Concluida
  }

  /** validarDatas: both dates known and the end strictly after the start. */
  predicate ValidarDatas(dataInicio: Option<LocalDate>, dataFim: Option<LocalDate>) {
    dataInicio.Some? && dataFim.Some? && IsAfter(dataFim.value, dataInicio.value)
  }

  /** How the entity's checks relate to the enum's: open enrolment implies the enum's open and
      active states and a free seat; podeCancelar and permiteLancarNotas agree with the enum; the
      entity's isAtiva is narrower than the enum's (ABERTA and FECHADA are active for the enum only). */
  lemma EntityAgreesWithEnum(status: SO.StatusOferta, oferecidas: Option<Int32>, ocupadas: Option<Int32>)
    ensures IsInscricoesAbertas(status, oferecidas, ocupadas) ==>
              SO.IsInscricoesAbertas(status) && SO.IsAtiva(status) && ocupadas.value < oferecidas.value
    ensures PodeCancelar(status) <==> SO.PodeCancelar(status)
    ensures PermiteLancarNotas(status) <==> SO.PermiteLancarNotas(status)
    ensures IsAtiva(status) ==> SO.IsAtiva(status)
    ensures SO.IsAtiva(status) && !IsAtiva(status) <==> status == SO.Aberta || status == SO.Fechada
  {
  }

  // ---------------------------------------------------------------- the entity

  /** The fields the domain rules read, as one value. */
  datatype Fields = Fields(
    vagasOferecidas: Option<Int32>,
    vagasOcupadas: Option<Int32>,
    status: SO.StatusOferta,
    dataInicio: Option<LocalDate>,
    dataFim: Option<LocalDate>,
    observacoes: Option<string>)

  class OfertaDisciplina {
    var vagasOferecidas: Option<Int32>
    var vagasOcupadas: Option<Int32>
    var status: SO.StatusOferta
    var dataInicio: Option<LocalDate>
    var dataFim: Option<LocalDate>
    var observacoes: Option<string>

    function State(): Fields
      reads this
    {
      Fields(vagasOferecidas, vagasOcupadas, status, dataInicio, dataFim, observacoes)
    }

    /** A persisted offering as the mapper builds it and @PrePersist completes it: no seat taken
        yet, status PLANEJADA. */
    constructor (vagasOferecidas: Option<Int32>, dataInicio: Option<LocalDate>, dataFim: Option<LocalDate>,
                 observacoes: Option<string>)
      ensures State() == Fields(vagasOferecidas, Some(0), SO.Planejada, dataInicio, dataFim, observacoes)
    {
      this.vagasOferecidas := vagasOferecidas;
      this.vagasOcupadas := Some(0);
      this.status := SO.Planejada;
      this.dataInicio := dataInicio;
      this.dataFim := dataFim;
      this.observacoes := observacoes;
    }

    /** incrementarVagasOcupadas: takes a seat, or fails and changes nothing when none is free. */
    method IncrementarVagasOcupadas() returns (r: Result<(), SeatError>)
      modifies this
      ensures r.Ok? <==> old(TemVagasDisponiveis(vagasOferecidas, vagasOcupadas))
      ensures r.Ok? ==> State() == old(State().(vagasOcupadas := Some(vagasOcupadas.value + 1)))
      ensures r.Ok? ==> vagasOcupadas.value <= vagasOferecidas.value
      ensures r.Err? ==> r.error == SemVagasDisponiveis && State() == old(State())
    {
      var next := Incrementar(vagasOferecidas, vagasOcupadas);
      if next.Err? {
        return Err(next.error);
      }
      vagasOcupadas := Some(next.value);
      return Ok(());
    }

    /** decrementarVagasOcupadas: frees a seat, or fails and changes nothing when none is taken. */
    method DecrementarVagasOcupadas() returns (r: Result<(), SeatError>)
      modifies this
      ensures r.Ok? <==> old(vagasOcupadas.Some? && vagasOcupadas.value > 0)
      ensures r.Ok? ==> State() == old(State().(vagasOcupadas := Some(vagasOcupadas.value - 1)))
      ensures r.Ok? ==> vagasOcupadas.value >= 0
      ensures r.Err? ==> r.error == SemVagasOcupadas && State() == old(State())
    {
      var next := Decrementar(vagasOcupadas);
      if next.Err? {
        return Err(next.error);
      }
      vagasOcupadas := Some(next.value);
      return Ok(());
    }
  }
}
