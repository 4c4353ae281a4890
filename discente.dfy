/**
 * A graduate student (entity Discente) as its helper queries see it: status, supervision, grant,
 * qualification and the deadline with its extensions.  Lecturers are identified by their ids and
 * today is the parameter hoje.
 */
module Discente {
  import opened Wrappers
  import opened JavaText
  import opened JavaTime
  import SD = StatusDiscente

  /** One extension of the deadline, a JSON object kept as its string fields. */
  datatype Prorrogacao = Prorrogacao(campos: map<string, string>)

  datatype Fields = Fields(
    status: Option<SD.StatusDiscente>,
    orientador: Option<nat>,
    coorientadorInterno: Option<nat>,
    coorientadorExternoNome: Option<string>,
    bolsista: Option<bool>,
    dataFimBolsa: Option<LocalDate>,
    qualificacaoRealizada: Option<bool>,
    prorrogacoes: Option<seq<Prorrogacao>>,
    dataLimiteAtual: Option<LocalDate>)

  predicate IsAtivo(d: Fields) {
    d.status.Some? && SD.IsAtivo(d.status.value)
  }

  /** podeDefender: a status that allows the defence, and a qualification that took place. */
  predicate PodeDefender(d: Fields) {
    d.status.Some? && SD.PodeDefender(d.status.value) && d.qualificacaoRealizada == Some(true)
  }

  /** A student who may defend is active and qualified; one without a status may not. */
  lemma PodeDefenderImpliesAtivo(d: Fields)
    ensures PodeDefender(d) ==> IsAtivo(d) && d.qualificacaoRealizada == Some(true)
    ensures d.status.None? ==> !PodeDefender(d) && !IsAtivo(d)
  {
    if d.status.Some? {
      SD.CapabilitiesImplyAtivo(d.status.value);
    }
  }

  predicate TemOrientador(d: Fields) {
    d.orientador.Some?
  }

  /** temCoorientador: an internal co-supervisor, or an external one with a non-blank name. */
  predicate TemCoorientador(d: Fields) {
    d.coorientadorInterno.Some? || (d.coorientadorExternoNome.Some? && !IsBlank(d.coorientadorExternoNome.value))
  }

  /** A blank external name does not count as a co-supervisor. */
  lemma CoorientadorExterno(d: Fields)
    ensures d.coorientadorInterno.None? ==>
              (TemCoorientador(d) <==> d.coorientadorExternoNome.Some? && !IsBlank(d.coorientadorExternoNome.value))
    ensures d.coorientadorInterno.Some? ==> TemCoorientador(d)
  {
  }

  /** temBolsaVigente at hoje: a grant holder whose grant has no end or ends today or later. */
  predicate TemBolsaVigente(d: Fields, hoje: LocalDate) {
    d.bolsista == Some(true) && (d.dataFimBolsa.None? || IsAfter(d.dataFimBolsa.value, hoje) || d.dataFimBolsa.value == hoje)
  }

  /** A grant in force today was in force on every earlier day, and only grant holders have one. */
  lemma BolsaVigenteAntes(d: Fields, antes: LocalDate, hoje: LocalDate)
    requires !IsAfter(antes, hoje) && TemBolsaVigente(d, hoje)
    ensures TemBolsaVigente(d, antes) && d.bolsista == Some(true)
  {
    if d.dataFimBolsa.Some? {
      BeforeIsStrictTotal(antes, hoje);
      BeforeIsStrictTotal(d.dataFimBolsa.value, hoje);
      BeforeIsStrictTotal(d.dataFimBolsa.value, antes);
    }
  }

  /** getTotalProrrogacoes: the number of extensions, 0 without a list. */
  function TotalProrrogacoes(d: Fields): (r: nat)
    ensures d.prorrogacoes.None? ==> r == 0
    ensures d.prorrogacoes.Some? ==> r == |d.prorrogacoes.value|
  {
    if d.prorrogacoes.Some? then |d.prorrogacoes.value| else 0
  }

  /** Granting one more extension raises the total by one. */
  lemma ProrrogacaoConta(d: Fields, p: Prorrogacao)
    ensures TotalProrrogacoes(d.(prorrogacoes := Some(if d.prorrogacoes.Some? then d.prorrogacoes.value + [p] else [p])))
            == TotalProrrogacoes(d) + 1
  {
  }

  /** isPrazoVencido at hoje: a deadline that lies before today. */
  predicate IsPrazoVencido(d: Fields, hoje: LocalDate) {
    d.dataLimiteAtual.Some? && IsBefore(d.dataLimiteAtual.value, hoje)
  }

  /** getMesesAtePrazo at hoje: 0 without a deadline or once it has passed, else the whole months
      from today to the deadline. */
  function MesesAtePrazo(d: Fields, hoje: LocalDate): (r: int)
    ensures r >= 0
    ensures d.dataLimiteAtual.None? || IsPrazoVencido(d, hoje) ==> r == 0
    ensures d.dataLimiteAtual.Some? && !IsPrazoVencido(d, hoje) ==> r == MonthsBetween(hoje, d.dataLimiteAtual.value)
  {
    if d.dataLimiteAtual.None? then 0
    else if IsBefore(d.dataLimiteAtual.value, hoje) then 0
    else
      MonthsBetweenForward(hoje, d.dataLimiteAtual.value);
      MonthsBetween(hoje, d.dataLimiteAtual.value)
  }

  /** Months left mean the deadline has not passed; a passed deadline leaves none. */
  lemma MesesEPrazo(d: Fields, hoje: LocalDate)
    ensures MesesAtePrazo(d, hoje) > 0 ==> !IsPrazoVencido(d, hoje) && d.dataLimiteAtual.Some?
    ensures IsPrazoVencido(d, hoje) ==> MesesAtePrazo(d, hoje) == 0
    ensures d.dataLimiteAtual == Some(hoje) ==> MesesAtePrazo(d, hoje) == 0 && !IsPrazoVencido(d, hoje)
  {
  }

  /** A deadline a year or more ahead on the same day of the month leaves twelve months or more. */
  lemma UmAnoDePrazo(d: Fields, hoje: LocalDate)
    requires d.dataLimiteAtual.Some? && d.dataLimiteAtual.value.day == hoje.day
    requires d.dataLimiteAtual.value.month == hoje.month && d.dataLimiteAtual.value.year == hoje.year + 1
    ensures MesesAtePrazo(d, hoje) == 12
  {
  }
}
