/**
 * An examining board as the academic module sees it (entity Banca): its status and modality are
 * free-text columns compared against fixed labels, and its final mark (numeric(4,2)) is modelled
 * as a whole number of hundredths.
 */
module Banca {
  import opened Wrappers
  import opened JavaTime
  import MD = MatriculaDisciplina
  import Json = Instituicao

  datatype TipoBanca = Qualificacao | DefesaDissertacao | DefesaTese

  predicate IsDefesaTipo(t: TipoBanca) {
    t == DefesaDissertacao || t == DefesaTese
  }

  /** The board results; all but REPROVADO carry the approving flag. */
  datatype ResultadoBanca = Aprovado | Reprovado | AprovadoComRestricoes | AprovadoComDistincao

  predicate Aprova(r: ResultadoBanca) {
    r != Reprovado
  }

  predicate ExigeCorrecoesResultado(r: ResultadoBanca) {
    r == AprovadoComRestricoes
  }

  datatype Fields = Fields(
    tipo: Option<TipoBanca>,
    status: Option<string>,
    dataAgendada: Option<LocalDate>,
    modalidade: Option<string>,
    resultado: Option<ResultadoBanca>,
    notaFinal: Option<int>,
    ataArquivo: Option<string>,
    pauta: Option<map<string, Json.Valor>>)

  predicate IsRealizada(b: Fields) {
    b.status == Some("Realizada")
  }

  predicate IsAgendada(b: Fields) {
    b.status == Some("Agendada")
  }

  predicate IsCancelada(b: Fields) {
    b.status == Some("Cancelada")
  }

  /** The three status checks compare against different labels, so at most one holds. */
  lemma StatusExclusive(b: Fields)
    ensures !(IsRealizada(b) && IsAgendada(b)) && !(IsRealizada(b) && IsCancelada(b))
            && !(IsAgendada(b) && IsCancelada(b))
  {
    assert "Realizada"[0] != "Agendada"[0] && "Realizada"[0] != "Cancelada"[0] && "Agendada"[0] != "Cancelada"[0];
  }

  datatype ErroBanca = DataAgendadaNula

  /** podeRealizar: a scheduled board whose date is today or past; a scheduled board without a
      date dereferences null. */
  function PodeRealizar(b: Fields, hoje: LocalDate): (r: Result<bool, ErroBanca>)
    ensures r.Err? <==> IsAgendada(b) && b.dataAgendada.None?
    ensures r == Ok(true) <==> IsAgendada(b) && b.dataAgendada.Some? && !IsAfter(b.dataAgendada.value, hoje)
  {
    if !IsAgendada(b) then Ok(false)
    else if b.dataAgendada.None? then Err(DataAgendadaNula)
    else Ok(b.dataAgendada.value == hoje || IsBefore(b.dataAgendada.value, hoje))
  }

  predicate PodeCancelar(b: Fields) {
    IsAgendada(b)
  }

  predicate PodeReagendar(b: Fields) {
    b.status == Some("Agendada") || b.status == Some("Adiada")
  }

  /** Only a scheduled board can be cancelled, and it can also be rescheduled; a postponed one can
      be rescheduled but not cancelled. */
  lemma CancelarReagendar(b: Fields)
    ensures PodeCancelar(b) ==> PodeReagendar(b) && !IsRealizada(b)
    ensures PodeReagendar(b) && !PodeCancelar(b) <==> b.status == Some("Adiada")
  {
    assert "Agendada"[0] != "Adiada"[1];
  }

  predicate IsVirtual(b: Fields) {
    b.modalidade == Some("Virtual")
  }

  predicate IsHibrida(b: Fields) {
    b.modalidade == Some("Híbrida")
  }

  /** requerLinkVirtual: a virtual or hybrid board. */
  predicate RequerLinkVirtual(b: Fields) {
    IsVirtual(b) || IsHibrida(b)
  }

  /** A board is at most one of virtual and hybrid; either needs a link, and any other modality
      (or none) does not. */
  lemma ModalidadeRules(b: Fields)
    ensures !(IsVirtual(b) && IsHibrida(b))
    ensures RequerLinkVirtual(b) <==> b.modalidade in {Some("Virtual"), Some("Híbrida")}
    ensures b.modalidade == Some("Presencial") ==> !RequerLinkVirtual(b)
  {
    assert "Virtual"[0] != "Híbrida"[0];
    assert "Presencial"[0] != "Virtual"[0] && "Presencial"[0] != "Híbrida"[0];
  }

  predicate TemResultado(b: Fields) {
    b.resultado.Some?
  }

  predicate IsAprovado(b: Fields) {
    b.resultado.Some? && Aprova(b.resultado.value)
  }

  predicate ExigeCorrecoes(b: Fields) {
    b.resultado.Some? && ExigeCorrecoesResultado(b.resultado.value)
  }

  /** A result demanding corrections is an approving one, and an approved board has a result. */
  lemma ResultadoRules(b: Fields)
    ensures ExigeCorrecoes(b) ==> IsAprovado(b)
    ensures IsAprovado(b) ==> TemResultado(b)
    ensures TemResultado(b) ==> (IsAprovado(b) <==> b.resultado != Some(Reprovado))
  {
  }

  predicate IsQualificacao(b: Fields) {
    b.tipo == Some(Qualificacao)
  }

  predicate IsDefesa(b: Fields) {
    b.tipo.Some? && IsDefesaTipo(b.tipo.value)
  }

  /** A board of known type is a qualification or a defence and not both. */
  lemma TipoRules(b: Fields)
    ensures b.tipo.Some? ==> IsQualificacao(b) != IsDefesa(b)
  {
    if b.tipo.Some? {
      match b.tipo.value {
        case Qualificacao =>
        case DefesaDissertacao =>
        case DefesaTese =>
      }
    }
  }

  /** calcularResultadoFinal: no mark, no result; from 7.0 up APROVADO, below REPROVADO. */
  function CalcularResultadoFinal(notaFinal: Option<int>): (r: Option<ResultadoBanca>)
    ensures r.None? <==> notaFinal.None?
    ensures r == Some(Aprovado) <==> notaFinal.Some? && notaFinal.value >= 700
    ensures r.Some? ==> r.value == Aprovado || r.value == Reprovado
  {
    if notaFinal.None? then None
    else if notaFinal.value >= 700 then Some(Aprovado)
    else Some(Reprovado)
  }

  /** The board's pass mark is the course pass mark: a result is approving exactly when the same
      mark would pass the mark rule of a course enrolment. */
  lemma PassMarkAgreesWithCourses(notaFinal: Option<int>)
    ensures CalcularResultadoFinal(notaFinal).Some? ==>
              (Aprova(CalcularResultadoFinal(notaFinal).value) <==> MD.AtingiuNotaMinima(notaFinal))
  {
  }

  /** temAta: a minutes file name that is present and not empty. */
  predicate TemAta(b: Fields) {
    b.ataArquivo.Some? && b.ataArquivo.value != ""
  }

  /** temPauta: an agenda (a JSON object) that is present and has at least one entry. */
  predicate TemPauta(b: Fields) {
    b.pauta.Some? && |b.pauta.value| > 0
  }

  /** The minutes test for an empty path, not a blank one: a single space counts, the empty text
      and null do not.  The agenda counts once it has any key, whatever its value, and not when
      null or empty.  Each check ignores the other field. */
  lemma ArquivosPresentes(b: Fields)
    ensures b.ataArquivo == Some(" ") ==> TemAta(b)
    ensures b.ataArquivo.None? || b.ataArquivo == Some("") ==> !TemAta(b)
    ensures b.pauta.Some? && (exists k :: k in b.pauta.value) ==> TemPauta(b)
    ensures b.pauta.None? || b.pauta == Some(map[]) ==> !TemPauta(b)
    ensures TemAta(b.(pauta := None)) == TemAta(b) && TemPauta(b.(ataArquivo := None)) == TemPauta(b)
  {
  }
}
