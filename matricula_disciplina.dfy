/**
 * One student's enrolment in one course offering (entity MatriculaDisciplina): the mark and the
 * attendance figure, the pass/fail rule, the letter grade and the suspension of the enrolment.
 * The mark (0 to 10) and the attendance percentage (0 to 100) are stored with two decimal places
 * (columns numeric(4,2) and numeric(5,2)), so they are modelled as whole numbers of hundredths.
 */
module MatriculaDisciplina {
  import opened Wrappers
  import opened JavaNum
  import opened JavaTime
  import SM = StatusMatricula
  import OD = OfertaDisciplina

  /** NOTA_MINIMA_APROVACAO = 7.0 and FREQUENCIA_MINIMA_APROVACAO = 75.0, in hundredths. */
  const NotaMinimaAprovacao: int := 700
  const FrequenciaMinimaAprovacao: int := 7500

  /** The width of the conceito column (@Size(max = 10), length = 10). */
  const TamanhoMaximoConceito: int := 10

  predicate AtingiuNotaMinima(nota: Option<int>) {
    nota.Some? && nota.value >= NotaMinimaAprovacao
  }

  predicate AtingiuFrequenciaMinima(frequencia: Option<int>) {
    frequencia.Some? && frequencia.value >= FrequenciaMinimaAprovacao
  }

  /** isAprovado: both values present, mark at least 7.00 and attendance at least 75.00%. */
  predicate IsAprovado(nota: Option<int>, frequencia: Option<int>) {
    nota.Some? && frequencia.Some?
    && nota.value >= NotaMinimaAprovacao && frequencia.value >= FrequenciaMinimaAprovacao
  }

  /** isReprovado: false while a value is missing, otherwise the negation of isAprovado. */
  predicate IsReprovado(nota: Option<int>, frequencia: Option<int>) {
    if nota.None? || frequencia.None? then false else !IsAprovado(nota, frequencia)
  }

  /** Passing is reaching both minimums; failing is having both values and missing a minimum;
      the two never hold together, and with both values present one of them does. */
  lemma ApprovalRules(nota: Option<int>, frequencia: Option<int>)
    ensures IsAprovado(nota, frequencia) <==> AtingiuNotaMinima(nota) && AtingiuFrequenciaMinima(frequencia)
    ensures IsReprovado(nota, frequencia) <==>
              nota.Some? && frequencia.Some? && !(AtingiuNotaMinima(nota) && AtingiuFrequenciaMinima(frequencia))
    ensures !(IsAprovado(nota, frequencia) && IsReprovado(nota, frequencia))
    ensures nota.Some? && frequencia.Some? ==> IsAprovado(nota, frequencia) || IsReprovado(nota, frequencia)
  {
  }

  // ---------------------------------------------------------------- letter grade

  const Conceitos: seq<string> := ["E", "D", "C", "B", "A"]

  /** The position of a letter grade in E < D < C < B < A. */
  function Rank(conceito: string): int {
    if conceito == "A" then 4
    else if conceito == "B" then 3
    else if conceito == "C" then 2
    else if conceito == "D" then 1
    else 0
  }

  /** calcularConceito for a present mark: A from 9.00, B from 8.00, C from 7.00, D from 6.00, else E. */
  function Conceito(nota: int): (r: string)
    ensures r in Conceitos
    ensures Rank(r) >= 2 <==> nota >= NotaMinimaAprovacao
    ensures r == "A" <==> nota >= 900
    ensures r == "E" <==> nota < 600
  {
    if nota >= 900 then "A"
    else if nota >= 800 then "B"
    else if nota >= 700 then "C"
    else if nota >= 600 then "D"
    else "E"
  }

  /** A higher mark never earns a lower grade. */
  lemma ConceitoMonotone(nota1: int, nota2: int)
    requires nota1 <= nota2
    ensures Rank(Conceito(nota1)) <= Rank(Conceito(nota2))
  {
  }

  /** Every grade is reached exactly from its threshold: a mark gets grade g iff it is at least g's
      threshold and below the next one. */
  lemma ConceitoThresholds(nota: int)
    ensures Conceito(nota) == "B" <==> 800 <= nota < 900
    ensures Conceito(nota) == "C" <==> 700 <= nota < 800
    ensures Conceito(nota) == "D" <==> 600 <= nota < 700
  {
  }

  /** calcularConceito: null without a mark. */
  function CalcularConceito(nota: Option<int>): (r: Option<string>)
    ensures r.None? <==> nota.None?
    ensures r.Some? ==> r.value == Conceito(nota.value)
  {
    if nota.None? then None else Some(Conceito(nota.value))
  }

  // ---------------------------------------------------------------- the record

  /** The fields the rules read and write, as one value. */
  datatype Registro = Registro(
    situacao: SM.StatusMatricula,
    frequenciaPercentual: Option<int>,
    notaFinal: Option<int>,
    conceito: Option<string>,
    statusFinal: Option<string>,
    dataResultado: Option<LocalDate>)

  /** The record after calcularResultadoFinal on day hoje. */
  function ResultadoFinal(reg: Registro, hoje: LocalDate): (r: Registro)
    ensures r.notaFinal == reg.notaFinal && r.frequenciaPercentual == reg.frequenciaPercentual
    ensures r.dataResultado == Some(hoje)
    ensures IsAprovado(reg.notaFinal, reg.frequenciaPercentual) ==>
              r.situacao == SM.Aprovado && r.statusFinal == Some("Aprovado")
              && r.conceito.Some? && r.conceito.value in ["A", "B", "C"]
    ensures IsReprovado(reg.notaFinal, reg.frequenciaPercentual) ==>
              r.situacao == SM.Reprovado && r.statusFinal == Some("Reprovado")
              && r.conceito == Some(if !AtingiuFrequenciaMinima(reg.frequenciaPercentual)
                                    then "Reprovado por Falta" else "Reprovado por Nota")
    ensures reg.notaFinal.None? || reg.frequenciaPercentual.None? ==>
              r == reg.(dataResultado := Some(hoje))
  {
    ApprovalRules(reg.notaFinal, reg.frequenciaPercentual);
    var base := reg.(dataResultado := Some(hoje));
    if IsAprovado(reg.notaFinal, reg.frequenciaPercentual) then
      base.(statusFinal := Some("Aprovado"), situacao := SM.Aprovado, conceito := CalcularConceito(reg.notaFinal))
    else if reg.notaFinal.Some? && reg.frequenciaPercentual.Some? then
      base.(statusFinal := Some("Reprovado"), situacao := SM.Reprovado,
            conceito := Some(if !AtingiuFrequenciaMinima(reg.frequenciaPercentual)
                             then "Reprovado por Falta" else "Reprovado por Nota"))
    else base
  }

  /** Recomputing the result on the same day changes nothing more: the outcome depends only on
      the mark and the attendance, which the computation leaves alone. */
  lemma ResultadoFinalIdempotent(reg: Registro, hoje: LocalDate)
    ensures ResultadoFinal(ResultadoFinal(reg, hoje), hoje) == ResultadoFinal(reg, hoje)
  {
  }

  predicate CabeNaColuna(conceito: Option<string>) {
    conceito.None? || |conceito.value| <= TamanhoMaximoConceito
  }

  /** The failing concepts "Reprovado por Falta" and "Reprovado por Nota" are longer than the
      10-character conceito column, while every letter grade fits: after calcularResultadoFinal the
      concept fits exactly when the record did not fail (given that it fitted before). */
  lemma ConceitoCabeNaColunaSalvoReprovacao(reg: Registro, hoje: LocalDate)
    requires CabeNaColuna(reg.conceito)
    ensures CabeNaColuna(ResultadoFinal(reg, hoje).conceito) <==> !IsReprovado(reg.notaFinal, reg.frequenciaPercentual)
  {
    ApprovalRules(reg.notaFinal, reg.frequenciaPercentual);
  }

  datatype ErroTrancamento = NaoPodeTrancar

  /** The record after trancar on day hoje, or the IllegalStateException it throws. */
  function Trancamento(reg: Registro, hoje: LocalDate): (r: Result<Registro, ErroTrancamento>)
    ensures r.Ok? <==> SM.PodeTrancar(reg.situacao)
    ensures r.Ok? ==> r.value.situacao == SM.Trancado && r.value.statusFinal == Some("Trancado")
                      && r.value.dataResultado == Some(hoje)
    ensures r.Ok? ==> r.value.notaFinal == reg.notaFinal && r.value.frequenciaPercentual == reg.frequenciaPercentual
                      && r.value.conceito == reg.conceito
  {
    if reg.situacao != SM.Matriculado then Err(NaoPodeTrancar)
    else Ok(reg.(situacao := SM.Trancado, statusFinal := Some("Trancado"), dataResultado := Some(hoje)))
  }

  /** A suspended enrolment is final: it cannot be suspended again. */
  lemma TrancarOnce(reg: Registro, hoje: LocalDate)
    requires Trancamento(reg, hoje).Ok?
    ensures SM.IsFinal(Trancamento(reg, hoje).value.situacao)
    ensures Trancamento(Trancamento(reg, hoje).value, hoje).Err?
  {
  }

  /** The value the rounding setters store: setScale(2, HALF_UP) of a present value, null for null. */
  function Arredondar(valor: Option<BigDecimal>): (r: Option<int>)
    ensures r.None? <==> valor.None?
    ensures valor.Some? && valor.value.scale > 2 ==>
              HalfUpBracket(valor.value.unscaled, Pow10(valor.value.scale - 2), r.value)
    ensures valor.Some? && 0 <= valor.value.scale <= 2 ==> r.value * Pow10(valor.value.scale) == valor.value.unscaled * 100
    ensures valor.Some? && valor.value.scale < 0 ==> r.value == valor.value.unscaled * Pow10(-valor.value.scale) * 100
  {
    if valor.None? then None
    else
      HundredthsNearest(valor.value);
      HundredthsHalfUp(valor.value);
      Some(Hundredths(valor.value))
  }

  /** Ties go away from zero: a mark of 6.995 is stored as 7.00, which passes, and -7.125 as -7.13. */
  lemma ArredondarEmpate()
    ensures Arredondar(Some(BigDecimal(6995, 3))) == Some(700) && IsAprovado(Some(700), Some(7500))
    ensures Arredondar(Some(BigDecimal(-7125, 3))) == Some(-713)
  {
    assert Pow10(1) == 10;
  }

  class MatriculaDisciplina {
    var situacao: SM.StatusMatricula
    var frequenciaPercentual: Option<int>
    var notaFinal: Option<int>
    var conceito: Option<string>
    var statusFinal: Option<string>
    var dataResultado: Option<LocalDate>
    /** The offering the enrolment belongs to. */
    const ofertaDisciplina: OD.OfertaDisciplina

    function State(): Registro
      reads this
    {
      Registro(situacao, frequenciaPercentual, notaFinal, conceito, statusFinal, dataResultado)
    }

    /** A new enrolment as the mapper builds it and @PrePersist completes it: MATRICULADO, with no
        mark, attendance or result. */
    constructor (oferta: OD.OfertaDisciplina)
      ensures ofertaDisciplina == oferta
      ensures State() == Registro(SM.Matriculado, None, None, None, None, None)
    {
      situacao := SM.Matriculado;
      frequenciaPercentual := None;
      notaFinal := None;
      conceito := None;
      statusFinal := None;
      dataResultado := None;
      ofertaDisciplina := oferta;
    }

    /** calcularResultadoFinal: records the outcome and returns the final status text. */
    method CalcularResultadoFinal(hoje: LocalDate) returns (resultado: Option<string>)
      modifies this
      ensures State() == ResultadoFinal(old(State()), hoje)
      ensures resultado == statusFinal
    {
      if IsAprovado(notaFinal, frequenciaPercentual) {
        statusFinal := Some("Aprovado");
        situacao := SM.Aprovado;
        conceito := CalcularConceito(notaFinal);
      } else if notaFinal.Some? && frequenciaPercentual.Some? {
        statusFinal := Some("Reprovado");
        situacao := SM.Reprovado;
        if !AtingiuFrequenciaMinima(frequenciaPercentual) {
          conceito := Some("Reprovado por Falta");
        } else {
          conceito := Some("Reprovado por Nota");
        }
      }
      dataResultado := Some(hoje);
      return statusFinal;
    }

    /** trancar: suspends an active enrolment; anything else is rejected unchanged. */
    method Trancar(hoje: LocalDate) returns (r: Result<(), ErroTrancamento>)
      modifies this
      ensures r.Ok? <==> old(SM.PodeTrancar(situacao))
      ensures r.Ok? ==> State() == Trancamento(old(State()), hoje).value
      ensures r.Err? ==> r.error == NaoPodeTrancar && State() == old(State())
    {
      if situacao != SM.Matriculado {
        return Err(NaoPodeTrancar);
      }
      situacao := SM.Trancado;
      statusFinal := Some("Trancado");
      dataResultado := Some(hoje);
      return Ok(());
    }

    /** setNotaFinalComArredondamento. */
    method SetNotaFinalComArredondamento(nota: Option<BigDecimal>)
      modifies this
      ensures State() == old(State()).(notaFinal := Arredondar(nota))
    {
      notaFinal := Arredondar(nota);
    }

    /** setFrequenciaComArredondamento. */
    method SetFrequenciaComArredondamento(frequencia: Option<BigDecimal>)
      modifies this
      ensures State() == old(State()).(frequenciaPercentual := Arredondar(frequencia))
    {
      frequenciaPercentual := Arredondar(frequencia);
    }
  }
}
