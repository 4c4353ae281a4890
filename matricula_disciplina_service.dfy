/**
 * The enrolment service (MatriculaDisciplinaService): enrolling, suspending, posting marks and
 * attendance, computing results one by one and for a whole offering, and deleting an enrolment.
 * Enrolling takes a seat of the offering and suspending or deleting gives it back.  Facts the
 * repositories would supply (the student's state, duplicates, whether each save succeeds) come in
 * as parameters; "today" is a parameter too.
 */
module MatriculaDisciplinaService {
  import opened Wrappers
  import opened JavaNum
  import opened JavaTime
  import SM = StatusMatricula
  import SO = StatusOferta
  import OD = OfertaDisciplina
  import opened MatriculaDisciplina

  datatype Erro =
    | InscricoesFechadas
    | DiscenteInativo
    | DiscenteDeOutroPrograma
    | MatriculaDuplicada            // ConflictException
    | TrancamentoNaoPermitido
    | OfertaConcluida
    | MatriculaInativa
    | LancamentoNaoPermitido
    | NotaInvalida
    | FrequenciaInvalida
    | NotaNaoLancada
    | FrequenciaNaoLancada
    | SituacaoNaoPermiteExclusao
    | SemVagasOcupadas              // IllegalStateException from decrementarVagasOcupadas

  /** Once enrolment is open, the separate "no seats" check that follows it in matricular can
      never fire: both counts are present and a seat is free. */
  lemma SeatCheckFollowsFromOpenEnrolment(o: OD.Fields)
    requires OD.IsInscricoesAbertas(o.status, o.vagasOferecidas, o.vagasOcupadas)
    ensures o.vagasOcupadas.Some? && o.vagasOferecidas.Some?
    ensures !(o.vagasOcupadas.value >= o.vagasOferecidas.value)
  {
  }

  /** matricular: enrolment must be open with a free seat, the student active and of the course's
      programme, and not already enrolled; the new enrolment takes one seat. */
  method Matricular(oferta: OD.OfertaDisciplina, discenteAtivo: bool, mesmoPrograma: bool, jaMatriculado: bool)
    returns (r: Result<MatriculaDisciplina, Erro>)
    modifies oferta
    ensures r == Err(InscricoesFechadas) <==>
              !old(OD.IsInscricoesAbertas(oferta.status, oferta.vagasOferecidas, oferta.vagasOcupadas))
    ensures r == Err(DiscenteInativo) <==>
              old(OD.IsInscricoesAbertas(oferta.status, oferta.vagasOferecidas, oferta.vagasOcupadas)) && !discenteAtivo
    ensures r == Err(DiscenteDeOutroPrograma) <==>
              old(OD.IsInscricoesAbertas(oferta.status, oferta.vagasOferecidas, oferta.vagasOcupadas))
              && discenteAtivo && !mesmoPrograma
    ensures r == Err(MatriculaDuplicada) <==>
              old(OD.IsInscricoesAbertas(oferta.status, oferta.vagasOferecidas, oferta.vagasOcupadas))
              && discenteAtivo && mesmoPrograma && jaMatriculado
    ensures r.Ok? <==>
              old(OD.IsInscricoesAbertas(oferta.status, oferta.vagasOferecidas, oferta.vagasOcupadas))
              && discenteAtivo && mesmoPrograma && !jaMatriculado
    ensures r.Ok? ==> fresh(r.value) && r.value.ofertaDisciplina == oferta
    ensures r.Ok? ==> r.value.State() == Registro(SM.Matriculado, None, None, None, None, None)
    ensures r.Ok? ==> oferta.State() == old(oferta.State()).(vagasOcupadas := Some(old(oferta.vagasOcupadas.value) + 1))
    ensures r.Ok? ==> oferta.vagasOcupadas.value <= oferta.vagasOferecidas.value
    ensures r.Err? ==> oferta.State() == old(oferta.State())
  {
    if !OD.IsInscricoesAbertas(oferta.status, oferta.vagasOferecidas, oferta.vagasOcupadas) {
      return Err(InscricoesFechadas);
    }
    // The seat check of the source holds here (SeatCheckFollowsFromOpenEnrolment).
    if !discenteAtivo {
      return Err(DiscenteInativo);
    }
    if !mesmoPrograma {
      return Err(DiscenteDeOutroPrograma);
    }
    if jaMatriculado {
      return Err(MatriculaDuplicada);
    }
    var matricula := new MatriculaDisciplina(oferta);
    var ok := oferta.IncrementarVagasOcupadas();
    assert ok.Ok?;
    return Ok(matricula);
  }

  /** trancar: only an active enrolment in an offering that is not concluded; the enrolment becomes
      TRANCADO and its seat is released.  When the offering has no occupied seat to release, the
      decrement fails after the enrolment has already been changed. */
  method Trancar(m: MatriculaDisciplina, hoje: LocalDate) returns (r: Result<(), Erro>)
    modifies m, m.ofertaDisciplina
    ensures r == Err(TrancamentoNaoPermitido) <==> old(m.situacao) != SM.Matriculado
    ensures r == Err(OfertaConcluida) <==>
              old(m.situacao) == SM.Matriculado && old(m.ofertaDisciplina.status) == SO.Concluida
    ensures r.Ok? <==>
              old(m.situacao) == SM.Matriculado && old(m.ofertaDisciplina.status) != SO.Concluida
              && old(m.ofertaDisciplina.vagasOcupadas).Some? && old(m.ofertaDisciplina.vagasOcupadas).value > 0
    ensures r == Err(SemVagasOcupadas) <==>
              old(m.situacao) == SM.Matriculado && old(m.ofertaDisciplina.status) != SO.Concluida
              && !(old(m.ofertaDisciplina.vagasOcupadas).Some? && old(m.ofertaDisciplina.vagasOcupadas).value > 0)
    ensures r == Err(TrancamentoNaoPermitido) || r == Err(OfertaConcluida) ==>
              m.State() == old(m.State()) && m.ofertaDisciplina.State() == old(m.ofertaDisciplina.State())
    ensures r.Ok? || r == Err(SemVagasOcupadas) ==>
              m.State() == Trancamento(old(m.State()), hoje).value
    ensures r.Ok? ==> old(m.ofertaDisciplina.vagasOcupadas).Some? && old(m.ofertaDisciplina.vagasOcupadas).value > 0
    ensures r.Ok? ==>
              m.ofertaDisciplina.State() == old(m.ofertaDisciplina.State()).(vagasOcupadas := Some(old(m.ofertaDisciplina.vagasOcupadas).value - 1))
    ensures r.Ok? ==> m.ofertaDisciplina.vagasOcupadas.value >= 0
    ensures r == Err(SemVagasOcupadas) ==> m.ofertaDisciplina.State() == old(m.ofertaDisciplina.State())
  {
    if m.situacao != SM.Matriculado {
      return Err(TrancamentoNaoPermitido);
    }
    if m.ofertaDisciplina.status == SO.Concluida {
      return Err(OfertaConcluida);
    }
    var t := m.Trancar(hoje);
    var d := m.ofertaDisciplina.DecrementarVagasOcupadas();
    if d.Err? {
      return Err(SemVagasOcupadas);
    }
    return Ok(());
  }

  /** lancarNota: the enrolment must be active, the offering must accept marks, and the mark must lie
      in [0, 10]; it is stored rounded to two places, which keeps it in [0.00, 10.00]. */
  method LancarNota(m: MatriculaDisciplina, nota: Option<BigDecimal>) returns (r: Result<(), Erro>)
    modifies m
    ensures r.Ok? <==>
              old(m.situacao) == SM.Matriculado && OD.PermiteLancarNotas(m.ofertaDisciplina.status)
              && nota.Some? && !IsNegative(nota.value) && !GreaterThan(nota.value, 10)
    ensures r == Err(NotaInvalida) ==> nota.None? || IsNegative(nota.value) || GreaterThan(nota.value, 10)
    ensures r.Ok? ==> m.State() == old(m.State()).(notaFinal := Some(Hundredths(nota.value)))
    ensures r.Ok? ==> 0 <= m.notaFinal.value <= 1000
    ensures r.Err? ==> m.State() == old(m.State())
  {
    if m.situacao != SM.Matriculado {
      return Err(MatriculaInativa);
    }
    if !OD.PermiteLancarNotas(m.ofertaDisciplina.status) {
      return Err(LancamentoNaoPermitido);
    }
    if nota.None? || IsNegative(nota.value) || GreaterThan(nota.value, 10) {
      return Err(NotaInvalida);
    }
    HundredthsWithin(nota.value, 10);
    m.SetNotaFinalComArredondamento(nota);
    return Ok(());
  }

  /** lancarFrequencia: as lancarNota, for an attendance percentage in [0, 100]. */
  method LancarFrequencia(m: MatriculaDisciplina, frequencia: Option<BigDecimal>) returns (r: Result<(), Erro>)
    modifies m
    ensures r.Ok? <==>
              old(m.situacao) == SM.Matriculado && OD.PermiteLancarNotas(m.ofertaDisciplina.status)
              && frequencia.Some? && !IsNegative(frequencia.value) && !GreaterThan(frequencia.value, 100)
    ensures r == Err(FrequenciaInvalida) ==>
              frequencia.None? || IsNegative(frequencia.value) || GreaterThan(frequencia.value, 100)
    ensures r.Ok? ==> m.State() == old(m.State()).(frequenciaPercentual := Some(Hundredths(frequencia.value)))
    ensures r.Ok? ==> 0 <= m.frequenciaPercentual.value <= 10000
    ensures r.Err? ==> m.State() == old(m.State())
  {
    if m.situacao != SM.Matriculado {
      return Err(MatriculaInativa);
    }
    if !OD.PermiteLancarNotas(m.ofertaDisciplina.status) {
      return Err(LancamentoNaoPermitido);
    }
    if frequencia.None? || IsNegative(frequencia.value) || GreaterThan(frequencia.value, 100) {
      return Err(FrequenciaInvalida);
    }
    HundredthsWithin(frequencia.value, 100);
    m.SetFrequenciaComArredondamento(frequencia);
    return Ok(());
  }

  /** calcularResultado: an active enrolment with both a mark and an attendance figure ends up
      APROVADO or REPROVADO. */
  method CalcularResultado(m: MatriculaDisciplina, hoje: LocalDate) returns (r: Result<Option<string>, Erro>)
    modifies m
    ensures r.Ok? <==> old(m.situacao) == SM.Matriculado && old(m.notaFinal).Some? && old(m.frequenciaPercentual).Some?
    ensures r.Ok? ==> m.State() == ResultadoFinal(old(m.State()), hoje)
    ensures r.Ok? ==> (m.situacao == SM.Aprovado <==> IsAprovado(m.notaFinal, m.frequenciaPercentual))
    ensures r.Ok? ==> (m.situacao == SM.Reprovado <==> !IsAprovado(m.notaFinal, m.frequenciaPercentual))
    ensures r.Ok? ==> r.value == m.statusFinal
    ensures r.Err? ==> m.State() == old(m.State())
  {
    if m.situacao != SM.Matriculado {
      return Err(MatriculaInativa);
    }
    if m.notaFinal.None? {
      return Err(NotaNaoLancada);
    }
    if m.frequenciaPercentual.None? {
      return Err(FrequenciaNaoLancada);
    }
    ApprovalRules(m.notaFinal, m.frequenciaPercentual);
    var resultado := m.CalcularResultadoFinal(hoje);
    return Ok(resultado);
  }

  // ---------------------------------------------------------------- batch results

  function Estados(ms: seq<MatriculaDisciplina>): (r: seq<Registro>)
    reads set m | m in ms
    ensures |r| == |ms|
    ensures forall i :: 0 <= i < |ms| ==> r[i] == ms[i].State()
  {
    seq(|ms|, i requires 0 <= i < |ms| reads set m | m in ms => ms[i].State())
  }

  /** The records saved that pass. */
  function ContarAprovados(regs: seq<Registro>, salvou: seq<bool>): nat
    requires |salvou| == |regs|
  {
    if regs == [] then 0
    else ContarAprovados(regs[..|regs| - 1], salvou[..|regs| - 1])
         + (if salvou[|regs| - 1] && IsAprovado(regs[|regs| - 1].notaFinal, regs[|regs| - 1].frequenciaPercentual) then 1 else 0)
  }

  /** The records saved that do not pass (missing values included). */
  function ContarReprovados(regs: seq<Registro>, salvou: seq<bool>): nat
    requires |salvou| == |regs|
  {
    if regs == [] then 0
    else ContarReprovados(regs[..|regs| - 1], salvou[..|regs| - 1])
         + (if salvou[|regs| - 1] && !IsAprovado(regs[|regs| - 1].notaFinal, regs[|regs| - 1].frequenciaPercentual) then 1 else 0)
  }

  /** The saves that failed. */
  function ContarErros(salvou: seq<bool>): nat {
    if salvou == [] then 0 else ContarErros(salvou[..|salvou| - 1]) + (if salvou[|salvou| - 1] then 0 else 1)
  }

  /** Every record is counted exactly once: as passed, as failed, or as an error. */
  lemma {:induction false} ContagensSomam(regs: seq<Registro>, salvou: seq<bool>)
    requires |salvou| == |regs|
    ensures ContarAprovados(regs, salvou) + ContarReprovados(regs, salvou) + ContarErros(salvou) == |regs|
  {
    if regs != [] {
      ContagensSomam(regs[..|regs| - 1], salvou[..|regs| - 1]);
    }
  }

  /** With every save succeeding, the passes are the records IsAprovado accepts and nothing is an
      error. */
  lemma {:induction false} TodosSalvos(regs: seq<Registro>, salvou: seq<bool>)
    requires |salvou| == |regs| && forall i :: 0 <= i < |salvou| ==> salvou[i]
    ensures ContarErros(salvou) == 0
    ensures ContarAprovados(regs, salvou) == |set i | 0 <= i < |regs| && IsAprovado(regs[i].notaFinal, regs[i].frequenciaPercentual)|
  {
    if regs != [] {
      var n := |regs| - 1;
      TodosSalvos(regs[..n], salvou[..n]);
      var prefix := set i | 0 <= i < n && IsAprovado(regs[..n][i].notaFinal, regs[..n][i].frequenciaPercentual);
      var whole := set i | 0 <= i < |regs| && IsAprovado(regs[i].notaFinal, regs[i].frequenciaPercentual);
      assert prefix == set i | 0 <= i < n && IsAprovado(regs[i].notaFinal, regs[i].frequenciaPercentual);
      if IsAprovado(regs[n].notaFinal, regs[n].frequenciaPercentual) {
        assert whole == prefix + {n};
      } else {
        assert whole == prefix;
      }
    }
  }

  /** Extending the records by one adds that record to exactly one of the three counts. */
  lemma ContarPasso(regs: seq<Registro>, salvou: seq<bool>, i: nat)
    requires |salvou| == |regs| && i < |regs|
    ensures ContarAprovados(regs[..i + 1], salvou[..i + 1]) ==
              ContarAprovados(regs[..i], salvou[..i]) + (if salvou[i] && IsAprovado(regs[i].notaFinal, regs[i].frequenciaPercentual) then 1 else 0)
    ensures ContarReprovados(regs[..i + 1], salvou[..i + 1]) ==
              ContarReprovados(regs[..i], salvou[..i]) + (if salvou[i] && !IsAprovado(regs[i].notaFinal, regs[i].frequenciaPercentual) then 1 else 0)
    ensures ContarErros(salvou[..i + 1]) == ContarErros(salvou[..i]) + (if salvou[i] then 0 else 1)
  {
    assert regs[..i + 1][..i] == regs[..i];
    assert salvou[..i + 1][..i] == salvou[..i];
  }

  /** The records before i hold their computed result and the others are as they were. */
  ghost predicate CalculadosAte(matriculas: seq<MatriculaDisciplina>, antes: seq<Registro>, i: nat, hoje: LocalDate)
    reads set m | m in matriculas
    requires |antes| == |matriculas| && i <= |matriculas|
  {
    (forall j :: 0 <= j < i ==> matriculas[j].State() == ResultadoFinal(antes[j], hoje))
    && (forall j :: i <= j < |matriculas| ==> matriculas[j].State() == antes[j])
  }

  /** One turn of the loop: record i gets its result, and whether it passes is read from the
      record afterwards, as isAprovado does. */
  method CalcularUm(matriculas: seq<MatriculaDisciplina>, ghost antes: seq<Registro>, i: nat, hoje: LocalDate)
    returns (aprovado: bool)
    requires |antes| == |matriculas| && i < |matriculas|
    requires forall j, k :: 0 <= j < k < |matriculas| ==> matriculas[j] != matriculas[k]
    requires CalculadosAte(matriculas, antes, i, hoje)
    modifies matriculas[i]
    ensures CalculadosAte(matriculas, antes, i + 1, hoje)
    ensures aprovado == IsAprovado(antes[i].notaFinal, antes[i].frequenciaPercentual)
  {
    var m := matriculas[i];
    var _ := m.CalcularResultadoFinal(hoje);
    assert forall j :: 0 <= j < |matriculas| && j != i ==> matriculas[j] != m;
    aprovado := IsAprovado(m.notaFinal, m.frequenciaPercentual);
  }

  /** calcularResultadosOferta over the enrolments awaiting a result: every record's result is
      computed, and salvou[i] says whether saving record i succeeded.  A saved record counts as
      processed and then as passed or failed; a failed save counts as an error. */
  method CalcularResultadosOferta(matriculas: seq<MatriculaDisciplina>, salvou: seq<bool>, hoje: LocalDate)
    returns (processadas: nat, aprovados: nat, reprovados: nat, erros: nat)
    requires |salvou| == |matriculas|
    requires forall i, j :: 0 <= i < j < |matriculas| ==> matriculas[i] != matriculas[j]
    modifies set m | m in matriculas
    ensures processadas == aprovados + reprovados
    ensures processadas + erros == |matriculas|
    ensures aprovados == ContarAprovados(old(Estados(matriculas)), salvou)
    ensures reprovados == ContarReprovados(old(Estados(matriculas)), salvou)
    ensures erros == ContarErros(salvou)
    ensures forall i :: 0 <= i < |matriculas| ==> matriculas[i].State() == ResultadoFinal(old(matriculas[i].State()), hoje)
  {
    ghost var antes := Estados(matriculas);
    processadas, aprovados, reprovados, erros := 0, 0, 0, 0;
    var i := 0;
    while i < |matriculas|
      invariant 0 <= i <= |matriculas|
      invariant CalculadosAte(matriculas, antes, i, hoje)
      invariant processadas == aprovados + reprovados
      invariant processadas + erros == i
      invariant aprovados == ContarAprovados(antes[..i], salvou[..i])
      invariant reprovados == ContarReprovados(antes[..i], salvou[..i])
      invariant erros == ContarErros(salvou[..i])
    {
      var aprovado := CalcularUm(matriculas, antes, i, hoje);
      ContarPasso(antes, salvou, i);
      if salvou[i] {
        processadas := processadas + 1;
        if aprovado {
          aprovados := aprovados + 1;
        } else {
          reprovados := reprovados + 1;
        }
      } else {
        erros := erros + 1;
      }
      i := i + 1;
    }
    assert antes[..i] == antes;
    assert salvou[..i] == salvou;
  }

  // ---------------------------------------------------------------- deletion

  /** deletar: not in a concluded offering and only while MATRICULADO; the enrolment's seat is
      released (an enrolment that passed the second check is active). */
  method Deletar(m: MatriculaDisciplina) returns (r: Result<(), Erro>)
    modifies m.ofertaDisciplina
    ensures r == Err(OfertaConcluida) <==> old(m.ofertaDisciplina.status) == SO.Concluida
    ensures r == Err(SituacaoNaoPermiteExclusao) <==>
              old(m.ofertaDisciplina.status) != SO.Concluida && m.situacao != SM.Matriculado
    ensures r.Ok? <==>
              old(m.ofertaDisciplina.status) != SO.Concluida && m.situacao == SM.Matriculado
              && old(m.ofertaDisciplina.vagasOcupadas).Some? && old(m.ofertaDisciplina.vagasOcupadas).value > 0
    ensures r == Err(SemVagasOcupadas) <==>
              old(m.ofertaDisciplina.status) != SO.Concluida && m.situacao == SM.Matriculado
              && !(old(m.ofertaDisciplina.vagasOcupadas).Some? && old(m.ofertaDisciplina.vagasOcupadas).value > 0)
    ensures r.Ok? ==> old(m.ofertaDisciplina.vagasOcupadas).Some? && old(m.ofertaDisciplina.vagasOcupadas).value > 0
    ensures r.Ok? ==>
              m.ofertaDisciplina.State() == old(m.ofertaDisciplina.State()).(vagasOcupadas := Some(old(m.ofertaDisciplina.vagasOcupadas).value - 1))
    ensures r.Ok? ==> m.ofertaDisciplina.vagasOcupadas.value >= 0
    ensures r.Err? ==> m.ofertaDisciplina.State() == old(m.ofertaDisciplina.State())
  {
    if m.ofertaDisciplina.status == SO.Concluida {
      return Err(OfertaConcluida);
    }
    if m.situacao != SM.Matriculado {
      return Err(SituacaoNaoPermiteExclusao);
    }
    var d := m.ofertaDisciplina.DecrementarVagasOcupadas();
    if d.Err? {
      return Err(SemVagasOcupadas);
    }
    return Ok(());
  }
}
