/**
 * The course service (DisciplinaService): the workload and credit checks applied on create and
 * update, activation and deactivation, copying a course to another programme, and deletion.
 * Repository facts (whether the target programme is active, whether it already has the code, the
 * stored courses, the course's offerings) are parameters.
 */
module DisciplinaService {
  import opened Wrappers
  import opened JavaNum
  import opened D = Disciplina

  datatype Erro =
    | CargaHorariaObrigatoria
    | CargaHorariaInconsistente
    | CreditosIncorretos(cargaHoraria: Int32, creditosCalculados: Int32)
    | JaAtiva
    | JaInativa
    | ProgramaDestinoInativo
    | CodigoDuplicado
    | ProgramaNulo
    | PossuiOfertas

  // ---------------------------------------------------------------- validation

  /** validarCargaHoraria: a total is required and must equal teórica + prática (nulls as 0). */
  function ValidarCargaHoraria(total: Option<Int32>, teorica: Option<Int32>, pratica: Option<Int32>)
    : (r: Result<(), Erro>)
    ensures r.Ok? <==> CargaHorariaConsistente(total, teorica, pratica)
    ensures r.Err? ==> r.error == (if total.None? then CargaHorariaObrigatoria else CargaHorariaInconsistente)
  {
    if total.None? then Err(CargaHorariaObrigatoria)
    else if total.value != Add(Horas(teorica), Horas(pratica)) then Err(CargaHorariaInconsistente)
    else Ok(())
  }

  /** The service and the entity agree on which workloads are consistent. */
  lemma CargaHorariaAgree(d: Fields)
    ensures ValidarCargaHoraria(d.cargaHorariaTotal, d.cargaHorariaTeorica, d.cargaHorariaPratica).Ok?
            == D.ValidarCargaHoraria(d)
  {
  }

  /** validarCreditos: nothing to check when either value is missing; otherwise the credits must be
      the workload's, and the error carries both numbers. */
  function ValidarCreditos(cargaHoraria: Option<Int32>, creditos: Option<Int32>): (r: Result<(), Erro>)
    ensures cargaHoraria.None? || creditos.None? ==> r.Ok?
    ensures cargaHoraria.Some? && creditos.Some? ==>
              (r.Ok? <==> creditos.value == CreditosPara(cargaHoraria.value))
    ensures r.Err? ==> r.error == CreditosIncorretos(cargaHoraria.value, CreditosPara(cargaHoraria.value))
  {
    if creditos.None? || cargaHoraria.None? then Ok(())
    else
      var creditosCalculados := CreditosPara(cargaHoraria.value);
      if creditos.value != creditosCalculados then Err(CreditosIncorretos(cargaHoraria.value, creditosCalculados))
      else Ok(())
  }

  /** A course whose stored credits pass the service check has exactly the credits the entity
      computes for it. */
  lemma CreditosAgree(d: Fields)
    requires d.cargaHorariaTotal.Some? && d.creditos.Some?
    ensures ValidarCreditos(d.cargaHorariaTotal, d.creditos).Ok? <==> d.creditos.value == CalcularCreditos(d)
  {
  }

  // ---------------------------------------------------------------- status

  /** ativar: a course not already ATIVA becomes ATIVA. */
  method Ativar(d: Disciplina) returns (r: Result<(), Erro>)
    modifies d
    ensures r.Ok? <==> old(d.status) != Some(Ativa)
    ensures r.Ok? ==> d.State() == old(d.State()).(status := Some(Ativa)) && PodeSerOferecida(d.State())
    ensures r.Err? ==> r.error == JaAtiva && d.State() == old(d.State())
  {
    if d.status == Some(Ativa) {
      return Err(JaAtiva);
    }
    d.SetStatus(Ativa);
    return Ok(());
  }

  /** desativar: a course not already INATIVA becomes INATIVA. */
  method Desativar(d: Disciplina) returns (r: Result<(), Erro>)
    modifies d
    ensures r.Ok? <==> old(d.status) != Some(Inativa)
    ensures r.Ok? ==> d.State() == old(d.State()).(status := Some(Inativa)) && !PodeSerOferecida(d.State())
    ensures r.Err? ==> r.error == JaInativa && d.State() == old(d.State())
  {
    if d.status == Some(Inativa) {
      return Err(JaInativa);
    }
    d.SetStatus(Inativa);
    return Ok(());
  }

  /** The course duplicar builds: the original's fields in the target programme, ATIVA. */
  function Copia(original: Fields, novoPrograma: nat): (r: Fields)
    ensures r.programa == Some(novoPrograma) && IsAtiva(r)
    ensures r.(programa := original.programa, status := original.status) == original
  {
    original.(programa := Some(novoPrograma), status := Some(Ativa))
  }

  /** duplicar: refused for an inactive target programme, then for a code the target already has;
      otherwise a new ATIVA course with the original's data, the original untouched. */
  method Duplicar(original: Disciplina, novoPrograma: nat, programaAtivo: bool, codigoExiste: bool)
    returns (r: Result<Disciplina, Erro>)
    ensures r.Ok? <==> programaAtivo && !codigoExiste
    ensures r.Err? ==> r.error == (if !programaAtivo then ProgramaDestinoInativo else CodigoDuplicado)
    ensures r.Ok? ==> fresh(r.value) && r.value.State() == Copia(original.State(), novoPrograma)
  {
    if !programaAtivo {
      return Err(ProgramaDestinoInativo);
    }
    if codigoExiste {
      return Err(CodigoDuplicado);
    }
    var nova := new D.Disciplina(original.State().(programa := Some(novoPrograma), status := Some(Ativa)));
    return Ok(nova);
  }

  /** The copy can be offered, keeps the workload and credits, and so passes the same checks. */
  lemma CopiaPreservaValidacao(original: Fields, novoPrograma: nat)
    ensures PodeSerOferecida(Copia(original, novoPrograma))
    ensures D.ValidarCargaHoraria(Copia(original, novoPrograma)) == D.ValidarCargaHoraria(original)
    ensures CalcularCreditos(Copia(original, novoPrograma)) == CalcularCreditos(original)
  {
  }

  // ---------------------------------------------------------------- deletar

  /** The number of stored courses in programme p (countByProgramaId). */
  function ContarPorPrograma(disciplinas: seq<Fields>, p: nat): (r: nat)
    ensures r <= |disciplinas|
  {
    if disciplinas == [] then 0
    else (if disciplinas[0].programa == Some(p) then 1 else 0) + ContarPorPrograma(disciplinas[1..], p)
  }

  /** A stored course counts towards its own programme. */
  lemma {:induction false} ContarInclui(disciplinas: seq<Fields>, d: Fields)
    requires d in disciplinas && d.programa.Some?
    ensures ContarPorPrograma(disciplinas, d.programa.value) >= 1
  {
    if disciplinas[0] != d {
      ContarInclui(disciplinas[1..], d);
    }
  }

  /** deletar as written: it refuses when the repository holds any course of the course's
      programme (a null programme throws). */
  function DeletarComoEscrito(d: Fields, disciplinas: seq<Fields>): (r: Result<(), Erro>)
    ensures d.programa.None? ==> r == Err(ProgramaNulo)
    ensures d.programa.Some? ==> (r.Ok? <==> ContarPorPrograma(disciplinas, d.programa.value) == 0)
  {
    if d.programa.None? then Err(ProgramaNulo)
    else if ContarPorPrograma(disciplinas, d.programa.value) > 0 then Err(PossuiOfertas)
    else Ok(())
  }

  /** As written, no stored course can ever be deleted: it always counts towards its own programme. */
  lemma DeletarComoEscritoSempreRecusa(d: Fields, disciplinas: seq<Fields>)
    requires d in disciplinas
    ensures DeletarComoEscrito(d, disciplinas).Err?
  {
    if d.programa.Some? {
      ContarInclui(disciplinas, d);
    }
  }

  /** deletar as its message intends: refused exactly when the course has offerings. */
  function Deletar(ofertasDaDisciplina: nat): (r: Result<(), Erro>)
    ensures r.Ok? <==> ofertasDaDisciplina == 0
    ensures r.Err? ==> r.error == PossuiOfertas
  {
    if ofertasDaDisciplina > 0 then Err(PossuiOfertas) else Ok(())
  }

  /** The intended rule deletes a stored course without offerings, which the written one refuses. */
  lemma DeletarCorrigidoAceita(d: Fields, disciplinas: seq<Fields>)
    requires d in disciplinas
    ensures Deletar(0).Ok? && DeletarComoEscrito(d, disciplinas).Err?
  {
    DeletarComoEscritoSempreRecusa(d, disciplinas);
  }
}
