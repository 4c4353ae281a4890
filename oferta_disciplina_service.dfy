/**
 * The offering service (OfertaDisciplinaService): creation and update guards and the status
 * transitions PLANEJADA → ABERTA ⇄ FECHADA → EM_CURSO → CONCLUIDA, with ABERTA → EM_CURSO as well
 * and CANCELADA reachable from every state but CONCLUIDA and CANCELADA, which none of the five
 * transition operations leaves.
 * The update operation is not bound by these transitions: it copies any status the request
 * carries (AtualizarSaltaTransicoes).  Each operation works on an offering the caller has already
 * loaded; what the repositories would answer (duplicates, pending results, enrolment counts, the
 * course's minimum) comes in as parameters.
 */
module OfertaDisciplinaService {
  import opened Wrappers
  import opened JavaNum
  import opened JavaText
  import opened JavaTime
  import SO = StatusOferta
  import opened OfertaDisciplina

  datatype Erro =
    | OfertaDuplicada          // DuplicateResourceException
    | DisciplinaInativa
    | DocenteInativo
    | DocenteDeOutroPrograma
    | ColaboradorInativo
    | DatasInvalidas
    | OfertaJaConcluida
    | VagasAbaixoDasOcupadas
    | TransicaoInvalida
    | MinimoAlunosNaoAtingido
    | MatriculasSemResultado
    | OfertaComMatriculas
    | ValorNulo                // NullPointerException from unboxing or dereferencing a missing value

  /** The status transitions the service's own operations perform (abrirInscricoes, fecharInscricoes,
      iniciar, concluir, cancelar). */
  predicate Transicao(de: SO.StatusOferta, para: SO.StatusOferta) {
    (para == SO.Aberta && (de == SO.Planejada || de == SO.Fechada))
    || (para == SO.Fechada && de == SO.Aberta)
    || (para == SO.EmCurso && (de == SO.Fechada || de == SO.Aberta))
    || (para == SO.Concluida && de == SO.EmCurso)
    || (para == SO.Cancelada && PodeCancelar(de))
  }

  /** Under the five transition operations CONCLUIDA and CANCELADA are final: none leaves them; every other state can still be
      cancelled, and a course is concluded only after running. */
  lemma TransicaoShape(de: SO.StatusOferta, para: SO.StatusOferta)
    ensures (de == SO.Concluida || de == SO.Cancelada) ==> !Transicao(de, para)
    ensures de != SO.Concluida && de != SO.Cancelada ==> Transicao(de, SO.Cancelada)
    ensures Transicao(de, SO.Concluida) <==> de == SO.EmCurso
    ensures Transicao(de, para) ==> de != para
  {
  }

  /** The data of a creation request that the rules look at.  The dates are required (@NotNull)
      in the request. */
  datatype NovaOferta = NovaOferta(
    vagasOferecidas: Option<Int32>,
    dataInicio: LocalDate,
    dataFim: LocalDate,
    observacoes: Option<string>)

  /** criar: the duplicate check, then course active, responsible lecturer active and of the
      course's programme, optional co-lecturer active, and the end after the start; the first failing
      check is reported.  A new offering starts PLANEJADA with no seat taken. */
  method Criar(dto: NovaOferta, duplicada: bool, disciplinaAtiva: bool, docenteAtivo: bool,
               mesmoPrograma: bool, colaboradorAtivo: Option<bool>)
    returns (r: Result<OfertaDisciplina, Erro>)
    ensures r == Err(OfertaDuplicada) <==> duplicada
    ensures r == Err(DisciplinaInativa) <==> !duplicada && !disciplinaAtiva
    ensures r == Err(DocenteInativo) <==> !duplicada && disciplinaAtiva && !docenteAtivo
    ensures r == Err(DocenteDeOutroPrograma) <==> !duplicada && disciplinaAtiva && docenteAtivo && !mesmoPrograma
    ensures r == Err(ColaboradorInativo) <==>
              !duplicada && disciplinaAtiva && docenteAtivo && mesmoPrograma && colaboradorAtivo == Some(false)
    ensures r.Ok? <==>
              !duplicada && disciplinaAtiva && docenteAtivo && mesmoPrograma && colaboradorAtivo != Some(false)
              && IsAfter(dto.dataFim, dto.dataInicio)
    ensures r == Err(DatasInvalidas) <==>
              !duplicada && disciplinaAtiva && docenteAtivo && mesmoPrograma && colaboradorAtivo != Some(false)
              && !IsAfter(dto.dataFim, dto.dataInicio)
    ensures r.Ok? ==> fresh(r.value)
    ensures r.Ok? ==>
              r.value.State() == Fields(dto.vagasOferecidas, Some(0), SO.Planejada, Some(dto.dataInicio), Some(dto.dataFim), dto.observacoes)
    ensures r.Ok? ==> ValidarDatas(r.value.dataInicio, r.value.dataFim)
  {
    if duplicada {
      return Err(OfertaDuplicada);
    }
    if !disciplinaAtiva {
      return Err(DisciplinaInativa);
    }
    if !docenteAtivo {
      return Err(DocenteInativo);
    }
    if !mesmoPrograma {
      return Err(DocenteDeOutroPrograma);
    }
    if colaboradorAtivo == Some(false) {
      return Err(ColaboradorInativo);
    }
    if !IsAfter(dto.dataFim, dto.dataInicio) {
      return Err(DatasInvalidas);
    }
    var oferta := new OfertaDisciplina(dto.vagasOferecidas, Some(dto.dataInicio), Some(dto.dataFim), dto.observacoes);
    return Ok(oferta);
  }

  /** A lecturer named in an update request: whether it is active and of the course's programme. */
  datatype DocenteInformado = DocenteInformado(ativo: bool, mesmoPrograma: bool)

  /** An update request: every field left null keeps its current value. */
  datatype Alteracao = Alteracao(
    responsavel: Option<DocenteInformado>,
    colaboradorAtivo: Option<bool>,
    dataInicio: Option<LocalDate>,
    dataFim: Option<LocalDate>,
    vagasOferecidas: Option<Int32>,
    status: Option<SO.StatusOferta>,
    observacoes: Option<string>)

  function Merge<T>(novo: Option<T>, atual: Option<T>): (r: Option<T>)
    ensures novo.Some? ==> r == novo
    ensures novo.None? ==> r == atual
  {
    if novo.Some? then novo else atual
  }

  /** What updateEntity writes over the current fields. */
  function Aplicar(o: Fields, dto: Alteracao): Fields {
    o.(dataInicio := Merge(dto.dataInicio, o.dataInicio),
       dataFim := Merge(dto.dataFim, o.dataFim),
       vagasOferecidas := Merge(dto.vagasOferecidas, o.vagasOferecidas),
       status := Merge(dto.status, Some(o.status)).value,
       observacoes := Merge(dto.observacoes, o.observacoes))
  }

  /** The lecturers named in an update request pass: a new responsible lecturer is active and of
      the course's programme, and a new co-lecturer is active. */
  predicate DocentesAceitos(dto: Alteracao) {
    (dto.responsavel.Some? ==> dto.responsavel.value.ativo && dto.responsavel.value.mesmoPrograma)
    && dto.colaboradorAtivo != Some(false)
  }

  /** The dates an update leaves are both present and the end lies after the start. */
  predicate DatasAceitas(o: Fields, dto: Alteracao) {
    Merge(dto.dataInicio, o.dataInicio).Some? && Merge(dto.dataFim, o.dataFim).Some?
    && IsAfter(Merge(dto.dataFim, o.dataFim).value, Merge(dto.dataInicio, o.dataInicio).value)
  }

  /** A new seat count, when the request has one, is not below the occupied seats. */
  predicate VagasAceitas(o: Fields, dto: Alteracao) {
    dto.vagasOferecidas.Some? ==> o.vagasOcupadas.Some? && o.vagasOcupadas.value <= dto.vagasOferecidas.value
  }

  /** atualizar: rejected on a concluded offering, for an inactive or foreign lecturer, when the
      merged dates are missing or out of order, and when the new seat count is below the occupied
      one; otherwise the request's non-null fields replace the current ones. */
  method Atualizar(oferta: OfertaDisciplina, dto: Alteracao) returns (r: Result<(), Erro>)
    modifies oferta
    ensures r.Ok? <==>
              old(oferta.status) != SO.Concluida && DocentesAceitos(dto)
              && DatasAceitas(old(oferta.State()), dto) && VagasAceitas(old(oferta.State()), dto)
    ensures r == Err(OfertaJaConcluida) <==> old(oferta.status) == SO.Concluida
    ensures r == Err(DocenteInativo) <==>
              old(oferta.status) != SO.Concluida && dto.responsavel.Some? && !dto.responsavel.value.ativo
    ensures r == Err(DocenteDeOutroPrograma) <==>
              old(oferta.status) != SO.Concluida && dto.responsavel.Some? && dto.responsavel.value.ativo
              && !dto.responsavel.value.mesmoPrograma
    ensures r == Err(ColaboradorInativo) <==>
              old(oferta.status) != SO.Concluida
              && (dto.responsavel.Some? ==> dto.responsavel.value.ativo && dto.responsavel.value.mesmoPrograma)
              && dto.colaboradorAtivo == Some(false)
    ensures r == Err(DatasInvalidas) <==>
              old(oferta.status) != SO.Concluida && DocentesAceitos(dto)
              && Merge(dto.dataInicio, old(oferta.dataInicio)).Some? && Merge(dto.dataFim, old(oferta.dataFim)).Some?
              && !DatasAceitas(old(oferta.State()), dto)
    ensures r == Err(VagasAbaixoDasOcupadas) <==>
              old(oferta.status) != SO.Concluida && DocentesAceitos(dto) && DatasAceitas(old(oferta.State()), dto)
              && dto.vagasOferecidas.Some? && old(oferta.vagasOcupadas).Some?
              && dto.vagasOferecidas.value < old(oferta.vagasOcupadas).value
    ensures r.Ok? ==> ValidarDatas(oferta.dataInicio, oferta.dataFim)
    ensures r.Ok? && dto.vagasOferecidas.Some? ==>
              old(oferta.vagasOcupadas).Some? && old(oferta.vagasOcupadas).value <= dto.vagasOferecidas.value
    ensures r.Ok? ==> oferta.State() == Aplicar(old(oferta.State()), dto)
    ensures r.Err? ==> oferta.State() == old(oferta.State())
  {
    if oferta.status == SO.Concluida {
      return Err(OfertaJaConcluida);
    }
    if dto.responsavel.Some? {
      if !dto.responsavel.value.ativo {
        return Err(DocenteInativo);
      }
      if !dto.responsavel.value.mesmoPrograma {
        return Err(DocenteDeOutroPrograma);
      }
    }
    if dto.colaboradorAtivo == Some(false) {
      return Err(ColaboradorInativo);
    }
    var inicio := Merge(dto.dataInicio, oferta.dataInicio);
    var fim := Merge(dto.dataFim, oferta.dataFim);
    if inicio.None? || fim.None? {
      return Err(ValorNulo);
    }
    if !IsAfter(fim.value, inicio.value) {
      return Err(DatasInvalidas);
    }
    if dto.vagasOferecidas.Some? {
      if oferta.vagasOcupadas.None? {
        return Err(ValorNulo);
      }
      if dto.vagasOferecidas.value < oferta.vagasOcupadas.value {
        return Err(VagasAbaixoDasOcupadas);
      }
    }
    oferta.dataInicio := inicio;
    oferta.dataFim := fim;
    oferta.vagasOferecidas := Merge(dto.vagasOferecidas, oferta.vagasOferecidas);
    oferta.status := Merge(dto.status, Some(oferta.status)).value;
    oferta.observacoes := Merge(dto.observacoes, oferta.observacoes);
    return Ok(());
  }

  /** atualizar is not bound by the transitions: a request carrying only a status passes every
      guard on an offering that is not concluded and has valid dates, and its status is stored as
      it is, so a CANCELADA offering can be reopened and a PLANEJADA one concluded at once. */
  lemma AtualizarSaltaTransicoes(o: Fields, s: SO.StatusOferta)
    requires o.status != SO.Concluida
    requires o.dataInicio.Some? && o.dataFim.Some? && IsAfter(o.dataFim.value, o.dataInicio.value)
    ensures var dto := Alteracao(None, None, None, None, None, Some(s), None);
            DocentesAceitos(dto) && DatasAceitas(o, dto) && VagasAceitas(o, dto)
            && Aplicar(o, dto) == o.(status := s)
    ensures o.status == SO.Cancelada && s == SO.Aberta ==> !Transicao(o.status, s)
    ensures o.status == SO.Planejada && s == SO.Concluida ==> !Transicao(o.status, s)
  {
  }

  /** atualizar keeps the seat invariant: an offering with 0 <= ocupadas <= oferecidas still has it
      after a successful update. */
  lemma AtualizarKeepsSeats(o: Fields, dto: Alteracao)
    requires o.vagasOcupadas.Some? && o.vagasOferecidas.Some?
    requires 0 <= o.vagasOcupadas.value <= o.vagasOferecidas.value
    requires dto.vagasOferecidas.Some? ==> o.vagasOcupadas.value <= dto.vagasOferecidas.value
    ensures Aplicar(o, dto).vagasOcupadas == o.vagasOcupadas
    ensures 0 <= Aplicar(o, dto).vagasOcupadas.value <= Aplicar(o, dto).vagasOferecidas.value
  {
  }

  /** abrirInscricoes: from PLANEJADA or FECHADA to ABERTA. */
  method AbrirInscricoes(oferta: OfertaDisciplina) returns (r: Result<(), Erro>)
    modifies oferta
    ensures r.Ok? <==> old(oferta.status) == SO.Planejada || old(oferta.status) == SO.Fechada
    ensures r.Ok? ==> oferta.State() == old(oferta.State()).(status := SO.Aberta)
    ensures r.Ok? ==> Transicao(old(oferta.status), oferta.status)
    ensures r.Err? ==> r.error == TransicaoInvalida && oferta.State() == old(oferta.State())
  {
    if oferta.status != SO.Planejada && oferta.status != SO.Fechada {
      return Err(TransicaoInvalida);
    }
    oferta.status := SO.Aberta;
    return Ok(());
  }

  /** fecharInscricoes: from ABERTA to FECHADA. */
  method FecharInscricoes(oferta: OfertaDisciplina) returns (r: Result<(), Erro>)
    modifies oferta
    ensures r.Ok? <==> old(oferta.status) == SO.Aberta
    ensures r.Ok? ==> oferta.State() == old(oferta.State()).(status := SO.Fechada)
    ensures r.Ok? ==> Transicao(old(oferta.status), oferta.status)
    ensures r.Err? ==> r.error == TransicaoInvalida && oferta.State() == old(oferta.State())
  {
    if oferta.status != SO.Aberta {
      return Err(TransicaoInvalida);
    }
    oferta.status := SO.Fechada;
    return Ok(());
  }

  /** iniciar: from FECHADA or ABERTA to EM_CURSO, once the course's minimum number of students
      (when it has one) is enrolled. */
  method Iniciar(oferta: OfertaDisciplina, minimoAlunos: Option<Int32>) returns (r: Result<(), Erro>)
    modifies oferta
    ensures r.Ok? <==>
              (old(oferta.status) == SO.Fechada || old(oferta.status) == SO.Aberta)
              && (minimoAlunos.Some? ==> old(oferta.vagasOcupadas).Some? && old(oferta.vagasOcupadas).value >= minimoAlunos.value)
    ensures r == Err(MinimoAlunosNaoAtingido) ==>
              minimoAlunos.Some? && old(oferta.vagasOcupadas).Some? && old(oferta.vagasOcupadas).value < minimoAlunos.value
    ensures r.Ok? ==> oferta.State() == old(oferta.State()).(status := SO.EmCurso)
    ensures r.Ok? ==> Transicao(old(oferta.status), oferta.status)
    ensures r.Err? ==> oferta.State() == old(oferta.State())
  {
    if oferta.status != SO.Fechada && oferta.status != SO.Aberta {
      return Err(TransicaoInvalida);
    }
    if minimoAlunos.Some? {
      if oferta.vagasOcupadas.None? {
        return Err(ValorNulo);
      }
      if oferta.vagasOcupadas.value < minimoAlunos.value {
        return Err(MinimoAlunosNaoAtingido);
      }
    }
    oferta.status := SO.EmCurso;
    return Ok(());
  }

  /** concluir: from EM_CURSO to CONCLUIDA, only when no enrolment is still waiting for its result
      (pendentes is the size of that list). */
  method Concluir(oferta: OfertaDisciplina, pendentes: nat) returns (r: Result<(), Erro>)
    modifies oferta
    ensures r.Ok? <==> old(oferta.status) == SO.EmCurso && pendentes == 0
    ensures old(oferta.status) == SO.EmCurso && pendentes > 0 ==> r == Err(MatriculasSemResultado)
    ensures r.Ok? ==> oferta.State() == old(oferta.State()).(status := SO.Concluida)
    ensures r.Ok? ==> Transicao(old(oferta.status), oferta.status)
    ensures r.Err? ==> oferta.State() == old(oferta.State())
  {
    if oferta.status != SO.EmCurso {
      return Err(TransicaoInvalida);
    }
    if pendentes > 0 {
      return Err(MatriculasSemResultado);
    }
    oferta.status := SO.Concluida;
    return Ok(());
  }

  /** The notes after a cancellation: a non-blank reason is appended as "CANCELAMENTO: motivo",
      on a new line after any earlier notes; otherwise the notes are kept. */
  function ObservacoesComCancelamento(observacoes: Option<string>, motivo: Option<string>): (r: Option<string>)
    ensures motivo.None? || IsBlank(motivo.value) ==> r == observacoes
    ensures motivo.Some? && !IsBlank(motivo.value) ==>
              r.Some? && |r.value| >= |"CANCELAMENTO: " + motivo.value|
              && r.value[|r.value| - |"CANCELAMENTO: " + motivo.value|..] == "CANCELAMENTO: " + motivo.value
    ensures motivo.Some? && !IsBlank(motivo.value) && observacoes.Some? ==>
              |r.value| > |observacoes.value| && r.value[..|observacoes.value| + 1] == observacoes.value + "\n"
    ensures motivo.Some? && !IsBlank(motivo.value) && observacoes.None? ==>
              r == Some("CANCELAMENTO: " + motivo.value)
  {
    if motivo.None? || IsBlank(motivo.value) then observacoes
    else Some((if observacoes.Some? then observacoes.value + "\n" else "") + "CANCELAMENTO: " + motivo.value)
  }

  /** cancelar: any state but CONCLUIDA and CANCELADA goes to CANCELADA, recording the reason. */
  method Cancelar(oferta: OfertaDisciplina, motivo: Option<string>) returns (r: Result<(), Erro>)
    modifies oferta
    ensures r.Ok? <==> old(PodeCancelar(oferta.status))
    ensures r.Ok? ==>
              oferta.State() == old(oferta.State()).(status := SO.Cancelada, observacoes := ObservacoesComCancelamento(old(oferta.observacoes), motivo))
    ensures r.Ok? ==> Transicao(old(oferta.status), oferta.status)
    ensures r.Err? ==> r.error == TransicaoInvalida && oferta.State() == old(oferta.State())
  {
    if !PodeCancelar(oferta.status) {
      return Err(TransicaoInvalida);
    }
    oferta.status := SO.Cancelada;
    if motivo.Some? && !IsBlank(motivo.value) {
      oferta.observacoes := Some((if oferta.observacoes.Some? then oferta.observacoes.value + "\n" else "")
                                 + "CANCELAMENTO: " + motivo.value);
    }
    return Ok(());
  }

  /** deletar: an offering with enrolments on record (matriculas is their count) cannot be deleted. */
  function Deletar(matriculas: nat): (r: Result<(), Erro>)
    ensures r.Ok? <==> matriculas == 0
    ensures r.Err? ==> r.error == OfertaComMatriculas
  {
    if matriculas > 0 then Err(OfertaComMatriculas) else Ok(())
  }
}
