/**
 * A member of an examining board (entity MembroBancaEntity): either an internal lecturer or an
 * external professor, sitting as a full member (titular) or a substitute, with an invitation whose
 * status the member answers.  Lecturers and external professors are identified by their ids.
 */
module MembroBanca {
  import opened Wrappers
  import opened JavaText
  import opened JavaTime

  datatype TipoMembro = Titular | Suplente
  datatype Funcao = Presidente | MembroInterno | MembroExterno | Orientador | Coorientador
  datatype StatusConvite = Pendente | Enviado | Confirmado | Recusado | Cancelado

  /** The member's fields as one value; every reference and enum field of the entity may be null. */
  datatype Fields = Fields(
    docente: Option<nat>,
    professorExterno: Option<nat>,
    tipoMembro: Option<TipoMembro>,
    funcao: Option<Funcao>,
    statusConvite: Option<StatusConvite>,
    dataConvite: Option<Instant>,
    dataResposta: Option<Instant>,
    observacoes: Option<string>)

  /** isExterno: an external professor, or a lecturer sitting as external member. */
  predicate IsExterno(m: Fields) {
    m.professorExterno.Some? || m.funcao == Some(MembroExterno)
  }

  predicate IsInterno(m: Fields) {
    !IsExterno(m)
  }

  predicate IsTitular(m: Fields) {
    m.tipoMembro == Some(Titular)
  }

  predicate IsSuplente(m: Fields) {
    m.tipoMembro == Some(Suplente)
  }

  predicate IsConfirmado(m: Fields) {
    m.statusConvite == Some(Confirmado)
  }

  predicate IsRecusado(m: Fields) {
    m.statusConvite == Some(Recusado)
  }

  /** Every member is internal or external and not both; no member is both full member and
      substitute (a member with no type is neither); an answer is a confirmation or a refusal. */
  lemma Classification(m: Fields)
    ensures IsInterno(m) != IsExterno(m)
    ensures !(IsTitular(m) && IsSuplente(m))
    ensures m.tipoMembro.Some? <==> IsTitular(m) || IsSuplente(m)
    ensures !(IsConfirmado(m) && IsRecusado(m))
  {
    if m.tipoMembro.Some? {
      match m.tipoMembro.value {
        case Titular => assert IsTitular(m);
        case Suplente => assert IsSuplente(m);
      }
    }
  }

  /** The notes after a refusal: a non-blank reason is appended as "Motivo da recusa: motivo" on a
      new line after any earlier notes; otherwise the notes are kept. */
  function ObservacoesComRecusa(observacoes: Option<string>, motivo: Option<string>): (r: Option<string>)
    ensures motivo.None? || IsBlank(motivo.value) ==> r == observacoes
    ensures motivo.Some? && !IsBlank(motivo.value) ==>
              r.Some? && |r.value| >= |"Motivo da recusa: " + motivo.value|
              && r.value[|r.value| - |"Motivo da recusa: " + motivo.value|..] == "Motivo da recusa: " + motivo.value
    ensures motivo.Some? && !IsBlank(motivo.value) && observacoes.Some? ==>
              |r.value| > |observacoes.value| && r.value[..|observacoes.value| + 1] == observacoes.value + "\n"
    ensures motivo.Some? && !IsBlank(motivo.value) && observacoes.None? ==>
              r == Some("Motivo da recusa: " + motivo.value)
  {
    if motivo.None? || IsBlank(motivo.value) then observacoes
    else Some((if observacoes.Some? then observacoes.value + "\n" else "") + "Motivo da recusa: " + motivo.value)
  }

  datatype ErroMembro = SemDocenteNemExterno | DocenteEExterno

  /** What validate leaves behind, or the IllegalStateException it throws: exactly one of lecturer
      and external professor must be set; a missing invitation status becomes PENDENTE; an answered
      invitation gets a response time and a sent one an invitation time when they lack one. */
  function Validado(m: Fields, agora: Instant): (r: Result<Fields, ErroMembro>)
    ensures r.Ok? <==> m.docente.Some? != m.professorExterno.Some?
    ensures r.Err? ==> r.error == (if m.docente.None? then SemDocenteNemExterno else DocenteEExterno)
    ensures r.Ok? ==> r.value.statusConvite == (if m.statusConvite.None? then Some(Pendente) else m.statusConvite)
    ensures r.Ok? && (IsConfirmado(r.value) || IsRecusado(r.value)) ==> r.value.dataResposta.Some?
    ensures r.Ok? && r.value.statusConvite == Some(Enviado) ==> r.value.dataConvite.Some?
    ensures r.Ok? && m.dataResposta.Some? ==> r.value.dataResposta == m.dataResposta
    ensures r.Ok? && m.dataConvite.Some? ==> r.value.dataConvite == m.dataConvite
    ensures r.Ok? ==>
              r.value.(statusConvite := m.statusConvite, dataConvite := m.dataConvite, dataResposta := m.dataResposta) == m
  {
    if m.docente.None? && m.professorExterno.None? then Err(SemDocenteNemExterno)
    else if m.docente.Some? && m.professorExterno.Some? then Err(DocenteEExterno)
    else
      var status := if m.statusConvite.None? then Pendente else m.statusConvite.value;
      var resposta := if (status == Confirmado || status == Recusado) && m.dataResposta.None? then Some(agora)
                      else m.dataResposta;
      var convite := if status == Enviado && m.dataConvite.None? then Some(agora) else m.dataConvite;
      Ok(m.(statusConvite := Some(status), dataResposta := resposta, dataConvite := convite))
  }

  /** validate is idempotent: a validated member passes again unchanged, at any later time. */
  lemma ValidadoIdempotent(m: Fields, agora: Instant, depois: Instant)
    requires Validado(m, agora).Ok?
    ensures Validado(Validado(m, agora).value, depois) == Validado(m, agora)
  {
  }

  class MembroBancaEntity {
    /** The board this member belongs to (the back-reference that addMembro sets). */
    var banca: object?
    var docente: Option<nat>
    var professorExterno: Option<nat>
    var tipoMembro: Option<TipoMembro>
    var funcao: Option<Funcao>
    var statusConvite: Option<StatusConvite>
    var dataConvite: Option<Instant>
    var dataResposta: Option<Instant>
    var observacoes: Option<string>

    function State(): Fields
      reads this
    {
      Fields(docente, professorExterno, tipoMembro, funcao, statusConvite, dataConvite, dataResposta, observacoes)
    }

    /** A member as `new` leaves it: no board yet, invitation PENDENTE, no dates or notes. */
    constructor (docente: Option<nat>, professorExterno: Option<nat>, tipoMembro: Option<TipoMembro>,
                 funcao: Option<Funcao>)
      ensures banca == null
      ensures State() == Fields(docente, professorExterno, tipoMembro, funcao, Some(Pendente), None, None, None)
    {
      this.banca := null;
      this.docente := docente;
      this.professorExterno := professorExterno;
      this.tipoMembro := tipoMembro;
      this.funcao := funcao;
      this.statusConvite := Some(Pendente);
      this.dataConvite := None;
      this.dataResposta := None;
      this.observacoes := None;
    }

    /** confirmarParticipacao: the invitation is CONFIRMADO, answered now. */
    method ConfirmarParticipacao(agora: Instant)
      modifies this
      ensures banca == old(banca)
      ensures State() == old(State()).(statusConvite := Some(Confirmado), dataResposta := Some(agora))
      ensures IsConfirmado(State())
    {
      statusConvite := Some(Confirmado);
      dataResposta := Some(agora);
    }

    /** recusarParticipacao: the invitation is RECUSADO, answered now, and a non-blank reason is
        added to the notes. */
    method RecusarParticipacao(motivo: Option<string>, agora: Instant)
      modifies this
      ensures banca == old(banca)
      ensures State() == old(State()).(statusConvite := Some(Recusado), dataResposta := Some(agora),
                                       observacoes := ObservacoesComRecusa(old(observacoes), motivo))
      ensures IsRecusado(State())
    {
      statusConvite := Some(Recusado);
      dataResposta := Some(agora);
      if motivo.Some? && !IsBlank(motivo.value) {
        observacoes := Some((if observacoes.Some? then observacoes.value + "\n" else "") + "Motivo da recusa: " + motivo.value);
      }
    }

    /** validate (@PrePersist/@PreUpdate): the checks and defaults of Validado, applied in place. */
    method Validate(agora: Instant) returns (r: Result<(), ErroMembro>)
      modifies this
      ensures banca == old(banca)
      ensures r.Ok? <==> old(Validado(State(), agora)).Ok?
      ensures r.Ok? ==> State() == old(Validado(State(), agora)).value
      ensures r.Err? ==> r.error == old(Validado(State(), agora)).error && State() == old(State())
    {
      var temDocente := docente.Some?;
      var temProfessorExterno := professorExterno.Some?;
      if !temDocente && !temProfessorExterno {
        return Err(SemDocenteNemExterno);
      }
      if temDocente && temProfessorExterno {
        return Err(DocenteEExterno);
      }
      if statusConvite.None? {
        statusConvite := Some(Pendente);
      }
      if (statusConvite == Some(Confirmado) || statusConvite == Some(Recusado)) && dataResposta.None? {
        dataResposta := Some(agora);
      }
      if statusConvite == Some(Enviado) && dataConvite.None? {
        dataConvite := Some(agora);
      }
      return Ok(());
    }
  }
}
