/**
 * A course of a programme (entity Disciplina): its workload in hours, its credits (15 hours to a
 * credit), its kind and its status.  The programme is identified by its id.
 */
module Disciplina {
  import opened Wrappers
  import opened JavaNum

  datatype StatusDisciplina = Ativa | Inativa | Suspensa | Cancelada

  datatype TipoDisciplina = Obrigatoria | Eletiva | TopicosEspeciais

  datatype Fields = Fields(
    programa: Option<nat>,
    codigo: Option<string>,
    nome: Option<string>,
    cargaHorariaTotal: Option<Int32>,
    cargaHorariaTeorica: Option<Int32>,
    cargaHorariaPratica: Option<Int32>,
    creditos: Option<Int32>,
    tipo: Option<TipoDisciplina>,
    status: Option<StatusDisciplina>)

  /** Hours of workload per credit. */
  const HorasPorCredito: int := 15

  predicate IsAtiva(d: Fields) {
    d.status == Some(Ativa)
  }

  /** podeSerOferecida: only an active course may be offered. */
  predicate PodeSerOferecida(d: Fields) {
    IsAtiva(d)
  }

  predicate IsObrigatoria(d: Fields) {
    d.tipo == Some(Obrigatoria)
  }

  predicate IsEletiva(d: Fields) {
    d.tipo == Some(Eletiva)
  }

  /** A course is never both mandatory and elective, can be offered exactly while ATIVA, and a
      course without a kind is neither. */
  lemma Classificacao(d: Fields)
    ensures !(IsObrigatoria(d) && IsEletiva(d))
    ensures d.tipo.None? ==> !IsObrigatoria(d) && !IsEletiva(d)
    ensures PodeSerOferecida(d) <==> d.status == Some(Ativa)
  {
  }

  /** The credits for a workload: hours / 15 in int division (truncating toward zero). */
  function CreditosPara(horas: Int32): (r: Int32)
    ensures horas >= 0 ==> r >= 0 && HorasPorCredito * r <= horas < HorasPorCredito * r + HorasPorCredito
    ensures horas < 0 ==> r <= 0
  {
    Quot(horas, HorasPorCredito)
  }

  /** calcularCreditos: 0 without a workload, else one credit per full 15 hours. */
  function CalcularCreditos(d: Fields): (r: Int32)
    ensures d.cargaHorariaTotal.None? ==> r == 0
    ensures d.cargaHorariaTotal.Some? ==> r == CreditosPara(d.cargaHorariaTotal.value)
  {
    if d.cargaHorariaTotal.None? || d.cargaHorariaTotal.value == 0 then 0
    else CreditosPara(d.cargaHorariaTotal.value)
  }

  /** Whole numbers of credits convert back exactly: 15·c hours give c credits. */
  lemma CreditosExatos(c: Int32)
    requires 0 <= c && HorasPorCredito * c <= MaxInt
    ensures CreditosPara(HorasPorCredito * c) == c
  {
  }

  /** A null part of the workload read as 0. */
  function Horas(h: Option<Int32>): Int32 {
    if h.None? then 0 else h.value
  }

  /** Whether total = teórica + prática (nulls as 0, the sum in int arithmetic), with a null total
      failing: the rule shared by the entity and the service. */
  predicate CargaHorariaConsistente(total: Option<Int32>, teorica: Option<Int32>, pratica: Option<Int32>) {
    total.Some? && total.value == Add(Horas(teorica), Horas(pratica))
  }

  /** validarCargaHoraria on the entity. */
  function ValidarCargaHoraria(d: Fields): (r: bool)
    ensures r ==> d.cargaHorariaTotal.Some?
    ensures MinInt <= Horas(d.cargaHorariaTeorica) + Horas(d.cargaHorariaPratica) <= MaxInt ==>
              (r <==> d.cargaHorariaTotal == Some(Horas(d.cargaHorariaTeorica) + Horas(d.cargaHorariaPratica)))
  {
    CargaHorariaConsistente(d.cargaHorariaTotal, d.cargaHorariaTeorica, d.cargaHorariaPratica)
  }

  /** The state onCreate leaves: a null status becomes ATIVA; everything else is kept. */
  function Criada(d: Fields): (r: Fields)
    ensures r.(status := d.status) == d
    ensures r.status.Some? && (d.status.Some? ==> r == d)
  {
    if d.status.None? then d.(status := Some(Ativa)) else d
  }

  /** After onCreate a course always has a status, so a course persisted without one can be offered;
      a second onCreate changes nothing, and a course `new` built stays as it was. */
  lemma CriadaAtiva(d: Fields)
    ensures PodeSerOferecida(Criada(d)) <==> d.status.None? || d.status == Some(Ativa)
    ensures Criada(Criada(d)) == Criada(d)
    ensures var n := Fields(None, None, None, None, Some(0), Some(0), None, None, Some(Ativa));
            Criada(n) == n && PodeSerOferecida(n) && ValidarCargaHoraria(n) == false
  {
  }

  class Disciplina {
    var programa: Option<nat>
    var codigo: Option<string>
    var nome: Option<string>
    var cargaHorariaTotal: Option<Int32>
    var cargaHorariaTeorica: Option<Int32>
    var cargaHorariaPratica: Option<Int32>
    var creditos: Option<Int32>
    var tipo: Option<TipoDisciplina>
    var status: Option<StatusDisciplina>

    function State(): Fields
      reads this
    {
      Fields(programa, codigo, nome, cargaHorariaTotal, cargaHorariaTeorica, cargaHorariaPratica, creditos, tipo,
             status)
    }

    /** A course as Disciplina.builder() builds it: exactly the fields it is given.  The builder has
        no @Builder.Default, so a field it is not given stays null, initialisers notwithstanding. */
    constructor (f: Fields)
      ensures State() == f
    {
      programa := f.programa;
      codigo := f.codigo;
      nome := f.nome;
      cargaHorariaTotal := f.cargaHorariaTotal;
      cargaHorariaTeorica := f.cargaHorariaTeorica;
      cargaHorariaPratica := f.cargaHorariaPratica;
      creditos := f.creditos;
      tipo := f.tipo;
      status := f.status;
    }

    /** A course as `new` leaves it: the field initialisers give 0 theoretical and 0 practical hours
        and the status ATIVA; everything else is null. */
    constructor Novo()
      ensures State() == Fields(None, None, None, None, Some(0), Some(0), None, None, Some(Ativa))
    {
      programa := None;
      codigo := None;
      nome := None;
      cargaHorariaTotal := None;
      cargaHorariaTeorica := Some(0);
      cargaHorariaPratica := Some(0);
      creditos := None;
      tipo := None;
      status := Some(Ativa);
    }

    /** onCreate (@PrePersist), without its timestamps. */
    method OnCreate()
      modifies this
      ensures State() == Criada(old(State()))
    {
      if status.None? {
        status := Some(Ativa);
      }
    }

    /** setStatus. */
    method SetStatus(s: StatusDisciplina)
      modifies this
      ensures State() == old(State()).(status := Some(s))
    {
      status := Some(s);
    }
  }
}
