/**
 * A lecturer of a programme (entity Docente) as the supervision rules see it: whether the lecturer
 * may supervise, the supervision counts and the research-productivity grant.
 */
module Docente {
  import opened Wrappers
  import opened JavaNum
  import opened JavaTime

  /** A lecturer status, through the two questions the entity asks of it. */
  datatype StatusDocente = StatusDocente(vinculado: bool, podeOrientar: bool)

  datatype Fields = Fields(
    status: Option<StatusDocente>,
    orientacoesMestradoAndamento: Option<Int32>,
    orientacoesDoutoradoAndamento: Option<Int32>,
    orientacoesMestradoConcluidas: Option<Int32>,
    orientacoesDoutoradoConcluidas: Option<Int32>,
    bolsistaProdutividade: Option<bool>,
    vigenciaBolsaFim: Option<LocalDate>)

  /** The number of simultaneous supervisions at which a lecturer is full. */
  const LimiteOrientacoes: int := 8

  /** isAtivo: a status that keeps the lecturer linked to the programme. */
  predicate IsAtivo(d: Fields) {
    d.status.Some? && d.status.value.vinculado
  }

  predicate PodeOrientar(d: Fields) {
    IsAtivo(d) && d.status.value.podeOrientar
  }

  predicate PodeCoorientar(d: Fields) {
    IsAtivo(d)
  }

  /** Supervising and co-supervising both need an active lecturer, and a supervisor can co-supervise. */
  lemma OrientarRequerAtivo(d: Fields)
    ensures PodeOrientar(d) ==> IsAtivo(d) && PodeCoorientar(d)
    ensures d.status.None? ==> !PodeOrientar(d) && !PodeCoorientar(d)
  {
  }

  /** A null counter read as 0. */
  function Valor(c: Option<Int32>): Int32 {
    if c.None? then 0 else c.value
  }

  /** getTotalOrientacoesAndamento: master's plus doctoral supervisions under way, in int arithmetic. */
  function TotalOrientacoesAndamento(d: Fields): (r: Int32)
    ensures MinInt <= Valor(d.orientacoesMestradoAndamento) + Valor(d.orientacoesDoutoradoAndamento) <= MaxInt
            ==> r == Valor(d.orientacoesMestradoAndamento) + Valor(d.orientacoesDoutoradoAndamento)
    ensures d.orientacoesMestradoAndamento.None? ==> r == Valor(d.orientacoesDoutoradoAndamento)
    ensures d.orientacoesDoutoradoAndamento.None? ==> r == Valor(d.orientacoesMestradoAndamento)
  {
    Add(Valor(d.orientacoesMestradoAndamento), Valor(d.orientacoesDoutoradoAndamento))
  }

  /** getTotalOrientacoesConcluidas: the same sum over the concluded supervisions. */
  function TotalOrientacoesConcluidas(d: Fields): (r: Int32)
    ensures MinInt <= Valor(d.orientacoesMestradoConcluidas) + Valor(d.orientacoesDoutoradoConcluidas) <= MaxInt
            ==> r == Valor(d.orientacoesMestradoConcluidas) + Valor(d.orientacoesDoutoradoConcluidas)
    ensures d.orientacoesMestradoConcluidas.None? ==> r == Valor(d.orientacoesDoutoradoConcluidas)
    ensures d.orientacoesDoutoradoConcluidas.None? ==> r == Valor(d.orientacoesMestradoConcluidas)
  {
    Add(Valor(d.orientacoesMestradoConcluidas), Valor(d.orientacoesDoutoradoConcluidas))
  }

  /** atingiuLimiteOrientacoes: the supervisions under way reach the limit. */
  predicate AtingiuLimiteOrientacoes(d: Fields) {
    TotalOrientacoesAndamento(d) >= LimiteOrientacoes
  }

  /** With non-negative counts (so no overflow past 2^31 - 1 together), the limit is reached exactly
      when the two counts add up to 8 or more, and taking one more supervision never lifts it. */
  lemma {:induction false} LimiteMonotone(d: Fields)
    requires 0 <= Valor(d.orientacoesMestradoAndamento) && 0 <= Valor(d.orientacoesDoutoradoAndamento)
    requires Valor(d.orientacoesMestradoAndamento) + Valor(d.orientacoesDoutoradoAndamento) < MaxInt
    ensures AtingiuLimiteOrientacoes(d) <==>
              Valor(d.orientacoesMestradoAndamento) + Valor(d.orientacoesDoutoradoAndamento) >= LimiteOrientacoes
    ensures AtingiuLimiteOrientacoes(d) ==>
              AtingiuLimiteOrientacoes(d.(orientacoesMestradoAndamento := Some(Increment(Valor(d.orientacoesMestradoAndamento)))))
  {
    var m := Valor(d.orientacoesMestradoAndamento);
    var dm := d.(orientacoesMestradoAndamento := Some(Increment(m)));
    assert Valor(dm.orientacoesMestradoAndamento) == m + 1;
    assert Valor(dm.orientacoesDoutoradoAndamento) == Valor(d.orientacoesDoutoradoAndamento);
  }

  /** The limit is not reached when both counts are below 4, as long as neither is negative. */
  lemma AbaixoDoLimite(d: Fields)
    requires 0 <= Valor(d.orientacoesMestradoAndamento) < 4 && 0 <= Valor(d.orientacoesDoutoradoAndamento) < 4
    ensures !AtingiuLimiteOrientacoes(d)
  {
  }

  /** temBolsaProdutividadeVigente at hoje: a grant holder whose grant has no end or ends today or later. */
  predicate TemBolsaProdutividadeVigente(d: Fields, hoje: LocalDate) {
    d.bolsistaProdutividade == Some(true)
    && (d.vigenciaBolsaFim.None? || IsAfter(d.vigenciaBolsaFim.value, hoje) || d.vigenciaBolsaFim.value == hoje)
  }

  /** A grant valid today was valid on every earlier day. */
  lemma BolsaVigenteAntes(d: Fields, antes: LocalDate, hoje: LocalDate)
    requires !IsAfter(antes, hoje) && TemBolsaProdutividadeVigente(d, hoje)
    ensures TemBolsaProdutividadeVigente(d, antes)
  {
    if d.vigenciaBolsaFim.Some? {
      BeforeIsStrictTotal(antes, hoje);
      BeforeIsStrictTotal(d.vigenciaBolsaFim.value, hoje);
      BeforeIsStrictTotal(d.vigenciaBolsaFim.value, antes);
    }
  }
}
