/**
 * The composition rules for qualification boards (QualificacaoComposicaoValidator): three to five
 * full members and exactly one president, with no rule on external members.
 */
module QualificacaoComposicaoValidator {
  import opened Wrappers
  import MB = MembroBanca
  import opened ComposicaoBanca
  import BE = BancaEntity

  const MinTitulares: nat := 3
  const MaxTitulares: nat := 5

  /** validarNumeroTitulares: the number of full members lies in [3, 5]. */
  function ValidarNumeroTitulares(membros: seq<MB.Fields>): (r: Result<(), Violacao>)
    ensures r.Ok? <==> MinTitulares <= NumeroTitulares(membros) <= MaxTitulares
    ensures NumeroTitulares(membros) < MinTitulares ==> r == Err(TitularesAbaixoDoMinimo(NumeroTitulares(membros)))
    ensures NumeroTitulares(membros) > MaxTitulares ==> r == Err(TitularesAcimaDoMaximo(NumeroTitulares(membros)))
  {
    var n := NumeroTitulares(membros);
    if n < MinTitulares then Err(TitularesAbaixoDoMinimo(n))
    else if n > MaxTitulares then Err(TitularesAcimaDoMaximo(n))
    else Ok(())
  }

  /** validarPresidente: exactly one president, reporting a missing one before a surplus. */
  function ValidarPresidente(membros: seq<MB.Fields>): (r: Result<(), Violacao>)
    ensures r.Ok? <==> |Presidentes(membros)| == 1
    ensures |Presidentes(membros)| == 0 ==> r == Err(SemPresidente)
    ensures |Presidentes(membros)| > 1 ==> r == Err(MaisDeUmPresidente(|Presidentes(membros)|))
  {
    if !TemPresidente(membros) then Err(SemPresidente)
    else if !TemExatamenteUmPresidente(membros) then Err(MaisDeUmPresidente(|Presidentes(membros)|))
    else Ok(())
  }

  /** validarComposicao: the member count first, then the president; the first violation wins. */
  function ValidarComposicao(membros: seq<MB.Fields>): (r: Result<(), Violacao>)
    ensures r.Ok? <==> MinTitulares <= NumeroTitulares(membros) <= MaxTitulares && |Presidentes(membros)| == 1
    ensures ValidarNumeroTitulares(membros).Err? ==> r == ValidarNumeroTitulares(membros)
    ensures ValidarNumeroTitulares(membros).Ok? ==> r == ValidarPresidente(membros)
  {
    var t := ValidarNumeroTitulares(membros);
    if t.Err? then t else ValidarPresidente(membros)
  }

  function TiposSuportados(): seq<BE.TipoBanca> {
    [BE.QualificacaoMestrado, BE.QualificacaoDoutorado]
  }

  /** Unlike a defence board, a qualification board of internal members only is accepted. */
  lemma SoInternosAceita()
    ensures ValidarComposicao([MembroTitular(true, MB.Presidente), MembroTitular(true, MB.MembroInterno),
                               MembroTitular(true, MB.MembroInterno)]).Ok?
  {
    var p, i := MembroTitular(true, MB.Presidente), MembroTitular(true, MB.MembroInterno);
    var ms := [p, i, i];
    FilterTodos(ms, MB.IsTitular);
    assert ms == [p] + [i, i];
    FilterCons(p, [i, i], IsPresidente);
    FilterNenhum([i, i], IsPresidente);
  }

  /** Two presidents are refused, with the count of presidents. */
  lemma DoisPresidentesRejeitada()
    ensures ValidarComposicao([MembroTitular(true, MB.Presidente), MembroTitular(true, MB.Presidente),
                               MembroTitular(true, MB.MembroInterno)]) == Err(MaisDeUmPresidente(2))
  {
    var p, i := MembroTitular(true, MB.Presidente), MembroTitular(true, MB.MembroInterno);
    var ms := [p, p, i];
    FilterTodos(ms, MB.IsTitular);
    assert ms == [p] + [p, i] && [p, i] == [p] + [i];
    FilterCons(p, [p, i], IsPresidente);
    FilterCons(p, [i], IsPresidente);
    FilterNenhum([i], IsPresidente);
    assert Presidentes(ms) == [p, p];
  }
}
