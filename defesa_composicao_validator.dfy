/**
 * The composition rules for defence boards (DefesaComposicaoValidator): the qualification rules
 * plus one or two external full members.
 */
module DefesaComposicaoValidator {
  import opened Wrappers
  import MB = MembroBanca
  import opened ComposicaoBanca
  import BE = BancaEntity
  import Q = QualificacaoComposicaoValidator

  const MinTitulares: nat := 3
  const MaxTitulares: nat := 5
  const MinExternos: nat := 1
  const MaxExternos: nat := 2

  /** validarNumeroTitulares, with the same bounds as for qualification boards. */
  function ValidarNumeroTitulares(membros: seq<MB.Fields>): (r: Result<(), Violacao>)
    ensures r.Ok? <==> MinTitulares <= NumeroTitulares(membros) <= MaxTitulares
    ensures r == Q.ValidarNumeroTitulares(membros)
  {
    var n := NumeroTitulares(membros);
    if n < MinTitulares then Err(TitularesAbaixoDoMinimo(n))
    else if n > MaxTitulares then Err(TitularesAcimaDoMaximo(n))
    else Ok(())
  }

  /** validarPresidente, as for qualification boards. */
  function ValidarPresidente(membros: seq<MB.Fields>): (r: Result<(), Violacao>)
    ensures r.Ok? <==> |Presidentes(membros)| == 1
    ensures r == Q.ValidarPresidente(membros)
  {
    if !TemPresidente(membros) then Err(SemPresidente)
    else if !TemExatamenteUmPresidente(membros) then Err(MaisDeUmPresidente(|Presidentes(membros)|))
    else Ok(())
  }

  /** validarMembrosExternos: one or two external full members, reporting a shortage before a
      surplus. */
  function ValidarMembrosExternos(membros: seq<MB.Fields>): (r: Result<(), Violacao>)
    ensures r.Ok? <==> MinExternos <= NumeroTitularesExternos(membros) <= MaxExternos
    ensures NumeroTitularesExternos(membros) == 0 ==>
              r == Err(ExternosAbaixoDoMinimo(0, NumeroTitulares(membros)))
    ensures NumeroTitularesExternos(membros) > MaxExternos ==>
              r == Err(ExternosAcimaDoMaximo(NumeroTitularesExternos(membros), NumeroTitulares(membros)))
  {
    var e := NumeroTitularesExternos(membros);
    if e < MinExternos then Err(ExternosAbaixoDoMinimo(e, NumeroTitulares(membros)))
    else if e > MaxExternos then Err(ExternosAcimaDoMaximo(e, NumeroTitulares(membros)))
    else Ok(())
  }

  /** validarComposicao: members, then president, then external members; the first violation wins. */
  function ValidarComposicao(membros: seq<MB.Fields>): (r: Result<(), Violacao>)
    ensures r.Ok? <==> MinTitulares <= NumeroTitulares(membros) <= MaxTitulares && |Presidentes(membros)| == 1
                       && MinExternos <= NumeroTitularesExternos(membros) <= MaxExternos
    ensures ValidarNumeroTitulares(membros).Err? ==> r == ValidarNumeroTitulares(membros)
    ensures ValidarNumeroTitulares(membros).Ok? && ValidarPresidente(membros).Err? ==> r == ValidarPresidente(membros)
    ensures ValidarNumeroTitulares(membros).Ok? && ValidarPresidente(membros).Ok? ==> r == ValidarMembrosExternos(membros)
  {
    var t := ValidarNumeroTitulares(membros);
    if t.Err? then t
    else
      var p := ValidarPresidente(membros);
      if p.Err? then p else ValidarMembrosExternos(membros)
  }

  function TiposSuportados(): seq<BE.TipoBanca> {
    [BE.DefesaMestrado, BE.DefesaDoutorado, BE.DefesaDoutoradoDireto]
  }

  /** Every board the defence rules accept, the qualification rules accept too; the converse fails
      only on the external-member rule. */
  lemma DefesaImpliesQualificacao(membros: seq<MB.Fields>)
    ensures ValidarComposicao(membros).Ok? ==> Q.ValidarComposicao(membros).Ok?
    ensures Q.ValidarComposicao(membros).Ok? && ValidarComposicao(membros).Err? ==>
              ValidarComposicao(membros) == ValidarMembrosExternos(membros)
  {
  }

  /** Three internal full members and no external one are refused by the external-member rule. */
  lemma SemExternosRejeitada()
    ensures ValidarComposicao([MembroTitular(true, MB.Presidente), MembroTitular(true, MB.MembroInterno),
                               MembroTitular(true, MB.MembroInterno)]) == Err(ExternosAbaixoDoMinimo(0, 3))
  {
    var p, i := MembroTitular(true, MB.Presidente), MembroTitular(true, MB.MembroInterno);
    var ms := [p, i, i];
    FilterTodos(ms, MB.IsTitular);
    assert ms == [p] + [i, i];
    FilterCons(p, [i, i], IsPresidente);
    FilterNenhum([i, i], IsPresidente);
    FilterNenhum(ms, MB.IsExterno);
  }

  /** One internal and three external full members are refused by the two-external maximum. */
  lemma TresExternosRejeitada()
    ensures ValidarComposicao([MembroTitular(true, MB.Presidente), MembroTitular(false, MB.MembroExterno),
                               MembroTitular(false, MB.MembroExterno), MembroTitular(false, MB.MembroExterno)])
            == Err(ExternosAcimaDoMaximo(3, 4))
  {
    var p, e := MembroTitular(true, MB.Presidente), MembroTitular(false, MB.MembroExterno);
    var ms := [p, e, e, e];
    FilterTodos(ms, MB.IsTitular);
    assert ms == [p] + [e, e, e];
    FilterCons(p, [e, e, e], IsPresidente);
    FilterNenhum([e, e, e], IsPresidente);
    FilterCons(p, [e, e, e], MB.IsExterno);
    FilterTodos([e, e, e], MB.IsExterno);
  }

  /** Two internal members and one external one, one of them presiding, form a valid defence board. */
  lemma DoisInternosUmExternoAceita()
    ensures ValidarComposicao([MembroTitular(true, MB.Presidente), MembroTitular(true, MB.MembroInterno),
                               MembroTitular(false, MB.MembroExterno)]).Ok?
  {
    var p, i, e := MembroTitular(true, MB.Presidente), MembroTitular(true, MB.MembroInterno),
                   MembroTitular(false, MB.MembroExterno);
    var ms := [p, i, e];
    FilterTodos(ms, MB.IsTitular);
    assert ms == [p] + [i, e] && ms == [p, i] + [e];
    FilterCons(p, [i, e], IsPresidente);
    FilterNenhum([i, e], IsPresidente);
    FilterConcat([p, i], [e], MB.IsExterno);
    FilterNenhum([p, i], MB.IsExterno);
    FilterTodos([e], MB.IsExterno);
  }
}
