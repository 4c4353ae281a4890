/**
 * The choice of composition rules by board type (BancaValidatorFactory): the first of the
 * registered validators whose supported types include the requested one.
 */
module BancaValidatorFactory {
  import opened Wrappers
  import MB = MembroBanca
  import CB = ComposicaoBanca
  import BE = BancaEntity
  import D = DefesaComposicaoValidator
  import Q = QualificacaoComposicaoValidator

  /** The validator implementations the application registers. */
  datatype Validador = Defesa | Qualificacao

  function TiposSuportados(v: Validador): seq<BE.TipoBanca> {
    match v
    case Defesa => D.TiposSuportados()
    case Qualificacao => Q.TiposSuportados()
  }

  /** validarComposicao, dispatched to the implementation. */
  function Validar(v: Validador, membros: seq<MB.Fields>): Result<(), CB.Violacao> {
    match v
    case Defesa => D.ValidarComposicao(membros)
    case Qualificacao => Q.ValidarComposicao(membros)
  }

  datatype ErroFactory = NenhumValidador(tipo: BE.TipoBanca)

  /** getValidator: the first validator in the list supporting the type, or the
      IllegalArgumentException naming the type when none does. */
  function GetValidator(validadores: seq<Validador>, tipo: BE.TipoBanca): (r: Result<Validador, ErroFactory>)
    ensures r.Ok? <==> exists i :: 0 <= i < |validadores| && tipo in TiposSuportados(validadores[i])
    ensures r.Err? ==> r.error == NenhumValidador(tipo)
    ensures r.Ok? ==> exists i :: 0 <= i < |validadores| && validadores[i] == r.value
                                  && tipo in TiposSuportados(r.value)
                                  && forall j :: 0 <= j < i ==> tipo !in TiposSuportados(validadores[j])
  {
    if validadores == [] then Err(NenhumValidador(tipo))
    else if tipo in TiposSuportados(validadores[0]) then Ok(validadores[0])
    else
      var r := GetValidator(validadores[1..], tipo);
      assert forall i :: 1 <= i < |validadores| ==> validadores[i] == validadores[1..][i - 1];
      if r.Ok? then
        ghost var k :| 0 <= k < |validadores[1..]| && validadores[1..][k] == r.value
                       && tipo in TiposSuportados(r.value)
                       && forall j :: 0 <= j < k ==> tipo !in TiposSuportados(validadores[1..][j]);
        assert validadores[k + 1] == r.value;
        r
      else r
  }

  /** No type is supported by both validators, so with both registered, in either order, the defence
      types go to the defence rules, the qualification types to the qualification rules, and the
      proficiency exam to the error. */
  lemma Dispatch(validadores: seq<Validador>, tipo: BE.TipoBanca)
    requires Defesa in validadores && Qualificacao in validadores
    ensures tipo in {BE.DefesaMestrado, BE.DefesaDoutorado, BE.DefesaDoutoradoDireto} ==>
              GetValidator(validadores, tipo) == Ok(Defesa)
    ensures tipo in {BE.QualificacaoMestrado, BE.QualificacaoDoutorado} ==>
              GetValidator(validadores, tipo) == Ok(Qualificacao)
    ensures tipo == BE.ExameProficiencia ==> GetValidator(validadores, tipo) == Err(NenhumValidador(tipo))
  {
    var r := GetValidator(validadores, tipo);
    if r.Ok? {
      assert r.value.Defesa? || r.value.Qualificacao?;
    } else {
      var i :| 0 <= i < |validadores| && validadores[i] == Defesa;
      var j :| 0 <= j < |validadores| && validadores[j] == Qualificacao;
      assert tipo !in TiposSuportados(validadores[i]) && tipo !in TiposSuportados(validadores[j]);
    }
  }
}
