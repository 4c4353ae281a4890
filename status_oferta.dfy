/** The lifecycle status of a course offering (enum StatusOferta). */
module StatusOferta {
  import opened Wrappers
  import opened JavaText

  datatype StatusOferta = Planejada | Aberta | Fechada | EmCurso | Concluida | Cancelada

  /** The constants in declaration order, the order fromString scans them in. */
  const Values: seq<StatusOferta> := [Planejada, Aberta, Fechada, EmCurso, Concluida, Cancelada]

  function Name(s: StatusOferta): string {
    match s
    case Planejada => "PLANEJADA"
    case Aberta => "ABERTA"
    case Fechada => "FECHADA"
    case EmCurso => "EM_CURSO"
    case Concluida => "CONCLUIDA"
    case Cancelada => "CANCELADA"
  }

  /** The persisted value, which is also what toString returns. */
  function Valor(s: StatusOferta): string {
    match s
    case Planejada => "Planejada"
    case Aberta => "Aberta"
    case Fechada => "Fechada"
    case EmCurso => "Em_Curso"
    case Concluida => "Conclu\U{ED}da"
    case Cancelada => "Cancelada"
  }

  predicate IsInscricoesAbertas(s: StatusOferta) {
    s == Aberta
  }

  predicate PodeCancelar(s: StatusOferta) {
    s != Concluida && s != Cancelada
  }

  predicate PermiteLancarNotas(s: StatusOferta) {
    s == EmCurso || s == Concluida
  }

  predicate IsAtiva(s: StatusOferta) {
    s == Aberta || s == EmCurso || s == Fechada
  }

  /** Open enrolment is an active state, an active offering can still be cancelled, and marks
      can be posted only once the offering has started. */
  lemma PredicatesNest(s: StatusOferta)
    ensures IsInscricoesAbertas(s) ==> IsAtiva(s)
    ensures IsAtiva(s) ==> PodeCancelar(s)
    ensures PermiteLancarNotas(s) ==> !IsInscricoesAbertas(s) && s != Planejada && s != Cancelada
    ensures !PodeCancelar(s) <==> (s == Concluida || s == Cancelada)
  {
  }

  /** The fromString test: the text names s by its value or its constant name, ignoring case. */
  predicate Designates(s: StatusOferta, valor: string) {
    EqualsIgnoreCase(Valor(s), valor) || EqualsIgnoreCase(Name(s), valor)
  }

  function FirstDesignated(candidates: seq<StatusOferta>, valor: string): (r: Option<StatusOferta>)
    ensures r.Some? ==> r.value in candidates && Designates(r.value, valor)
    ensures r.None? ==> forall s :: s in candidates ==> !Designates(s, valor)
  {
    if candidates == [] then None
    else if Designates(candidates[0], valor) then Some(candidates[0])
    else FirstDesignated(candidates[1..], valor)
  }

  datatype ParseError = NullStatus | UnknownStatus

  /** fromString: null is rejected; otherwise the first status the text designates, or
      IllegalArgumentException when there is none (blank text included). */
  function FromString(valor: Option<string>): (r: Result<StatusOferta, ParseError>)
    ensures valor.None? <==> r == Err(NullStatus)
    ensures r.Ok? ==> Designates(r.value, valor.value)
    ensures r == Err(UnknownStatus) <==> valor.Some? && forall s :: !Designates(s, valor.value)
  {
    if valor.None? then Err(NullStatus)
    else match FirstDesignated(Values, valor.value)
      case Some(s) => Ok(s)
      case None => Err(UnknownStatus)
  }

  /** The signature both spellings of a status share; no two statuses share one. */
  function Chave(s: StatusOferta): (nat, char, char) {
    match s
    case Planejada => (9, 'p', 'l')
    case Aberta => (6, 'a', 'b')
    case Fechada => (7, 'f', 'e')
    case EmCurso => (8, 'e', 'm')
    case Concluida => (9, 'c', 'o')
    case Cancelada => (9, 'c', 'a')
  }

  lemma ChaveCorreta(s: StatusOferta)
    ensures Assinatura(Valor(s)) == Chave(s) && Assinatura(Name(s)) == Chave(s)
  {
  }

  /** No spelling of one status designates another. */
  lemma Unambiguous(t: StatusOferta, s: StatusOferta)
    requires t != s
    ensures !Designates(t, Valor(s)) && !Designates(t, Name(s))
  {
    ChaveCorreta(t);
    ChaveCorreta(s);
    AssinaturasDistintas(Valor(t), Valor(s));
    AssinaturasDistintas(Valor(t), Name(s));
    AssinaturasDistintas(Name(t), Valor(s));
    AssinaturasDistintas(Name(t), Name(s));
  }


  /** A text that designates exactly one status parses to it. */
  lemma FromStringUnique(s: StatusOferta, valor: string)
    requires Designates(s, valor)
    requires forall t :: t != s ==> !Designates(t, valor)
    ensures FromString(Some(valor)) == Ok(s)
  {
    assert s in Values;
  }

  /** Parsing a status's value or its constant name gives that status back. */
  lemma FromStringRoundTrip(s: StatusOferta)
    ensures FromString(Some(Valor(s))) == Ok(s)
    ensures FromString(Some(Name(s))) == Ok(s)
  {
    EqualsIgnoreCaseReflexive(Valor(s));
    EqualsIgnoreCaseReflexive(Name(s));
    forall t | t != s ensures !Designates(t, Valor(s)) && !Designates(t, Name(s)) {
      Unambiguous(t, s);
    }
    FromStringUnique(s, Valor(s));
    FromStringUnique(s, Name(s));
  }
}
