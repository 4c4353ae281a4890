/** The status of one student's enrolment in one offering (enum StatusMatricula). */
module StatusMatricula {
  import opened Wrappers
  import opened JavaText

  datatype StatusMatricula = Matriculado | Trancado | Aprovado | Reprovado | Desistente | Cancelado

  /** The constants in declaration order, the order fromString scans them in. */
  const Values: seq<StatusMatricula> := [Matriculado, Trancado, Aprovado, Reprovado, Desistente, Cancelado]

  function Name(s: StatusMatricula): string {
    match s
    case Matriculado => "MATRICULADO"
    case Trancado => "TRANCADO"
    case Aprovado => "APROVADO"
    case Reprovado => "REPROVADO"
    case Desistente => "DESISTENTE"
    case Cancelado => "CANCELADO"
  }

  /** The persisted value, which is also what toString returns. */
  function Valor(s: StatusMatricula): string {
    match s
    case Matriculado => "Matriculado"
    case Trancado => "Trancado"
    case Aprovado => "Aprovado"
    case Reprovado => "Reprovado"
    case Desistente => "Desistente"
    case Cancelado => "Cancelado"
  }

  predicate IsFinal(s: StatusMatricula) {
    s == Aprovado || s == Reprovado || s == Trancado || s == Desistente || s == Cancelado
  }

  predicate IsAtivo(s: StatusMatricula) {
    s == Matriculado
  }

  predicate PodeTrancar(s: StatusMatricula) {
    s == Matriculado
  }

  predicate IsAprovado(s: StatusMatricula) {
    s == Aprovado
  }

  /** Exactly one of active and final applies; only an active enrolment can be suspended,
      and an approved one is final. */
  lemma AtivoXorFinal(s: StatusMatricula)
    ensures IsAtivo(s) != IsFinal(s)
    ensures PodeTrancar(s) <==> IsAtivo(s)
    ensures IsAprovado(s) ==> IsFinal(s)
  {
  }

  /** The fromString test: the text names s by its value or its constant name, ignoring case. */
  predicate Designates(s: StatusMatricula, valor: string) {
    EqualsIgnoreCase(Valor(s), valor) || EqualsIgnoreCase(Name(s), valor)
  }

  function FirstDesignated(candidates: seq<StatusMatricula>, valor: string): (r: Option<StatusMatricula>)
    ensures r.Some? ==> r.value in candidates && Designates(r.value, valor)
    ensures r.None? ==> forall s :: s in candidates ==> !Designates(s, valor)
  {
    if candidates == [] then None
    else if Designates(candidates[0], valor) then Some(candidates[0])
    else FirstDesignated(candidates[1..], valor)
  }

  datatype ParseError = NullStatus | UnknownStatus

  /** fromString: null is rejected; otherwise the first status the text designates, or
      IllegalArgumentException when there is none (blank text included). */
  function FromString(valor: Option<string>): (r: Result<StatusMatricula, ParseError>)
    ensures valor.None? <==> r == Err(NullStatus)
    ensures r.Ok? ==> Designates(r.value, valor.value)
    ensures r == Err(UnknownStatus) <==> valor.Some? && forall s :: !Designates(s, valor.value)
  {
    if valor.None? then Err(NullStatus)
    else match FirstDesignated(Values, valor.value)
      case Some(s) => Ok(s)
      case None => Err(UnknownStatus)
  }

  /** The signature both spellings of a status share; no two statuses share one. */
  function Chave(s: StatusMatricula): (nat, char, char) {
    match s
    case Matriculado => (11, 'm', 'a')
    case Trancado => (8, 't', 'r')
    case Aprovado => (8, 'a', 'p')
    case Reprovado => (9, 'r', 'e')
    case Desistente => (10, 'd', 'e')
    case Cancelado => (9, 'c', 'a')
  }

  lemma ChaveCorreta(s: StatusMatricula)
    ensures Assinatura(Valor(s)) == Chave(s) && Assinatura(Name(s)) == Chave(s)
  {
  }

  /** No spelling of one status designates another. */
  lemma Unambiguous(t: StatusMatricula, s: StatusMatricula)
    requires t != s
    ensures !Designates(t, Valor(s)) && !Designates(t, Name(s))
  {
    ChaveCorreta(t);
    ChaveCorreta(s);
    AssinaturasDistintas(Valor(t), Valor(s));
    AssinaturasDistintas(Valor(t), Name(s));
    AssinaturasDistintas(Name(t), Valor(s));
    AssinaturasDistintas(Name(t), Name(s));
  }


  /** A text that designates exactly one status parses to it. */
  lemma FromStringUnique(s: StatusMatricula, valor: string)
    requires Designates(s, valor)
    requires forall t :: t != s ==> !Designates(t, valor)
    ensures FromString(Some(valor)) == Ok(s)
  {
    assert s in Values;
  }

  /** Parsing a status's value or its constant name gives that status back. */
  lemma FromStringRoundTrip(s: StatusMatricula)
    ensures FromString(Some(Valor(s))) == Ok(s)
    ensures FromString(Some(Name(s))) == Ok(s)
  {
    EqualsIgnoreCaseReflexive(Valor(s));
    EqualsIgnoreCaseReflexive(Name(s));
    forall t | t != s ensures !Designates(t, Valor(s)) && !Designates(t, Name(s)) {
      Unambiguous(t, s);
    }
    FromStringUnique(s, Valor(s));
    FromStringUnique(s, Name(s));
  }
}
