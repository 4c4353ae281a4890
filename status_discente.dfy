/** The programme status of a student (enum StatusDiscente). */
module StatusDiscente {
  import opened Wrappers
  import opened JavaText

  datatype StatusDiscente = Matriculado | Cursando | Qualificado | Defendendo | Titulado | Desligado

  /** The constants in declaration order, the order fromString scans them in. */
  const Values: seq<StatusDiscente> := [Matriculado, Cursando, Qualificado, Defendendo, Titulado, Desligado]

  function Name(s: StatusDiscente): string {
    match s
    case Matriculado => "MATRICULADO"
    case Cursando => "CURSANDO"
    case Qualificado => "QUALIFICADO"
    case Defendendo => "DEFENDENDO"
    case Titulado => "TITULADO"
    case Desligado => "DESLIGADO"
  }

  function Descricao(s: StatusDiscente): string {
    match s
    case Matriculado => "Matriculado"
    case Cursando => "Cursando"
    case Qualificado => "Qualificado"
    case Defendendo => "Defendendo"
    case Titulado => "Titulado"
    case Desligado => "Desligado"
  }

  predicate IsAtivo(s: StatusDiscente) {
    s == Matriculado || s == Cursando || s == Qualificado || s == Defendendo
  }

  predicate PodeMatricularDisciplinas(s: StatusDiscente) {
    s == Matriculado || s == Cursando
  }

  predicate PodeDefender(s: StatusDiscente) {
    s == Qualificado || s == Defendendo
  }

  predicate IsFinal(s: StatusDiscente) {
    s == Titulado || s == Desligado
  }

  /** Every status is either active or final, never both. */
  lemma AtivoXorFinal(s: StatusDiscente)
    ensures IsAtivo(s) != IsFinal(s)
  {
  }

  /** The statuses that allow enrolling in courses or defending are active ones. */
  lemma CapabilitiesImplyAtivo(s: StatusDiscente)
    ensures PodeDefender(s) ==> IsAtivo(s)
    ensures PodeMatricularDisciplinas(s) ==> IsAtivo(s)
    ensures !(PodeDefender(s) && PodeMatricularDisciplinas(s))
  {
  }

  /** The fromString test: the text names s by its description or its constant name, ignoring case. */
  predicate Designates(s: StatusDiscente, valor: string) {
    EqualsIgnoreCase(Descricao(s), valor) || EqualsIgnoreCase(Name(s), valor)
  }

  function FirstDesignated(candidates: seq<StatusDiscente>, valor: string): (r: Option<StatusDiscente>)
    ensures r.Some? ==> r.value in candidates && Designates(r.value, valor)
    ensures r.None? ==> forall s :: s in candidates ==> !Designates(s, valor)
  {
    if candidates == [] then None
    else if Designates(candidates[0], valor) then Some(candidates[0])
    else FirstDesignated(candidates[1..], valor)
  }

  datatype ParseError = UnknownStatus

  /** fromString: null or blank text gives null; otherwise the first status the text designates,
      or IllegalArgumentException when there is none. */
  function FromString(valor: Option<string>): (r: Result<Option<StatusDiscente>, ParseError>)
    ensures valor.None? || IsBlank(valor.value) ==> r == Ok(None)
    ensures r.Ok? && r.value.Some? ==> valor.Some? && Designates(r.value.value, valor.value)
    ensures r.Err? <==> valor.Some? && !IsBlank(valor.value) && forall s :: !Designates(s, valor.value)
  {
    if valor.None? || IsBlank(valor.value) then Ok(None)
    else match FirstDesignated(Values, valor.value)
      case Some(s) => Ok(Some(s))
      case None => Err(UnknownStatus)
  }

  /** The signature both spellings of a status share; no two statuses share one. */
  function Chave(s: StatusDiscente): (nat, char, char) {
    match s
    case Matriculado => (11, 'm', 'a')
    case Cursando => (8, 'c', 'u')
    case Qualificado => (11, 'q', 'u')
    case Defendendo => (10, 'd', 'e')
    case Titulado => (8, 't', 'i')
    case Desligado => (9, 'd', 'e')
  }

  lemma ChaveCorreta(s: StatusDiscente)
    ensures Assinatura(Descricao(s)) == Chave(s) && Assinatura(Name(s)) == Chave(s)
  {
  }

  /** No spelling of one status designates another. */
  lemma Unambiguous(t: StatusDiscente, s: StatusDiscente)
    requires t != s
    ensures !Designates(t, Descricao(s)) && !Designates(t, Name(s))
  {
    ChaveCorreta(t);
    ChaveCorreta(s);
    AssinaturasDistintas(Descricao(t), Descricao(s));
    AssinaturasDistintas(Descricao(t), Name(s));
    AssinaturasDistintas(Name(t), Descricao(s));
    AssinaturasDistintas(Name(t), Name(s));
  }


  /** A non-blank text that designates exactly one status parses to it. */
  lemma FromStringUnique(s: StatusDiscente, valor: string)
    requires valor != [] && !IsWhitespace(valor[0])
    requires Designates(s, valor)
    requires forall t :: t != s ==> !Designates(t, valor)
    ensures FromString(Some(valor)) == Ok(Some(s))
  {
    NotBlank(valor, 0);
    assert s in Values;
  }

  /** Both spellings of a status start with a letter, so neither is blank. */
  lemma ComecaComLetra(s: StatusDiscente)
    ensures Descricao(s) != [] && !IsWhitespace(Descricao(s)[0])
    ensures Name(s) != [] && !IsWhitespace(Name(s)[0])
  {
  }

  /** Parsing a status's description or its constant name gives that status back. */
  lemma FromStringRoundTrip(s: StatusDiscente)
    ensures FromString(Some(Descricao(s))) == Ok(Some(s))
    ensures FromString(Some(Name(s))) == Ok(Some(s))
  {
    EqualsIgnoreCaseReflexive(Descricao(s));
    EqualsIgnoreCaseReflexive(Name(s));
    forall t | t != s ensures !Designates(t, Descricao(s)) && !Designates(t, Name(s)) {
      Unambiguous(t, s);
    }
    ComecaComLetra(s);
    FromStringUnique(s, Descricao(s));
    FromStringUnique(s, Name(s));
  }
}
