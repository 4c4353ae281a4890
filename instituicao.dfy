/**
 * An institution (entity Instituicao) as its persistence callbacks and helper getters see it: the
 * defaults filled in before the first insert, the code kept in upper case, the address formatted
 * from its jsonb map and the main contact picked from its contacts map.
 */
module Instituicao {
  import opened Wrappers
  import opened JavaText

  /** A value of a jsonb map: a string, JSON null, or any other JSON value kept as its toString text. */
  datatype Valor = Texto(s: string) | Nulo | Outro(texto: string)

  type Json = map<string, Valor>

  /** String.valueOf, which is what StringBuilder.append(Object) appends: null appends "null". */
  function ValueOf(v: Valor): (r: string)
    ensures v.Texto? ==> r == v.s
    ensures v.Nulo? ==> r == "null"
  {
    match v
    case Texto(s) => s
    case Nulo => "null"
    case Outro(t) => t
  }

  datatype Fields = Fields(
    codigo: Option<string>,
    endereco: Option<Json>,
    contatos: Option<Json>,
    ativo: Option<bool>,
    configuracoes: Option<Json>)

  /** A code in upper-case normal form. */
  predicate EmMaiusculas(c: string) {
    ToUpper(c) == c
  }

  // ---------------------------------------------------------------- onCreate / onUpdate

  /** The code as the callbacks leave it: upper-cased, null kept null.  A code without a sharp s keeps
      its length and still equals the old one ignoring case; one with a sharp s grows ("STRASSE" for
      "straße") and no longer does. */
  function CodigoNormalizado(codigo: Option<string>): (r: Option<string>)
    ensures r.Some? <==> codigo.Some?
    ensures r.Some? ==> EmMaiusculas(r.value) && |codigo.value| <= |r.value|
    ensures r.Some? ==> (EqualsIgnoreCase(r.value, codigo.value) <==> SharpS !in codigo.value)
  {
    if codigo.None? then None
    else
      ToUpperIdempotent(codigo.value);
      Some(ToUpper(codigo.value))
  }

  /** The state onUpdate leaves: only the code changes, to its upper-case form. */
  function Atualizada(f: Fields): (r: Fields)
    ensures r.(codigo := f.codigo) == f
    ensures r.codigo.Some? <==> f.codigo.Some?
    ensures r.codigo.Some? ==> EmMaiusculas(r.codigo.value)
    ensures r.codigo.Some? ==> (EqualsIgnoreCase(r.codigo.value, f.codigo.value) <==> SharpS !in f.codigo.value)
  {
    f.(codigo := CodigoNormalizado(f.codigo))
  }

  /** The state onCreate leaves: a missing ativo becomes true, missing configurações become the empty
      map, and the code is upper-cased; everything else is kept. */
  function Criada(f: Fields): (r: Fields)
    ensures r.ativo == (if f.ativo.Some? then f.ativo else Some(true))
    ensures r.configuracoes == (if f.configuracoes.Some? then f.configuracoes else Some(map[]))
    ensures r.(ativo := f.ativo, configuracoes := f.configuracoes) == Atualizada(f)
  {
    Atualizada(f).(ativo := if f.ativo.Some? then f.ativo else Some(true),
                   configuracoes := if f.configuracoes.Some? then f.configuracoes else Some(map[]))
  }

  /** onUpdate changes nothing the second time, nor right after onCreate; onCreate is idempotent. */
  lemma CallbacksIdempotentes(f: Fields)
    ensures Atualizada(Atualizada(f)) == Atualizada(f)
    ensures Atualizada(Criada(f)) == Criada(f)
    ensures Criada(Criada(f)) == Criada(f)
  {
    if f.codigo.Some? {
      ToUpperIdempotent(f.codigo.value);
    }
  }

  /** onCreate on the code "straße" stores "STRASSE", which does not equal it ignoring case. */
  lemma CriadaComSharpS(f: Fields)
    requires f.codigo == Some("stra\U{DF}e")
    ensures Criada(f).codigo == Some("STRASSE")
    ensures !EqualsIgnoreCase(Criada(f).codigo.value, f.codigo.value)
  {
    ToUpperSharpSExemplo();
  }

  /** A newly persisted institution has an activity flag, a settings map, and an upper-case code;
      one that was built without a flag is active. */
  lemma CriadaCompleta(f: Fields)
    ensures Criada(f).ativo.Some? && Criada(f).configuracoes.Some?
    ensures f.ativo.None? ==> Criada(f).ativo == Some(true)
    ensures Criada(f).codigo.Some? ==> EmMaiusculas(Criada(f).codigo.value)
  {
  }

  // ---------------------------------------------------------------- getEnderecoCompleto

  /** The address parts present in the map, in the order logradouro, cidade, uf, as appended. */
  function Partes(e: Json): (r: seq<string>)
    ensures |r| <= 3
  {
    (if "logradouro" in e then [ValueOf(e["logradouro"])] else []) +
    (if "cidade" in e then [ValueOf(e["cidade"])] else []) +
    (if "uf" in e then [ValueOf(e["uf"])] else [])
  }

  /** One append of the builder: " - " first when something is already there. */
  function Anexar(acc: string, p: string): (r: string)
    ensures |r| >= |acc| + |p|
  {
    if |acc| > 0 then acc + " - " + p else acc + p
  }

  /** The builder after appending each part in turn. */
  function Juntar(acc: string, partes: seq<string>): string
    decreases |partes|
  {
    if partes == [] then acc else Juntar(Anexar(acc, partes[0]), partes[1..])
  }

  /** What getEnderecoCompleto returns for a given address map. */
  function EnderecoFormatado(endereco: Option<Json>): string {
    if endereco.None? || |endereco.value| == 0 then "" else Juntar("", Partes(endereco.value))
  }

  /** Appending a sequence of parts in two stretches. */
  lemma {:induction false} JuntarConcat(acc: string, a: seq<string>, b: seq<string>)
    ensures Juntar(acc, a + b) == Juntar(Juntar(acc, a), b)
    decreases |a|
  {
    if a != [] {
      assert (a + b)[0] == a[0];
      assert (a + b)[1..] == a[1..] + b;
      JuntarConcat(Anexar(acc, a[0]), a[1..], b);
    } else {
      assert a + b == b;
    }
  }

  /** The parts separated by " - ", an independent reading of the format. */
  function Separados(partes: seq<string>): string
    decreases |partes|
  {
    if partes == [] then "" else if |partes| == 1 then partes[0] else partes[0] + " - " + Separados(partes[1..])
  }

  predicate NaoVazias(partes: seq<string>) {
    forall i :: 0 <= i < |partes| ==> partes[i] != ""
  }

  /** After a non-empty start, non-empty parts are each preceded by the separator. */
  lemma {:induction false} JuntarNaoVazias(acc: string, partes: seq<string>)
    requires acc != [] && NaoVazias(partes)
    ensures Juntar(acc, partes) == if partes == [] then acc else acc + " - " + Separados(partes)
    decreases |partes|
  {
    if partes != [] {
      var resto := partes[1..];
      assert NaoVazias(resto) by {
        forall i | 0 <= i < |resto| ensures resto[i] != "" {
          assert resto[i] == partes[i + 1];
        }
      }
      JuntarNaoVazias(acc + " - " + partes[0], resto);
      if resto != [] {
        assert acc + " - " + partes[0] + " - " + Separados(resto) == acc + " - " + (partes[0] + " - " + Separados(resto));
      }
    }
  }

  /** When every present part is non-empty, the address is those parts, in order, joined by " - ". */
  lemma EnderecoSeparado(e: Json)
    requires |e| > 0 && NaoVazias(Partes(e))
    ensures EnderecoFormatado(Some(e)) == Separados(Partes(e))
  {
    var ps := Partes(e);
    if ps != [] {
      assert ps[0] != "";
      assert Anexar("", ps[0]) == ps[0];
      var resto := ps[1..];
      assert NaoVazias(resto) by {
        forall i | 0 <= i < |resto| ensures resto[i] != "" {
          assert resto[i] == ps[i + 1];
        }
      }
      JuntarNaoVazias(ps[0], resto);
    }
  }

  /** Street, city and state, all non-empty, come out in that order separated by " - ". */
  lemma EnderecoTresPartes(l: string, c: string, u: string)
    requires l != "" && c != "" && u != ""
    ensures EnderecoFormatado(Some(map["logradouro" := Texto(l), "cidade" := Texto(c), "uf" := Texto(u)]))
            == l + " - " + c + " - " + u
  {
    var e := map["logradouro" := Texto(l), "cidade" := Texto(c), "uf" := Texto(u)];
    var ps := [l, c, u];
    assert Partes(e) == ps;
    assert "uf" in e;
    EnderecoSeparado(e);
    assert ps[1..] == [c, u] && [c, u][1..] == [u];
    assert Separados([c, u]) == c + " - " + u;
    assert Separados(ps) == l + " - " + (c + " - " + u);
  }

  /** A null or empty map, or one without any of the three keys, formats as "". */
  lemma EnderecoVazio(endereco: Option<Json>)
    requires endereco.Some? ==> "logradouro" !in endereco.value && "cidade" !in endereco.value && "uf" !in endereco.value
    ensures EnderecoFormatado(endereco) == ""
  {
  }

  /** A JSON null in the map is written out as the text "null". */
  lemma EnderecoComNulo()
    ensures EnderecoFormatado(Some(map["cidade" := Nulo])) == "null"
  {
    assert Partes(map["cidade" := Nulo]) == ["null"];
  }

  /** An empty street leaves no separator before the city. */
  lemma LogradouroVazio(c: string)
    ensures EnderecoFormatado(Some(map["logradouro" := Texto(""), "cidade" := Texto(c)])) == c
  {
    var e := map["logradouro" := Texto(""), "cidade" := Texto(c)];
    var ps := ["", c];
    assert Partes(e) == ps;
    assert "cidade" in e && |e| > 0;
    assert Juntar("", ps) == Juntar("", ps[1..]);
  }

  // ---------------------------------------------------------------- getContatoPrincipal

  datatype Erro = ClassCastException

  /** The (String) cast: a string or null passes, any other value throws. */
  function ComoString(v: Valor): (r: Result<Option<string>, Erro>)
    ensures v.Texto? ==> r == Ok(Some(v.s))
    ensures v.Nulo? ==> r == Ok(None)
    ensures v.Outro? ==> r.Err?
  {
    match v
    case Texto(s) => Ok(Some(s))
    case Nulo => Ok(None)
    case Outro(_) => Err(ClassCastException)
  }

  /** getContatoPrincipal: "" for no contacts; else email_principal when the key is there, else
      telefone_principal when that key is there, else "". */
  function ContatoPrincipal(contatos: Option<Json>): (r: Result<Option<string>, Erro>)
    ensures contatos.None? || |contatos.value| == 0 ==> r == Ok(Some(""))
    ensures contatos.Some? && "email_principal" in contatos.value ==> r == ComoString(contatos.value["email_principal"])
    ensures contatos.Some? && "email_principal" !in contatos.value && "telefone_principal" in contatos.value ==>
              r == ComoString(contatos.value["telefone_principal"])
    ensures contatos.Some? && "email_principal" !in contatos.value && "telefone_principal" !in contatos.value ==>
              r == Ok(Some(""))
  {
    if contatos.None? || |contatos.value| == 0 then Ok(Some(""))
    else if "email_principal" in contatos.value then ComoString(contatos.value["email_principal"])
    else if "telefone_principal" in contatos.value then ComoString(contatos.value["telefone_principal"])
    else Ok(Some(""))
  }

  /** A non-empty main contact is the e-mail or, when there is no e-mail key, the phone; the e-mail
      always wins over the phone. */
  lemma ContatoDeOrigem(c: Json, s: string)
    requires ContatoPrincipal(Some(c)) == Ok(Some(s)) && s != ""
    ensures ("email_principal" in c && c["email_principal"] == Texto(s)) ||
            ("email_principal" !in c && "telefone_principal" in c && c["telefone_principal"] == Texto(s))
  {
  }

  /** With both contacts given as strings the e-mail is returned. */
  lemma EmailPrimeiro(email: string, telefone: string)
    ensures ContatoPrincipal(Some(map["email_principal" := Texto(email), "telefone_principal" := Texto(telefone)]))
            == Ok(Some(email))
  {
  }

  // ---------------------------------------------------------------- the entity

  class Instituicao {
    var codigo: Option<string>
    var endereco: Option<Json>
    var contatos: Option<Json>
    var ativo: Option<bool>
    var configuracoes: Option<Json>

    function State(): Fields
      reads this
    {
      Fields(codigo, endereco, contatos, ativo, configuracoes)
    }

    /** An institution holding the given fields. */
    constructor (f: Fields)
      ensures State() == f
    {
      codigo := f.codigo;
      endereco := f.endereco;
      contatos := f.contatos;
      ativo := f.ativo;
      configuracoes := f.configuracoes;
    }

    /** onCreate (@PrePersist). */
    method OnCreate()
      modifies this
      ensures State() == Criada(old(State()))
    {
      if ativo.None? {
        ativo := Some(true);
      }
      if configuracoes.None? {
        configuracoes := Some(map[]);
      }
      if codigo.Some? {
        codigo := Some(ToUpper(codigo.value));
      }
    }

    /** onUpdate (@PreUpdate). */
    method OnUpdate()
      modifies this
      ensures State() == Atualizada(old(State()))
    {
      if codigo.Some? {
        codigo := Some(ToUpper(codigo.value));
      }
    }

    /** getEnderecoCompleto, building the text with a StringBuilder. */
    method EnderecoCompleto() returns (r: string)
      ensures r == EnderecoFormatado(endereco)
    {
      if endereco.None? || |endereco.value| == 0 {
        return "";
      }
      var e := endereco.value;
      var l: seq<string> := if "logradouro" in e then [ValueOf(e["logradouro"])] else [];
      var c: seq<string> := if "cidade" in e then [ValueOf(e["cidade"])] else [];
      var u: seq<string> := if "uf" in e then [ValueOf(e["uf"])] else [];
      var sb := "";
      if "logradouro" in e {
        sb := sb + ValueOf(e["logradouro"]);
      }
      assert sb == Juntar("", l);
      if "cidade" in e {
        if |sb| > 0 {
          sb := sb + " - ";
        }
        sb := sb + ValueOf(e["cidade"]);
      }
      JuntarConcat("", l, c);
      assert sb == Juntar("", l + c);
      if "uf" in e {
        if |sb| > 0 {
          sb := sb + " - ";
        }
        sb := sb + ValueOf(e["uf"]);
      }
      JuntarConcat("", l + c, u);
      assert Partes(e) == l + c + u;
      return sb;
    }
  }
}
