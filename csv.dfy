/**
 * The CSV helpers of the report service (CsvReportService): escaping one field as section 2 of
 * RFC 4180 describes, and writing a key,value row ended by CRLF.  Beside them, a reader for such a
 * row, against which the writer is proved: reading back a written row gives the key and the value.
 */
module CsvReportService {
  import opened Wrappers
  import opened JavaText

  const Separador: string := ","
  const QuebraDeLinha: string := "\r\n"
  const Aspas: char := '"'

  /** Whether a string contains a character, as String.contains of a one-character string. */
  lemma ContainsChar(s: string, c: char)
    ensures Contains(s, [c]) <==> c in s
  {
    if c in s {
      var i :| 0 <= i < |s| && s[i] == c;
      assert s[i..i + 1] == [c];
      assert OccursAt(s, [c], i);
    }
    if Contains(s, [c]) {
      var i: nat :| i <= |s| && OccursAt(s, [c], i);
      assert s[i..i + 1][0] == s[i];
    }
  }

  /** A character that forces a field into quotes. */
  predicate Especial(c: char) {
    c == ',' || c == Aspas || c == '\n' || c == '\r'
  }

  /** Each quote doubled, everything else kept. */
  function DuplicarAspas(s: string): (r: string)
    ensures |r| >= |s|
  {
    if s == [] then [] else (if s[0] == Aspas then [Aspas, Aspas] else [s[0]]) + DuplicarAspas(s[1..])
  }

  /** String.replace("\"", "\"\"") doubles each quote. */
  lemma {:induction false} ReplaceDuplica(s: string)
    ensures Replace(s, [Aspas], [Aspas, Aspas]) == DuplicarAspas(s)
  {
    if s != [] {
      ReplaceDuplica(s[1..]);
      if s[0] == Aspas {
        assert s[..1] == [Aspas];
      } else {
        assert s[..1] != [Aspas];
      }
      assert s[1..] == s[|[Aspas]|..];
    }
  }

  /** escapeCsv: null becomes the empty field; a value with a comma, quote, LF or CR is quoted with
      its quotes doubled; any other value is kept as it is. */
  function EscapeCsv(value: Option<string>): (r: string)
    ensures value.None? ==> r == ""
    ensures value.Some? && (forall i :: 0 <= i < |value.value| ==> !Especial(value.value[i])) ==> r == value.value
    ensures value.Some? && (exists i :: 0 <= i < |value.value| && Especial(value.value[i])) ==>
              r == [Aspas] + DuplicarAspas(value.value) + [Aspas]
  {
    if value.None? then ""
    else
      var v := value.value;
      var needsQuoting := Contains(v, Separador) || Contains(v, [Aspas]) || Contains(v, "\n") || Contains(v, "\r");
      ContainsChar(v, ',');
      ContainsChar(v, Aspas);
      ContainsChar(v, '\n');
      ContainsChar(v, '\r');
      assert Separador == [','];
      if !needsQuoting then v
      else
        ReplaceDuplica(v);
        [Aspas] + Replace(v, [Aspas], [Aspas, Aspas]) + [Aspas]
  }

  /** writeCsvRow: the escaped key, a comma, the escaped value and CRLF. */
  function CsvRow(key: Option<string>, value: Option<string>): (r: string)
    ensures |r| == |EscapeCsv(key)| + |EscapeCsv(value)| + 3 && r[|r| - 2..] == QuebraDeLinha
    ensures r[..|EscapeCsv(key)|] == EscapeCsv(key) && r[|EscapeCsv(key)|] == ','
  {
    EscapeCsv(key) + Separador + EscapeCsv(value) + QuebraDeLinha
  }

  // ---------------------------------------------------------------- reading back

  /** The rest of a quoted field after its opening quote: "" stands for one quote and a lone quote
      closes the field.  None when the closing quote is missing. */
  function LerEntreAspas(s: string): (r: Option<(string, string)>)
    ensures r.Some? ==> |r.value.1| < |s|
  {
    if s == [] then None
    else if s[0] == Aspas then
      if |s| >= 2 && s[1] == Aspas then
        match LerEntreAspas(s[2..])
        case None => None
        case Some(p) => Some(([Aspas] + p.0, p.1))
      else Some(([], s[1..]))
    else
      match LerEntreAspas(s[1..])
      case None => None
      case Some(p) => Some(([s[0]] + p.0, p.1))
  }

  /** An unquoted field: everything up to the first comma, CR or LF. */
  function LerSemAspas(s: string): (r: (string, string))
  {
    if s == [] || s[0] == ',' || s[0] == '\r' || s[0] == '\n' then ([], s)
    else
      var p := LerSemAspas(s[1..]);
      ([s[0]] + p.0, p.1)
  }

  /** One field from the start of s, and what follows it. */
  function LerCampo(s: string): Option<(string, string)> {
    if s != [] && s[0] == Aspas then LerEntreAspas(s[1..]) else Some(LerSemAspas(s))
  }

  /** A key,value row ended by CRLF, read back into its two fields. */
  function LerLinha(s: string): Option<(string, string)> {
    match LerCampo(s)
    case None => None
    case Some(p) =>
      if p.1 == [] || p.1[0] != ',' then None
      else
        match LerCampo(p.1[1..])
        case None => None
        case Some(q) => if q.1 == QuebraDeLinha then Some((p.0, q.0)) else None
  }

  /** A doubled quote inside a quoted field reads as one quote. */
  lemma LerAspaDupla(w: string)
    requires LerEntreAspas(w).Some?
    ensures LerEntreAspas([Aspas, Aspas] + w) == Some(([Aspas] + LerEntreAspas(w).value.0, LerEntreAspas(w).value.1))
  {
    assert ([Aspas, Aspas] + w)[2..] == w;
  }

  /** Any other character inside a quoted field reads as itself. */
  lemma LerOutro(c: char, w: string)
    requires c != Aspas && LerEntreAspas(w).Some?
    ensures LerEntreAspas([c] + w) == Some(([c] + LerEntreAspas(w).value.0, LerEntreAspas(w).value.1))
  {
    assert ([c] + w)[1..] == w;
  }

  /** The doubled quotes of v, then the closing quote, read back as v. */
  lemma {:induction false} LerDuplicadas(v: string, t: string)
    requires t == [] || t[0] != Aspas
    ensures LerEntreAspas(DuplicarAspas(v) + [Aspas] + t) == Some((v, t))
  {
    if v == [] {
      LerFechamento(t);
    } else {
      LerDuplicadas(v[1..], t);
      LerDuplicadasPasso(v, t);
    }
  }

  /** The closing quote ends the field when no second quote follows it. */
  lemma LerFechamento(t: string)
    requires t == [] || t[0] != Aspas
    ensures LerEntreAspas(DuplicarAspas([]) + [Aspas] + t) == Some(([], t))
  {
    var s := [Aspas] + t;
    assert DuplicarAspas([]) + [Aspas] + t == s;
    assert s[1..] == t;
    assert |s| >= 2 ==> s[1] == t[0];
  }

  /** One more character in front: the reading of the rest carries over. */
  lemma LerDuplicadasPasso(v: string, t: string)
    requires v != []
    requires LerEntreAspas(DuplicarAspas(v[1..]) + [Aspas] + t) == Some((v[1..], t))
    ensures LerEntreAspas(DuplicarAspas(v) + [Aspas] + t) == Some((v, t))
  {
    var d := DuplicarAspas(v[1..]);
    var cabeca := if v[0] == Aspas then [Aspas, Aspas] else [v[0]];
    assert DuplicarAspas(v) == cabeca + d;
    Concat4(cabeca, d, [Aspas], t);
    assert [v[0]] + v[1..] == v;
    if v[0] == Aspas {
      LerAspaDupla(d + [Aspas] + t);
    } else {
      LerOutro(v[0], d + [Aspas] + t);
    }
  }

  lemma Concat4(a: string, b: string, c: string, d: string)
    ensures a + b + c + d == a + (b + c + d)
  {
  }

  /** A field without special characters, followed by a separator or nothing, reads back whole. */
  lemma {:induction false} LerSimples(v: string, t: string)
    requires forall i :: 0 <= i < |v| ==> !Especial(v[i])
    requires t == [] || t[0] == ',' || t[0] == '\r'
    ensures LerSemAspas(v + t) == (v, t)
  {
    if v == [] {
      assert v + t == t;
    } else {
      assert (v + t)[0] == v[0];
      assert (v + t)[1..] == v[1..] + t;
      LerSimples(v[1..], t);
      assert [v[0]] + v[1..] == v;
    }
  }

  /** Reading a field back from its escaped form gives the value (null reads back as ""). */
  lemma LerCampoEscapado(value: Option<string>, t: string)
    requires t == [] || t[0] == ',' || t[0] == '\r'
    ensures LerCampo(EscapeCsv(value) + t) == Some((if value.None? then "" else value.value, t))
  {
    if value.None? {
      assert EscapeCsv(value) + t == t;
      LerSimples("", t);
    } else {
      var v := value.value;
      if exists i :: 0 <= i < |v| && Especial(v[i]) {
        var s := [Aspas] + DuplicarAspas(v) + [Aspas] + t;
        assert EscapeCsv(value) + t == s;
        assert s[1..] == DuplicarAspas(v) + [Aspas] + t;
        LerDuplicadas(v, t);
      } else {
        LerSimples(v, t);
        if v != [] {
          assert !Especial(v[0]);
          assert (v + t)[0] == v[0];
        } else {
          assert v + t == t;
        }
      }
    }
  }

  /** A row reads as its two fields once each field reads back and a comma sits between them. */
  lemma LerLinhaDeCampos(s: string, k: string, resto: string, v: string)
    requires LerCampo(s) == Some((k, resto)) && resto != [] && resto[0] == ','
    requires LerCampo(resto[1..]) == Some((v, QuebraDeLinha))
    ensures LerLinha(s) == Some((k, v))
  {
  }

  /** Reading a written row gives back its key and value, each null read as "". */
  lemma CsvRowRoundTrip(key: Option<string>, value: Option<string>)
    ensures LerLinha(CsvRow(key, value)) ==
              Some((if key.None? then "" else key.value, if value.None? then "" else value.value))
  {
    var ek, ev := EscapeCsv(key), EscapeCsv(value);
    var fim := ev + QuebraDeLinha;
    var resto := [','] + fim;
    assert CsvRow(key, value) == ek + resto;
    assert resto[1..] == fim;
    LerCampoEscapado(key, resto);
    LerCampoEscapado(value, QuebraDeLinha);
    LerLinhaDeCampos(CsvRow(key, value), if key.None? then "" else key.value, resto,
                     if value.None? then "" else value.value);
  }
}
