/**
 * The pure helpers of the OpenAlex integration (OpenAlexService): normalising ORCID and DOI
 * identifiers, taking the id off an OpenAlex URL, and counting the recent works of an author.
 * The current year is the parameter anoAtual.
 */
module OpenAlexService {
  import opened Wrappers
  import opened JavaText

  const OrcidHttps: string := "https://orcid.org/"
  const OrcidHttp: string := "http://orcid.org/"
  const DoiHttps: string := "https://doi.org/"
  const DoiHttp: string := "http://doi.org/"

  /** A string without the character c does not contain any string that starts with c. */
  lemma {:induction false} SemPrimeiroCaractere(s: string, t: string)
    requires t != [] && t[0] !in s
    ensures !Contains(s, t)
  {
  }

  // ---------------------------------------------------------------- identifiers

  /** The two prefixes removed in turn, then the ends trimmed: the shape of both normalisers. */
  function SemPrefixos(s: string, https: string, http: string): string
    requires https != [] && http != []
  {
    Trim(Replace(Replace(s, https, ""), http, ""))
  }

  /** A value carrying at most a leading prefix: removing the prefixes leaves the trimmed rest. */
  lemma {:induction false} SemPrefixosDe(d: string, https: string, http: string)
    requires https != [] && http != []
    requires !Contains(d, https) && !Contains(d, http)
    ensures SemPrefixos(https + d, https, http) == Trim(d)
    ensures SemPrefixos(d, https, http) == Trim(d)
  {
    ReplaceLeading(https, d, "");
    ReplaceAbsent(d, https, "");
    assert "" + Replace(d, https, "") == d;
    ReplaceAbsent(d, http, "");
  }

  /** The http:// prefix is removed the same way, once the https:// one is absent from the value. */
  lemma {:induction false} SemPrefixoHttp(d: string, https: string, http: string)
    requires https != [] && http != []
    requires !Contains(d, https) && !Contains(d, http) && !Contains(http + d, https)
    ensures SemPrefixos(http + d, https, http) == Trim(d)
  {
    ReplaceAbsent(http + d, https, "");
    ReplaceLeading(http, d, "");
    ReplaceAbsent(d, http, "");
    assert "" + d == d;
  }

  /** normalizeOrcid: null stays null; otherwise the orcid.org URL prefixes go and the ends are trimmed. */
  function NormalizeOrcid(orcid: Option<string>): (r: Option<string>)
    ensures orcid.None? <==> r.None?
    ensures r.Some? ==> Trim(r.value) == r.value
  {
    if orcid.None? then None
    else
      TrimIdempotent(Replace(Replace(orcid.value, OrcidHttps, ""), OrcidHttp, ""));
      Some(SemPrefixos(orcid.value, OrcidHttps, OrcidHttp))
  }

  /** normalizeDoi: null stays null; otherwise the doi.org URL prefixes go and the ends are trimmed. */
  function NormalizeDoi(doi: Option<string>): (r: Option<string>)
    ensures doi.None? <==> r.None?
    ensures r.Some? ==> Trim(r.value) == r.value
  {
    if doi.None? then None
    else
      TrimIdempotent(Replace(Replace(doi.value, DoiHttps, ""), DoiHttp, ""));
      Some(SemPrefixos(doi.value, DoiHttps, DoiHttp))
  }

  /** An http:// prefix followed by a value that does not contain the matching https:// prefix
      does not contain it either: in the http:// prefix the only 'h' is the first character, where
      the fifth one differs. */
  lemma HttpSemHttps(http: string, https: string, d: string)
    requires 5 <= |http| < |https| && https[0] == 'h' && http[4] != https[4]
    requires 'h' !in http[1..] && !Contains(d, https)
    ensures !Contains(http + d, https)
  {
    var s := http + d;
    forall i: nat | i <= |s| ensures !OccursAt(s, https, i) {
      if i + |https| <= |s| {
        if i == 0 {
          assert s[i..i + |https|][4] == s[4] == http[4] != https[4];
        } else if i < |http| {
          assert http[1..][i - 1] == http[i];
          assert s[i..i + |https|][0] == http[i] != 'h';
        } else {
          assert !OccursAt(d, https, i - |http|);
          assert s[i..i + |https|] == d[i - |http|..i - |http| + |https|];
        }
      }
    }
  }

  /** The facts about the orcid.org prefixes that HttpSemHttps needs. */
  lemma OrcidHttpSemHttps(d: string)
    requires !Contains(d, OrcidHttps)
    ensures !Contains(OrcidHttp + d, OrcidHttps)
  {
    assert OrcidHttp[1..] == "ttp://orcid.org/";
    HttpSemHttps(OrcidHttp, OrcidHttps, d);
  }

  /** The facts about the doi.org prefixes that HttpSemHttps needs. */
  lemma DoiHttpSemHttps(d: string)
    requires !Contains(d, DoiHttps)
    ensures !Contains(DoiHttp + d, DoiHttps)
  {
    assert DoiHttp[1..] == "ttp://doi.org/";
    HttpSemHttps(DoiHttp, DoiHttps, d);
  }

  /** An ORCID iD written bare, or behind either orcid.org prefix, normalises to the same bare iD,
      whenever the iD itself does not contain those prefixes. */
  lemma NormalizeOrcidPrefixos(d: string)
    requires !Contains(d, OrcidHttps) && !Contains(d, OrcidHttp)
    ensures NormalizeOrcid(Some(OrcidHttps + d)) == Some(Trim(d))
    ensures NormalizeOrcid(Some(OrcidHttp + d)) == Some(Trim(d))
    ensures NormalizeOrcid(Some(d)) == Some(Trim(d))
  {
    SemPrefixosDe(d, OrcidHttps, OrcidHttp);
    OrcidHttpSemHttps(d);
    SemPrefixoHttp(d, OrcidHttps, OrcidHttp);
  }

  /** A DOI written bare, or behind either doi.org prefix, normalises to the same bare DOI,
      whenever the DOI itself does not contain those prefixes. */
  lemma NormalizeDoiPrefixos(d: string)
    requires !Contains(d, DoiHttps) && !Contains(d, DoiHttp)
    ensures NormalizeDoi(Some(DoiHttps + d)) == Some(Trim(d))
    ensures NormalizeDoi(Some(DoiHttp + d)) == Some(Trim(d))
    ensures NormalizeDoi(Some(d)) == Some(Trim(d))
  {
    SemPrefixosDe(d, DoiHttps, DoiHttp);
    DoiHttpSemHttps(d);
    SemPrefixoHttp(d, DoiHttps, DoiHttp);
  }

  /** The DOI of the service's test: "https://doi.org/10.1234/test.2023.001" becomes "10.1234/test.2023.001". */
  lemma NormalizeDoiExemplo()
    ensures NormalizeDoi(Some("https://doi.org/10.1234/test.2023.001")) == Some("10.1234/test.2023.001")
  {
    var d := "10.1234/test.2023.001";
    assert "https://doi.org/10.1234/test.2023.001" == DoiHttps + d;
    assert forall i :: 0 <= i < |d| ==> d[i] != 'h';
    SemPrimeiroCaractere(d, DoiHttps);
    SemPrimeiroCaractere(d, DoiHttp);
    NormalizeDoiPrefixos(d);
    TrimOfTrimmed(d);
  }

  /** A string shorter than t does not contain it. */
  lemma MaisCurto(s: string, t: string)
    requires |s| < |t|
    ensures !Contains(s, t)
  {
  }

  /** A DOI with an 'h' in it loses its prefix all the same. */
  lemma NormalizeDoiComH()
    ensures NormalizeDoi(Some("https://doi.org/10.1000/thesis")) == Some("10.1000/thesis")
    ensures NormalizeDoi(Some("http://doi.org/10.1000/thesis")) == Some("10.1000/thesis")
  {
    var d := "10.1000/thesis";
    assert "https://doi.org/10.1000/thesis" == DoiHttps + d;
    assert "http://doi.org/10.1000/thesis" == DoiHttp + d;
    MaisCurto(d, DoiHttps);
    MaisCurto(d, DoiHttp);
    NormalizeDoiPrefixos(d);
    TrimOfTrimmed(d);
  }

  // ---------------------------------------------------------------- extractOpenAlexId

  /** The position of the last '/' in s. */
  function UltimaBarra(s: string): (r: nat)
    requires '/' in s
    ensures r < |s| && s[r] == '/' && '/' !in s[r + 1..]
  {
    if s[|s| - 1] == '/' then |s| - 1
    else
      assert s == s[..|s| - 1] + [s[|s| - 1]];
      var i := UltimaBarra(s[..|s| - 1]);
      assert s[i + 1..] == s[..|s| - 1][i + 1..] + [s[|s| - 1]];
      i
  }

  /** Every '/'-separated segment of s, empty ones included, in order. */
  function Segmentos(s: string): (r: seq<string>)
    ensures |r| >= 1 && forall k :: 0 <= k < |r| ==> '/' !in r[k]
  {
    if '/' !in s then [s]
    else
      var i := UltimaBarra(s);
      Segmentos(s[..i]) + [s[i + 1..]]
  }

  /** The trailing empty strings dropped, as String.split with no limit does. */
  function SemVaziosNoFim(xs: seq<string>): (r: seq<string>)
    ensures |r| <= |xs| && r == xs[..|r|]
    ensures r == [] || r[|r| - 1] != ""
  {
    if xs != [] && xs[|xs| - 1] == "" then SemVaziosNoFim(xs[..|xs| - 1]) else xs
  }

  /** String.split("/"): a string without '/' is its own single part; otherwise the segments without
      the trailing empty ones (so a string made only of slashes has no parts at all). */
  function Split(s: string): (r: seq<string>)
    ensures forall k :: 0 <= k < |r| ==> '/' !in r[k]
  {
    if '/' !in s then [s] else SemVaziosNoFim(Segmentos(s))
  }

  /** parts[parts.length - 1] on an empty array throws. */
  datatype ErroOpenAlex = IndiceForaDosLimites

  /** extractOpenAlexId: null stays null; otherwise the last part of the split, and an error when
      there is none. */
  function ExtractOpenAlexId(fullId: Option<string>): (r: Result<Option<string>, ErroOpenAlex>)
    ensures fullId.None? ==> r == Ok(None)
    ensures fullId.Some? && '/' !in fullId.value ==> r == Ok(fullId)
    ensures r.Ok? && r.value.Some? ==> '/' !in r.value.value
  {
    if fullId.None? then Ok(None)
    else
      var parts := Split(fullId.value);
      if parts == [] then Err(IndiceForaDosLimites) else Ok(Some(parts[|parts| - 1]))
  }

  /** An URL ending in "/id" yields id. */
  lemma ExtractOpenAlexIdDeUrl(prefixo: string, id: string)
    requires id != "" && '/' !in id
    ensures ExtractOpenAlexId(Some(prefixo + "/" + id)) == Ok(Some(id))
  {
    var s := prefixo + "/" + id;
    assert s[|prefixo|] == '/';
    assert s[|prefixo| + 1..] == id;
    assert UltimaBarra(s) == |prefixo|;
    assert s[..|prefixo|] == prefixo;
    assert Segmentos(s) == Segmentos(prefixo) + [id];
  }

  /** The URL of the method's own documentation: "https://openalex.org/A1234567890" gives "A1234567890". */
  lemma ExtractOpenAlexIdExemplo()
    ensures ExtractOpenAlexId(Some("https://openalex.org/A1234567890")) == Ok(Some("A1234567890"))
  {
    assert "https://openalex.org/A1234567890" == "https://openalex.org" + "/" + "A1234567890";
    ExtractOpenAlexIdDeUrl("https://openalex.org", "A1234567890");
  }

  /** A string of slashes only has no parts, so extracting from it fails. */
  lemma {:induction false} SoBarras(n: nat)
    requires n >= 1
    ensures TodosVazios(Segmentos(seq(n, _ => '/')))
    ensures ExtractOpenAlexId(Some(seq(n, _ => '/'))).Err?
  {
    var s := seq(n, _ => '/');
    assert s[n - 1] == '/';
    assert UltimaBarra(s) == n - 1;
    if n == 1 {
      assert '/' !in s[..0];
      assert Segmentos(s) == ["", ""];
    } else {
      assert s[..n - 1] == seq(n - 1, _ => '/');
      SoBarras(n - 1);
      assert Segmentos(s) == Segmentos(s[..n - 1]) + [""];
    }
    EmptySegmentsDrop(Segmentos(s));
  }

  predicate TodosVazios(xs: seq<string>) {
    forall k :: 0 <= k < |xs| ==> xs[k] == ""
  }

  /** Dropping trailing empty strings from a list of empty strings leaves nothing. */
  lemma {:induction false} EmptySegmentsDrop(xs: seq<string>)
    requires TodosVazios(xs)
    ensures SemVaziosNoFim(xs) == []
  {
    if xs != [] {
      EmptySegmentsDrop(xs[..|xs| - 1]);
    }
  }

  // ---------------------------------------------------------------- recent works

  /** The number of works published in anoAtual - 5 or later; works without a year are skipped. */
  function ContarRecentes(anos: seq<Option<int>>, anoAtual: int): (r: nat)
    ensures r <= |anos|
  {
    if anos == [] then 0
    else (if anos[0].Some? && anos[0].value >= anoAtual - 5 then 1 else 0) + ContarRecentes(anos[1..], anoAtual)
  }

  /** calculateRecentWorks: 0 for a missing or empty list, else the recent ones counted. */
  function CalculateRecentWorks(anos: Option<seq<Option<int>>>, anoAtual: int): (r: nat)
    ensures anos.None? || anos.value == [] ==> r == 0
    ensures anos.Some? ==> r == ContarRecentes(anos.value, anoAtual) && r <= |anos.value|
  {
    if anos.None? || anos.value == [] then 0 else ContarRecentes(anos.value, anoAtual)
  }

  /** The count adds up over concatenated lists. */
  lemma {:induction false} ContarRecentesConcat(a: seq<Option<int>>, b: seq<Option<int>>, anoAtual: int)
    ensures ContarRecentes(a + b, anoAtual) == ContarRecentes(a, anoAtual) + ContarRecentes(b, anoAtual)
  {
    if a == [] {
      assert a + b == b;
    } else {
      assert (a + b)[0] == a[0];
      assert (a + b)[1..] == a[1..] + b;
      ContarRecentesConcat(a[1..], b, anoAtual);
    }
  }

  /** Every work is counted exactly when all of them have a year in the window. */
  lemma {:induction false} ContarRecentesTodos(anos: seq<Option<int>>, anoAtual: int)
    ensures ContarRecentes(anos, anoAtual) == |anos| <==>
              forall k :: 0 <= k < |anos| ==> anos[k].Some? && anos[k].value >= anoAtual - 5
  {
    if anos != [] {
      ContarRecentesTodos(anos[1..], anoAtual);
      if !(anos[0].Some? && anos[0].value >= anoAtual - 5) {
        assert ContarRecentes(anos[1..], anoAtual) <= |anos[1..]|;
      } else {
        forall k | 1 <= k < |anos| ensures anos[k] == anos[1..][k - 1] {}
      }
    }
  }

  /** A later current year never counts more works. */
  lemma {:induction false} ContarRecentesMonotone(anos: seq<Option<int>>, ano: int, depois: int)
    requires ano <= depois
    ensures ContarRecentes(anos, depois) <= ContarRecentes(anos, ano)
  {
    if anos != [] {
      ContarRecentesMonotone(anos[1..], ano, depois);
    }
  }
}
