/**
 * A thesis or dissertation (entity TrabalhoConclusao): its lifecycle status, the fields that make it
 * ready for submission, the attached PDF and the download, view and citation counters.  Lecturers
 * are identified by their ids.
 */
module TrabalhoConclusao {
  import opened Wrappers
  import opened JavaNum
  import opened JavaTime
  import JT = JavaText

  datatype StatusTrabalho = EmPreparacao | Qualificado | Defendido | Aprovado | Publicado

  /** The scalar fields the domain rules read or the service writes. */
  datatype Fields = Fields(
    orientador: Option<nat>,
    coorientador: Option<nat>,
    tituloPortugues: Option<string>,
    resumoPortugues: Option<string>,
    dataDefesa: Option<LocalDate>,
    arquivoPdf: Option<string>,
    tamanhoArquivoBytes: Option<int>,
    handleUri: Option<string>,
    uriRepositorio: Option<string>,
    urlDownload: Option<string>,
    downloadsCount: Option<Int32>,
    visualizacoesCount: Option<Int32>,
    citacoesCount: Option<Int32>,
    status: StatusTrabalho)

  predicate PodeDefender(t: Fields) {
    t.status == Qualificado
  }

  predicate IsPublicado(t: Fields) {
    t.status == Publicado
  }

  predicate TemOrientador(t: Fields) {
    t.orientador.Some?
  }

  predicate TemCoorientador(t: Fields) {
    t.coorientador.Some?
  }

  predicate FoiDefendido(t: Fields) {
    t.dataDefesa.Some?
  }

  /** temArquivo: a PDF path that is present and not empty. */
  predicate TemArquivo(t: Fields) {
    t.arquivoPdf.Some? && t.arquivoPdf.value != ""
  }

  /** prontoParaSubmissao: a Portuguese title and abstract, both non-empty, and a supervisor. */
  predicate ProntoParaSubmissao(t: Fields) {
    t.tituloPortugues.Some? && t.tituloPortugues.value != ""
    && t.resumoPortugues.Some? && t.resumoPortugues.value != ""
    && t.orientador.Some?
  }

  /** Readiness asks for non-empty texts, not non-blank ones: a title and an abstract made of a
      single space pass, once a supervisor is set. */
  lemma ProntoAceitaEmBranco(t: Fields)
    requires t.tituloPortugues == Some(" ") && t.resumoPortugues == Some(" ") && t.orientador.Some?
    ensures ProntoParaSubmissao(t)
    ensures JT.IsBlank(t.tituloPortugues.value) && JT.IsBlank(t.resumoPortugues.value)
  {
  }

  /** A counter after incrementar*: null counts as 0, then Integer ++ (wrapping at the top). */
  function Incrementado(c: Option<Int32>): (r: Int32)
    ensures c.None? ==> r == 1
    ensures c.Some? && c.value < MaxInt ==> r == c.value + 1
    ensures c.Some? && c.value == MaxInt ==> r == MinInt
  {
    Increment(if c.None? then 0 else c.value)
  }

  class TrabalhoConclusao {
    var orientador: Option<nat>
    var coorientador: Option<nat>
    var tituloPortugues: Option<string>
    var resumoPortugues: Option<string>
    var dataDefesa: Option<LocalDate>
    var arquivoPdf: Option<string>
    var tamanhoArquivoBytes: Option<int>
    var handleUri: Option<string>
    var uriRepositorio: Option<string>
    var urlDownload: Option<string>
    var downloadsCount: Option<Int32>
    var visualizacoesCount: Option<Int32>
    var citacoesCount: Option<Int32>
    var status: StatusTrabalho

    function State(): Fields
      reads this
    {
      Fields(orientador, coorientador, tituloPortugues, resumoPortugues, dataDefesa, arquivoPdf,
             tamanhoArquivoBytes, handleUri, uriRepositorio, urlDownload, downloadsCount,
             visualizacoesCount, citacoesCount, status)
    }

    /** A new thesis as toEntity builds it: the request's supervisors, texts and defence date, and the
        builder defaults for the rest (EM_PREPARACAO, counters at zero, no file, no repository URIs). */
    constructor (orientador: Option<nat>, coorientador: Option<nat>, tituloPortugues: Option<string>,
                 resumoPortugues: Option<string>, dataDefesa: Option<LocalDate>)
      ensures State() == Fields(orientador, coorientador, tituloPortugues, resumoPortugues, dataDefesa, None, None,
                                None, None, None, Some(0), Some(0), Some(0), EmPreparacao)
    {
      this.orientador := orientador;
      this.coorientador := coorientador;
      this.tituloPortugues := tituloPortugues;
      this.resumoPortugues := resumoPortugues;
      this.dataDefesa := dataDefesa;
      this.arquivoPdf := None;
      this.tamanhoArquivoBytes := None;
      this.handleUri := None;
      this.uriRepositorio := None;
      this.urlDownload := None;
      this.downloadsCount := Some(0);
      this.visualizacoesCount := Some(0);
      this.citacoesCount := Some(0);
      this.status := EmPreparacao;
    }

    /** incrementarDownloads: one more download; nothing else changes. */
    method IncrementarDownloads()
      modifies this
      ensures State() == old(State()).(downloadsCount := Some(Incrementado(old(downloadsCount))))
    {
      if downloadsCount.None? {
        downloadsCount := Some(0);
      }
      downloadsCount := Some(Increment(downloadsCount.value));
    }

    /** incrementarVisualizacoes: one more view; nothing else changes. */
    method IncrementarVisualizacoes()
      modifies this
      ensures State() == old(State()).(visualizacoesCount := Some(Incrementado(old(visualizacoesCount))))
    {
      if visualizacoesCount.None? {
        visualizacoesCount := Some(0);
      }
      visualizacoesCount := Some(Increment(visualizacoesCount.value));
    }

    /** incrementarCitacoes: one more citation; nothing else changes. */
    method IncrementarCitacoes()
      modifies this
      ensures State() == old(State()).(citacoesCount := Some(Incrementado(old(citacoesCount))))
    {
      if citacoesCount.None? {
        citacoesCount := Some(0);
      }
      citacoesCount := Some(Increment(citacoesCount.value));
    }
  }
}
