/**
 * The thesis lifecycle (TrabalhoConclusaoService): a thesis is created for an active student,
 * submitted, approved or sent back after its defence, published with repository URIs, and carries
 * one uploaded PDF whose downloads are counted.  Repository lookups become parameters: whether the
 * student already has a thesis, and whether each lecturer named is active.
 */
module TrabalhoConclusaoService {
  import opened Wrappers
  import opened JavaText
  import opened JavaTime
  import opened TrabalhoConclusao
  import SD = StatusDiscente

  datatype Erro =
    | DiscenteJaPossuiTrabalho
    | DiscenteComStatusInvalido
    | OrientadorInativo
    | CoorientadorInativo
    | TrabalhoPublicadoImutavel
    | SubmissaoForaDePreparacao
    | NaoProntoParaSubmissao
    | NaoDefendido
    | PublicacaoNaoAprovada
    | SemArquivoPdf
    | ArquivoVazio
    | ArquivoMuitoGrande
    | ArquivoNaoPdf

  /** The status changes the service performs. */
  predicate Transicao(de: StatusTrabalho, para: StatusTrabalho) {
    (de == EmPreparacao && para == Qualificado)
    || (de == Defendido && (para == Aprovado || para == EmPreparacao))
    || (de == Aprovado && para == Publicado)
  }

  /** PUBLICADO is terminal, and every change moves to a different status. */
  lemma PublicadoTerminal(de: StatusTrabalho, para: StatusTrabalho)
    ensures Transicao(de, para) ==> de != Publicado && de != para
    ensures Transicao(de, Publicado) <==> de == Aprovado
  {
  }

  // ---------------------------------------------------------------- criar / atualizar / deletar

  /** The statuses a student may hold to get a thesis created (compared by enum name). */
  predicate DiscentePodeTerTrabalho(s: SD.StatusDiscente) {
    SD.Name(s) == "QUALIFICADO" || SD.Name(s) == "DEFENDENDO" || SD.Name(s) == "CURSANDO"
  }

  /** Only active students past enrolment qualify: CURSANDO, QUALIFICADO or DEFENDENDO. */
  lemma DiscentePodeTerTrabalhoIsAtivo(s: SD.StatusDiscente)
    ensures DiscentePodeTerTrabalho(s) <==> s == SD.Cursando || s == SD.Qualificado || s == SD.Defendendo
    ensures DiscentePodeTerTrabalho(s) ==> SD.IsAtivo(s) && s != SD.Matriculado
  {
    match s {
      case Matriculado => assert SD.Name(s)[0] == 'M';
      case Cursando =>
      case Qualificado =>
      case Defendendo =>
      case Titulado => assert SD.Name(s)[0] == 'T';
      case Desligado => assert SD.Name(s)[1] == 'E' && SD.Name(s)[2] == 'S';
    }
  }

  /** criar: no thesis yet for the student, a qualifying student status, an active supervisor and,
      when one is named, an active co-supervisor; the new thesis starts EM_PREPARACAO and keeps the
      request's texts and defence date, so a request carrying a date yields a thesis foiDefendido holds of. */
  method Criar(jaPossuiTrabalho: bool, statusDiscente: SD.StatusDiscente, orientador: nat, orientadorAtivo: bool,
               coorientador: Option<nat>, coorientadorAtivo: bool,
               titulo: Option<string>, resumo: Option<string>, dataDefesa: Option<LocalDate>)
    returns (r: Result<TrabalhoConclusao, Erro>)
    ensures r.Ok? <==> !jaPossuiTrabalho && DiscentePodeTerTrabalho(statusDiscente) && orientadorAtivo
                       && (coorientador.Some? ==> coorientadorAtivo)
    ensures r.Err? ==> r.error == (if jaPossuiTrabalho then DiscenteJaPossuiTrabalho
                                   else if !DiscentePodeTerTrabalho(statusDiscente) then DiscenteComStatusInvalido
                                   else if !orientadorAtivo then OrientadorInativo
                                   else CoorientadorInativo)
    ensures r.Ok? ==> fresh(r.value) && r.value.status == EmPreparacao && r.value.orientador == Some(orientador)
                      && r.value.coorientador == coorientador && !TemArquivo(r.value.State())
    ensures r.Ok? ==> r.value.tituloPortugues == titulo && r.value.resumoPortugues == resumo
                      && r.value.dataDefesa == dataDefesa
                      && (FoiDefendido(r.value.State()) <==> dataDefesa.Some?)
  {
    if jaPossuiTrabalho {
      return Err(DiscenteJaPossuiTrabalho);
    }
    if !DiscentePodeTerTrabalho(statusDiscente) {
      return Err(DiscenteComStatusInvalido);
    }
    if !orientadorAtivo {
      return Err(OrientadorInativo);
    }
    if coorientador.Some? && !coorientadorAtivo {
      return Err(CoorientadorInativo);
    }
    var t := new TrabalhoConclusao(Some(orientador), coorientador, titulo, resumo, dataDefesa);
    return Ok(t);
  }

  /** atualizar's checks: a published thesis is frozen, and a newly named supervisor or
      co-supervisor (Some(active?)) must be active. */
  function Atualizar(status: StatusTrabalho, orientadorAtivo: Option<bool>, coorientadorAtivo: Option<bool>)
    : (r: Result<(), Erro>)
    ensures r.Ok? <==> status != Publicado && orientadorAtivo != Some(false) && coorientadorAtivo != Some(false)
    ensures status == Publicado ==> r == Err(TrabalhoPublicadoImutavel)
  {
    if status == Publicado then Err(TrabalhoPublicadoImutavel)
    else if orientadorAtivo == Some(false) then Err(OrientadorInativo)
    else if coorientadorAtivo == Some(false) then Err(CoorientadorInativo)
    else Ok(())
  }

  /** deletar: anything but a published thesis may be deleted. */
  function Deletar(status: StatusTrabalho): (r: Result<(), Erro>)
    ensures r.Ok? <==> status != Publicado
    ensures r.Err? ==> r.error == TrabalhoPublicadoImutavel
  {
    if status == Publicado then Err(TrabalhoPublicadoImutavel) else Ok(())
  }

  // ---------------------------------------------------------------- lifecycle

  /** submeter: a thesis in preparation that is ready moves to QUALIFICADO. */
  method Submeter(t: TrabalhoConclusao) returns (r: Result<(), Erro>)
    modifies t
    ensures r.Ok? <==> old(t.status == EmPreparacao && ProntoParaSubmissao(t.State()))
    ensures r.Ok? ==> t.State() == old(t.State()).(status := Qualificado) && Transicao(old(t.status), t.status)
    ensures r.Err? ==> t.State() == old(t.State())
                       && r.error == (if old(t.status) != EmPreparacao then SubmissaoForaDePreparacao
                                      else NaoProntoParaSubmissao)
  {
    if t.status != EmPreparacao {
      return Err(SubmissaoForaDePreparacao);
    }
    if !ProntoParaSubmissao(t.State()) {
      return Err(NaoProntoParaSubmissao);
    }
    t.status := Qualificado;
    return Ok(());
  }

  /** aprovar: a defended thesis becomes APROVADO. */
  method Aprovar(t: TrabalhoConclusao) returns (r: Result<(), Erro>)
    modifies t
    ensures r.Ok? <==> old(t.status) == Defendido
    ensures r.Ok? ==> t.State() == old(t.State()).(status := Aprovado) && Transicao(old(t.status), t.status)
    ensures r.Err? ==> r.error == NaoDefendido && t.State() == old(t.State())
  {
    if t.status != Defendido {
      return Err(NaoDefendido);
    }
    t.status := Aprovado;
    return Ok(());
  }

  /** reprovar: a defended thesis goes back to EM_PREPARACAO. */
  method Reprovar(t: TrabalhoConclusao) returns (r: Result<(), Erro>)
    modifies t
    ensures r.Ok? <==> old(t.status) == Defendido
    ensures r.Ok? ==> t.State() == old(t.State()).(status := EmPreparacao) && Transicao(old(t.status), t.status)
    ensures r.Err? ==> r.error == NaoDefendido && t.State() == old(t.State())
  {
    if t.status != Defendido {
      return Err(NaoDefendido);
    }
    t.status := EmPreparacao;
    return Ok(());
  }

  /** A thesis that was ready and is sent back after its defence can be submitted again as it
      stands: reprovar leaves it in preparation and ready, and submeter moves it on from there. */
  lemma ReprovarPermiteResubmeter(t: Fields)
    requires t.status == Defendido && ProntoParaSubmissao(t)
    ensures var volta := t.(status := EmPreparacao);
            Transicao(t.status, volta.status) && volta.status == EmPreparacao && ProntoParaSubmissao(volta)
            && Transicao(volta.status, Qualificado)
  {
  }

  const PrefixoRepositorio: string := "http://repositorio.ppghub.edu.br/handle/"
  const PrefixoHandle: string := "http://hdl.handle.net/ppghub/"
  const PrefixoDownload: string := "http://repositorio.ppghub.edu.br/bitstream/"

  /** publicar: an approved thesis with a PDF is PUBLICADO, with repository, handle and download
      URIs built from its id. */
  method Publicar(t: TrabalhoConclusao, id: nat) returns (r: Result<(), Erro>)
    modifies t
    ensures r.Ok? <==> old(t.status) == Aprovado && old(TemArquivo(t.State()))
    ensures r.Ok? ==>
              t.State() == old(t.State()).(status := Publicado,
                                           uriRepositorio := Some(PrefixoRepositorio + DecimalString(id)),
                                           handleUri := Some(PrefixoHandle + DecimalString(id)),
                                           urlDownload := Some(PrefixoDownload + DecimalString(id) + "/trabalho.pdf"))
    ensures r.Ok? ==> Transicao(old(t.status), t.status)
    ensures r.Err? ==> t.State() == old(t.State())
                       && r.error == (if old(t.status) != Aprovado then PublicacaoNaoAprovada else SemArquivoPdf)
  {
    if t.status != Aprovado {
      return Err(PublicacaoNaoAprovada);
    }
    if !TemArquivo(t.State()) {
      return Err(SemArquivoPdf);
    }
    t.status := Publicado;
    t.uriRepositorio := Some(PrefixoRepositorio + DecimalString(id));
    t.handleUri := Some(PrefixoHandle + DecimalString(id));
    t.urlDownload := Some(PrefixoDownload + DecimalString(id) + "/trabalho.pdf");
    return Ok(());
  }

  /** The repository URI ends in the id, and distinct ids give distinct URIs. */
  lemma UriEndsInId(a: nat, b: nat)
    ensures (PrefixoRepositorio + DecimalString(a))[|PrefixoRepositorio|..] == DecimalString(a)
    ensures PrefixoRepositorio + DecimalString(a) == PrefixoRepositorio + DecimalString(b) ==> a == b
  {
    if PrefixoRepositorio + DecimalString(a) == PrefixoRepositorio + DecimalString(b) {
      assert (PrefixoRepositorio + DecimalString(a))[|PrefixoRepositorio|..] == DecimalString(a);
      assert (PrefixoRepositorio + DecimalString(b))[|PrefixoRepositorio|..] == DecimalString(b);
      DecimalStringInjective(a, b);
    }
  }

  // ---------------------------------------------------------------- files

  /** The uploaded file: its size, its declared content type and its original name, either of
      which may be missing. */
  datatype Arquivo = Arquivo(tamanho: int, contentType: Option<string>, nomeOriginal: Option<string>)

  /** MAX_FILE_SIZE: 50 MiB. */
  const TamanhoMaximo: int := 50 * 1024 * 1024

  /** Java string concatenation of a possibly null string. */
  function TextoOuNull(s: Option<string>): string {
    if s.None? then "null" else s.value
  }

  /** The stored path of an upload: "/uploads/trabalhos/{id}/{name}". */
  function CaminhoUpload(id: nat, arquivo: Arquivo): (r: string)
    ensures |r| > |"/uploads/trabalhos/"| + |DecimalString(id)|
    ensures r[..|"/uploads/trabalhos/"|] == "/uploads/trabalhos/"
    ensures r[|"/uploads/trabalhos/"|..|"/uploads/trabalhos/"| + |DecimalString(id)|] == DecimalString(id)
    ensures r[|"/uploads/trabalhos/"| + |DecimalString(id)|] == '/'
  {
    "/uploads/trabalhos/" + DecimalString(id) + "/" + TextoOuNull(arquivo.nomeOriginal)
  }

  /** uploadArquivo: a non-empty file of at most 50 MiB declared as application/pdf is attached
      (path and size); anything else is refused, in that order. */
  method UploadArquivo(t: TrabalhoConclusao, id: nat, arquivo: Option<Arquivo>) returns (r: Result<(), Erro>)
    modifies t
    ensures r.Ok? <==> arquivo.Some? && 0 < arquivo.value.tamanho <= TamanhoMaximo
                       && arquivo.value.contentType == Some("application/pdf")
    ensures r.Ok? ==> t.State() == old(t.State()).(arquivoPdf := Some(CaminhoUpload(id, arquivo.value)),
                                                   tamanhoArquivoBytes := Some(arquivo.value.tamanho))
    ensures r.Ok? ==> TemArquivo(t.State())
    ensures r.Err? ==> t.State() == old(t.State())
                       && r.error == (if arquivo.None? || arquivo.value.tamanho <= 0 then ArquivoVazio
                                      else if arquivo.value.tamanho > TamanhoMaximo then ArquivoMuitoGrande
                                      else ArquivoNaoPdf)
  {
    if arquivo.None? || arquivo.value.tamanho <= 0 {
      return Err(ArquivoVazio);
    }
    if arquivo.value.tamanho > TamanhoMaximo {
      return Err(ArquivoMuitoGrande);
    }
    var contentType := arquivo.value.contentType;
    if contentType.None? || contentType.value != "application/pdf" {
      return Err(ArquivoNaoPdf);
    }
    var path := "/uploads/trabalhos/" + DecimalString(id) + "/" + TextoOuNull(arquivo.value.nomeOriginal);
    t.arquivoPdf := Some(path);
    t.tamanhoArquivoBytes := Some(arquivo.value.tamanho);
    return Ok(());
  }

  /** downloadArquivo: a thesis with a PDF counts one more download and returns the placeholder
      content naming the id. */
  method DownloadArquivo(t: TrabalhoConclusao, id: nat) returns (r: Result<string, Erro>)
    modifies t
    ensures r.Ok? <==> old(TemArquivo(t.State()))
    ensures r.Ok? ==> t.State() == old(t.State()).(downloadsCount := Some(Incrementado(old(t.downloadsCount))))
                      && r.value == "Conteúdo simulado do PDF do trabalho " + DecimalString(id)
    ensures r.Err? ==> r.error == SemArquivoPdf && t.State() == old(t.State())
  {
    if !TemArquivo(t.State()) {
      return Err(SemArquivoPdf);
    }
    t.IncrementarDownloads();
    return Ok("Conteúdo simulado do PDF do trabalho " + DecimalString(id));
  }
}
