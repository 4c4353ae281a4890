# ppg_hub academic core in Dafny

ppg_hub is the back end of a graduate-programme management system ("PPG" is *programa de
pós-graduação*). This project models its domain layer, the part that holds rules rather than
plumbing:

- **Course offerings and enrolments.** An offering (`OfertaDisciplina`) keeps a bounded seat counter
  and a status that its five transition operations move PLANEJADA → ABERTA ⇄ FECHADA → EM_CURSO →
  CONCLUIDA (ABERTA may also go straight to EM_CURSO), or to CANCELADA. The service guards each transition; its update operation can set any
  status. An enrolment (`MatriculaDisciplina`) computes pass or fail and a
  letter grade from a mark and an attendance figure. Its service enrols, withdraws, records marks
  and attendance, and closes a whole offering in one loop.
- **Examining boards.** A board composition (`ComposicaoBanca`) is filtered and counted. The defence
  and qualification validators bound the number of full members, presidents and external members. A
  factory picks the validator for a board type. The board and member entities (`BancaEntity`,
  `MembroBancaEntity`, `Banca`) carry the board status and the invitation state.
- **Theses.** `TrabalhoConclusao` and its service move a thesis from EM_PREPARACAO through
  QUALIFICADO, DEFENDIDO and APROVADO to PUBLICADO. They also handle the PDF upload and keep
  download, view and citation counters.
- **Accounts and role bindings.** `Usuario` counts failed logins and handles the lockout and the
  password-reset token. `UsuarioProgramaRole` binds a user to a programme as ATIVO, SUSPENSO or
  DESLIGADO.
- **Lecturers, courses and students.** `Docente` counts supervisions against a limit of eight.
  `Disciplina` and its service set one credit per 15 hours and check the workload sums. `Discente`
  handles the deadline, extensions and grants.
- **Helpers.**
  - The three status enumerations, with their predicates and `fromString`.
  - The CNPJ check-digit validator and formatter.
  - CSV field escaping as section 2 of RFC 4180 describes it.
  - The OpenAlex ORCID/DOI normalisers, id extraction and recent-work count.
  - The address and main-contact formatting of `Instituicao`.

## How the model is built

Each Java file is one Dafny module with the same name.

- **Entities whose methods update fields in place.** Each becomes a `class` with those fields. A
  datatype `Fields` (or `Registro`) holds a snapshot of its state, read by `State()`. Every
  state-changing method ensures `State() == Spec(old(State()), …)`, where `Spec` is a pure function.
  The lemmas state the source's promises about that function: transitions, idempotence, what stays
  unchanged, and inverse pairs.
- **Services.** Each becomes a method over the loaded entity objects. Repository answers are
  parameters: whether a duplicate exists, how many enrolments are pending, the stored courses.
- **Exceptions.** A thrown exception becomes `Err` of a per-module error datatype, in the order the
  code checks. Java `null` becomes `Option`.
- **Loops stay loops.** These are the CNPJ check-digit sums and the batch result computation. Each
  is a `while` loop proved against a specification function. The enum `fromString` searches are
  modelled by recursion over the list of values (`FirstDesignated`). The address `StringBuilder`
  code in `Instituicao` is straight-line, in Dafny as in Java.
- **Java semantics are written out explicitly.**
  - `int` wrap-around and truncating division (`JavaNum`).
  - `BigDecimal` values as integers in hundredths, with `setScale(2, HALF_UP)`.
  - `LocalDate` as a checked calendar date, with `isBefore`, `isAfter` and `ChronoUnit.MONTHS.between`.
  - `LocalDateTime` as an instant counted in nanoseconds (`JavaTime`).
  - `trim`, `isBlank`, `contains`, `replace`, `split("/")`, `toUpperCase` and `equalsIgnoreCase`
    (`JavaText`).
- **The clock** ("today", "now") is always a parameter.

## Model

| member | source | states |
|---|---|---|
| StatusDiscente.AtivoXorFinal | src/main/java/br/edu/ppg/hub/academic/domain/enums/StatusDiscente.java:65-88 | every student status is exactly one of active (MATRICULADO, CURSANDO, QUALIFICADO, DEFENDENDO) and final (TITULADO, DESLIGADO) |
| StatusDiscente.CapabilitiesImplyAtivo | src/main/java/br/edu/ppg/hub/academic/domain/enums/StatusDiscente.java:72-81 | a status that allows enrolling in courses or defending is active, and no status allows both |
| StatusDiscente.FirstDesignated | src/main/java/br/edu/ppg/hub/academic/domain/enums/StatusDiscente.java:49-54 | the status found is among the candidates and matches the text by description or name ignoring case; none found means no candidate matches |
| StatusDiscente.FromString | src/main/java/br/edu/ppg/hub/academic/domain/enums/StatusDiscente.java:44-60 | null or blank gives null; a result names a status whose description or name equals the text ignoring case; it throws exactly when no status matches |
| StatusDiscente.Unambiguous | src/main/java/br/edu/ppg/hub/academic/domain/enums/StatusDiscente.java:16-21 | no status matches another status's description or name, so the lookup order never matters |
| StatusDiscente.FromStringUnique | src/main/java/br/edu/ppg/hub/academic/domain/enums/StatusDiscente.java:44-60 | a non-blank text that matches exactly one status parses to that status |
| StatusDiscente.FromStringRoundTrip | src/main/java/br/edu/ppg/hub/academic/domain/enums/StatusDiscente.java:44-60 | parsing a status's description or its name gives the status back |
| StatusOferta.PredicatesNest | src/main/java/br/edu/ppg/hub/academic/domain/enums/StatusOferta.java:97-126 | open enrolment implies active, active implies cancellable, grading only outside open enrolment, and cancelling is refused exactly for CONCLUIDA and CANCELADA |
| StatusOferta.FirstDesignated | src/main/java/br/edu/ppg/hub/academic/domain/enums/StatusOferta.java:83-88 | the status found matches the text by value or name ignoring case; none found means no candidate matches |
| StatusOferta.FromString | src/main/java/br/edu/ppg/hub/academic/domain/enums/StatusOferta.java:78-90 | null throws a null-status error; a result matches the text; the unknown-status error is raised exactly when nothing matches |
| StatusOferta.Unambiguous | src/main/java/br/edu/ppg/hub/academic/domain/enums/StatusOferta.java:22-47 | no status matches another status's value or name |
| StatusOferta.FromStringUnique | src/main/java/br/edu/ppg/hub/academic/domain/enums/StatusOferta.java:78-90 | a text matching exactly one status parses to it |
| StatusOferta.FromStringRoundTrip | src/main/java/br/edu/ppg/hub/academic/domain/enums/StatusOferta.java:78-90 | parsing a status's value or its name gives the status back |
| StatusMatricula.AtivoXorFinal | src/main/java/br/edu/ppg/hub/academic/domain/enums/StatusMatricula.java:97-127 | exactly one of active (MATRICULADO) and final holds; podeTrancar is isAtivo; APROVADO is final |
| StatusMatricula.FirstDesignated | src/main/java/br/edu/ppg/hub/academic/domain/enums/StatusMatricula.java:83-88 | the status found matches the text by value or name ignoring case; none found means no candidate matches |
| StatusMatricula.FromString | src/main/java/br/edu/ppg/hub/academic/domain/enums/StatusMatricula.java:78-90 | null throws a null-status error; a result matches the text; the unknown-status error is raised exactly when nothing matches |
| StatusMatricula.Unambiguous | src/main/java/br/edu/ppg/hub/academic/domain/enums/StatusMatricula.java:22-47 | no status matches another status's value or name |
| StatusMatricula.FromStringUnique | src/main/java/br/edu/ppg/hub/academic/domain/enums/StatusMatricula.java:78-90 | a text matching exactly one status parses to it |
| StatusMatricula.FromStringRoundTrip | src/main/java/br/edu/ppg/hub/academic/domain/enums/StatusMatricula.java:78-90 | parsing a status's value or its name gives the status back |
| OfertaDisciplina.VagasDisponiveis | src/main/java/br/edu/ppg/hub/academic/domain/model/OfertaDisciplina.java:221-226 | never negative; 0 when either count is null; otherwise max(0, oferecidas − ocupadas) |
| OfertaDisciplina.VagasDisponiveisExact | src/main/java/br/edu/ppg/hub/academic/domain/model/OfertaDisciplina.java:209-226 | for non-negative counts the free seats are max(0, oferecidas − ocupadas), and they are positive exactly when temVagasDisponiveis holds |
| OfertaDisciplina.Incrementar | src/main/java/br/edu/ppg/hub/academic/domain/model/OfertaDisciplina.java:270-275 | succeeds exactly when a seat is free; the new count is one more and still at most the seats offered; otherwise the no-seats error |
| OfertaDisciplina.Decrementar | src/main/java/br/edu/ppg/hub/academic/domain/model/OfertaDisciplina.java:282-287 | succeeds exactly when the count is present and positive; the new count is one less and never negative; otherwise the no-occupied-seats error |
| OfertaDisciplina.IncrementarThenDecrementar | src/main/java/br/edu/ppg/hub/academic/domain/model/OfertaDisciplina.java:270-287 | taking a free seat and releasing it restores the count |
| OfertaDisciplina.DecrementarThenIncrementar | src/main/java/br/edu/ppg/hub/academic/domain/model/OfertaDisciplina.java:270-287 | releasing a seat and taking it again restores the count |
| OfertaDisciplina.SeatsStayInRange | src/main/java/br/edu/ppg/hub/academic/domain/model/OfertaDisciplina.java:270-287 | from 0 ≤ ocupadas ≤ oferecidas both operations stay within that range |
| OfertaDisciplina.EntityAgreesWithEnum | src/main/java/br/edu/ppg/hub/academic/domain/model/OfertaDisciplina.java:233-263 | isInscricoesAbertas needs ABERTA and a free seat; podeCancelar and permiteLancarNotas agree with the enum; the entity's isAtiva is the enum's minus ABERTA and FECHADA |
| OfertaDisciplina.OfertaDisciplina.constructor | src/main/java/br/edu/ppg/hub/academic/domain/model/OfertaDisciplina.java:163-178 | a new offering is PLANEJADA with no seats taken |
| OfertaDisciplina.OfertaDisciplina.IncrementarVagasOcupadas | src/main/java/br/edu/ppg/hub/academic/domain/model/OfertaDisciplina.java:270-275 | the count grows by exactly one when a seat is free, and stays within the seats offered; otherwise the error and nothing changes |
| OfertaDisciplina.OfertaDisciplina.DecrementarVagasOcupadas | src/main/java/br/edu/ppg/hub/academic/domain/model/OfertaDisciplina.java:282-287 | the count drops by exactly one when positive and never goes negative; otherwise the error and nothing changes |
| OfertaDisciplinaService.TransicaoShape | src/main/java/br/edu/ppg/hub/academic/application/service/OfertaDisciplinaService.java:231-353 | under the five transition operations (abrirInscricoes, fecharInscricoes, iniciar, concluir, cancelar) CONCLUIDA and CANCELADA have no way out, every other status can be cancelled, only EM_CURSO reaches CONCLUIDA, and no transition stays put |
| OfertaDisciplinaService.Criar | src/main/java/br/edu/ppg/hub/academic/application/service/OfertaDisciplinaService.java:52-106 | accepted exactly when every guard passes; each refusal (duplicate, inactive course, inactive or foreign lecturer, inactive co-lecturer, end not after start) is reported in the source's order; a new offering is PLANEJADA with no seats taken and valid dates |
| OfertaDisciplinaService.Atualizar | src/main/java/br/edu/ppg/hub/academic/application/service/OfertaDisciplinaService.java:112-166 | accepted exactly when the offering is not CONCLUIDA, a new responsible lecturer is active and of the programme, a new co-lecturer is active, the merged dates are present with the end after the start, and a new seat count is not below the seats taken; each refusal is pinned in the source's order; on success the merged fields are stored, on refusal nothing changes |
| OfertaDisciplinaService.AtualizarSaltaTransicoes | src/main/java/br/edu/ppg/hub/academic/application/service/OfertaDisciplinaService.java:112-166 | a request carrying only a status passes every guard of atualizar on a non-concluded offering with valid dates and stores that status as it is, outside the transitions (CANCELADA → ABERTA, PLANEJADA → CONCLUIDA) |
| OfertaDisciplinaService.AtualizarKeepsSeats | src/main/java/br/edu/ppg/hub/academic/application/service/OfertaDisciplinaService.java:155-160 | an accepted update keeps the seats taken and 0 ≤ ocupadas ≤ oferecidas |
| OfertaDisciplinaService.AbrirInscricoes | src/main/java/br/edu/ppg/hub/academic/application/service/OfertaDisciplinaService.java:231-246 | succeeds exactly from PLANEJADA or FECHADA and ends in ABERTA, nothing else changing |
| OfertaDisciplinaService.FecharInscricoes | src/main/java/br/edu/ppg/hub/academic/application/service/OfertaDisciplinaService.java:252-267 | succeeds exactly from ABERTA and ends in FECHADA |
| OfertaDisciplinaService.Iniciar | src/main/java/br/edu/ppg/hub/academic/application/service/OfertaDisciplinaService.java:273-297 | succeeds exactly from FECHADA or ABERTA with at least minimoAlunos enrolled (when set) and ends in EM_CURSO |
| OfertaDisciplinaService.Concluir | src/main/java/br/edu/ppg/hub/academic/application/service/OfertaDisciplinaService.java:303-326 | succeeds exactly from EM_CURSO with no enrolment pending a result and ends in CONCLUIDA |
| OfertaDisciplinaService.ObservacoesComCancelamento | src/main/java/br/edu/ppg/hub/academic/application/service/OfertaDisciplinaService.java:343-348 | a blank or null reason keeps the notes; otherwise the notes end in "CANCELAMENTO: " + reason, after the old notes and a newline when there were any |
| OfertaDisciplinaService.Cancelar | src/main/java/br/edu/ppg/hub/academic/application/service/OfertaDisciplinaService.java:332-353 | succeeds exactly when the status allows cancelling; ends in CANCELADA with the reason appended to the notes |
| OfertaDisciplinaService.Deletar | src/main/java/br/edu/ppg/hub/academic/application/service/OfertaDisciplinaService.java:359-373 | deletion succeeds exactly when the offering has no enrolments |
| MatriculaDisciplina.ApprovalRules | src/main/java/br/edu/ppg/hub/academic/domain/model/MatriculaDisciplina.java:168-249 | approved iff mark ≥ 7.00 and attendance ≥ 75.00; failed iff both are present and not approved; never both; with both present one of them holds |
| MatriculaDisciplina.Conceito | src/main/java/br/edu/ppg/hub/academic/domain/model/MatriculaDisciplina.java:282-298 | one of A–E; C or better exactly when the mark is ≥ 7.00; A exactly from 9.00; E exactly below 6.00 |
| MatriculaDisciplina.ConceitoMonotone | src/main/java/br/edu/ppg/hub/academic/domain/model/MatriculaDisciplina.java:282-298 | a higher mark never gets a lower grade |
| MatriculaDisciplina.ConceitoThresholds | src/main/java/br/edu/ppg/hub/academic/domain/model/MatriculaDisciplina.java:282-298 | B exactly on [8, 9), C on [7, 8), D on [6, 7) |
| MatriculaDisciplina.CalcularConceito | src/main/java/br/edu/ppg/hub/academic/domain/model/MatriculaDisciplina.java:282-298 | null mark gives null; otherwise the grade of the mark |
| MatriculaDisciplina.ResultadoFinal | src/main/java/br/edu/ppg/hub/academic/domain/model/MatriculaDisciplina.java:257-274 | a pass becomes APROVADO/"Aprovado" with grade A, B or C; a fail becomes REPROVADO/"Reprovado" marked by absence or by mark; a missing value leaves everything but the result date |
| MatriculaDisciplina.ResultadoFinalIdempotent | src/main/java/br/edu/ppg/hub/academic/domain/model/MatriculaDisciplina.java:257-274 | computing the result twice gives the same record |
| MatriculaDisciplina.ConceitoCabeNaColunaSalvoReprovacao | src/main/java/br/edu/ppg/hub/academic/domain/model/MatriculaDisciplina.java:257-274 | the stored grade fits its 10-character column exactly when the record does not fail |
| MatriculaDisciplina.Trancamento | src/main/java/br/edu/ppg/hub/academic/domain/model/MatriculaDisciplina.java:329-336 | allowed exactly when the enrolment may be withdrawn; then TRANCADO/"Trancado" with the date, marks and grade kept |
| MatriculaDisciplina.TrancarOnce | src/main/java/br/edu/ppg/hub/academic/domain/model/MatriculaDisciplina.java:329-336 | a withdrawn enrolment is final and cannot be withdrawn again |
| MatriculaDisciplina.Arredondar | src/main/java/br/edu/ppg/hub/academic/domain/model/MatriculaDisciplina.java:305-324 | null stays null; a value with more than two places becomes the HALF_UP rounding to hundredths (`JavaNum.HalfUpBracket`: within half a hundredth, ties away from zero); one with at most two places is kept exactly |
| MatriculaDisciplina.ArredondarEmpate | src/main/java/br/edu/ppg/hub/academic/domain/model/MatriculaDisciplina.java:305-311 | ties round away from zero: 6.995 is stored as 7.00, which passes, and -7.125 as -7.13 |
| JavaNum.HundredthsHalfUp | src/main/java/br/edu/ppg/hub/academic/domain/model/MatriculaDisciplina.java:305-324 | setScale(2, HALF_UP) from more than two places meets the HALF_UP bracket: within half a hundredth, a tie going away from zero |
| JavaNum.HalfUpBracketUnique | src/main/java/br/edu/ppg/hub/academic/domain/model/MatriculaDisciplina.java:305-324 | at most one number of hundredths meets the bracket, so the rounding is HALF_UP and not HALF_DOWN or HALF_EVEN |
| MatriculaDisciplina.MatriculaDisciplina.constructor | src/main/java/br/edu/ppg/hub/academic/domain/model/MatriculaDisciplina.java:82 | a new enrolment is MATRICULADO with no marks |
| MatriculaDisciplina.MatriculaDisciplina.CalcularResultadoFinal | src/main/java/br/edu/ppg/hub/academic/domain/model/MatriculaDisciplina.java:257-274 | the new state is the computed result and the returned text is the new statusFinal |
| MatriculaDisciplina.MatriculaDisciplina.Trancar | src/main/java/br/edu/ppg/hub/academic/domain/model/MatriculaDisciplina.java:329-336 | withdraws exactly when allowed, otherwise throws and changes nothing |
| MatriculaDisciplina.MatriculaDisciplina.SetNotaFinalComArredondamento | src/main/java/br/edu/ppg/hub/academic/domain/model/MatriculaDisciplina.java:305-311 | stores `Arredondar` of the mark, the HALF_UP rounding to two places, nothing else changing |
| MatriculaDisciplina.MatriculaDisciplina.SetFrequenciaComArredondamento | src/main/java/br/edu/ppg/hub/academic/domain/model/MatriculaDisciplina.java:318-324 | stores `Arredondar` of the attendance, the HALF_UP rounding to two places, nothing else changing |
| MatriculaDisciplinaService.SeatCheckFollowsFromOpenEnrolment | src/main/java/br/edu/ppg/hub/academic/application/service/MatriculaDisciplinaService.java:64-71 | once enrolment is open both counts are present and a seat is free, so the second seat check never fires |
| MatriculaDisciplinaService.Matricular | src/main/java/br/edu/ppg/hub/academic/application/service/MatriculaDisciplinaService.java:55-104 | accepted exactly when enrolment is open, the student is active and of the programme, and not yet enrolled; each refusal (closed enrolment, inactive student, other programme, duplicate) is reported in order; on success a new MATRICULADO enrolment and one more seat taken, still within the seats offered |
| MatriculaDisciplinaService.Trancar | src/main/java/br/edu/ppg/hub/academic/application/service/MatriculaDisciplinaService.java:169-194 | accepted exactly when the enrolment is MATRICULADO, the offering not concluded and a seat is taken; refused unless MATRICULADO, then for a concluded offering, then by the seat decrement (after the enrolment was already withdrawn); on success the enrolment is withdrawn and one seat released |
| MatriculaDisciplinaService.LancarNota | src/main/java/br/edu/ppg/hub/academic/application/service/MatriculaDisciplinaService.java:200-226 | accepted exactly for MATRICULADO in an offering that allows grading and 0 ≤ mark ≤ 10; the mark is stored rounded |
| MatriculaDisciplinaService.LancarFrequencia | src/main/java/br/edu/ppg/hub/academic/application/service/MatriculaDisciplinaService.java:232-259 | accepted exactly for MATRICULADO in an offering that allows grading and 0 ≤ attendance ≤ 100 |
| MatriculaDisciplinaService.CalcularResultado | src/main/java/br/edu/ppg/hub/academic/application/service/MatriculaDisciplinaService.java:267-292 | runs exactly for MATRICULADO with both values present; afterwards APROVADO iff approved and REPROVADO otherwise |
| MatriculaDisciplinaService.ContagensSomam | src/main/java/br/edu/ppg/hub/academic/application/service/MatriculaDisciplinaService.java:307-327 | approved + failed + errors is the number of enrolments |
| MatriculaDisciplinaService.TodosSalvos | src/main/java/br/edu/ppg/hub/academic/application/service/MatriculaDisciplinaService.java:307-327 | with every save succeeding there are no errors and the approved count is the number of approved enrolments |
| MatriculaDisciplinaService.ContarPasso | src/main/java/br/edu/ppg/hub/academic/application/service/MatriculaDisciplinaService.java:307-327 | each enrolment adds one to exactly the counter its outcome names |
| MatriculaDisciplinaService.CalcularResultadosOferta | src/main/java/br/edu/ppg/hub/academic/application/service/MatriculaDisciplinaService.java:298-340 | processed = approved + failed, processed + errors = all enrolments, each counter equals its specification, and every enrolment holds its computed result |
| MatriculaDisciplinaService.Deletar | src/main/java/br/edu/ppg/hub/academic/application/service/MatriculaDisciplinaService.java:381-405 | accepted exactly when the offering is not concluded, the enrolment is MATRICULADO and a seat is taken; refused for a concluded offering, then unless MATRICULADO, then by the seat decrement; on success one seat is released |
| Cnpj.DigitoVerificador | src/main/java/br/edu/ppg/hub/validation/CNPJValidator.java:48-49 | the check digit is a single digit |
| Cnpj.IsValid | src/main/java/br/edu/ppg/hub/validation/CNPJValidator.java:19-71 | the loops compute exactly the validity predicate: null/blank valid, 14 digits after stripping, not all equal, both mod-11 check digits right |
| Cnpj.TamanhoErradoInvalido | src/main/java/br/edu/ppg/hub/validation/CNPJValidator.java:26-31 | a non-blank value without exactly 14 digits is invalid |
| Cnpj.ZerosPassCheckDigits | src/main/java/br/edu/ppg/hub/validation/CNPJValidator.java:34-66 | 14 zeros pass both check digits yet are rejected as all-equal |
| Cnpj.ExemploValido | src/main/java/br/edu/ppg/hub/validation/CNPJValidator.java:19-71 | 11222333000181 is valid |
| Cnpj.DigitosValidos | src/main/java/br/edu/ppg/hub/validation/CNPJValidator.java:19-71 | 14 digits, not all equal, with matching check digits are valid |
| Cnpj.Mascara | src/main/java/br/edu/ppg/hub/validation/CNPJValidator.java:87-92 | the mask has 18 characters |
| Cnpj.Formatar | src/main/java/br/edu/ppg/hub/validation/CNPJValidator.java:76-93 | null stays null; a value without 14 digits is returned unchanged; 14 digits give the 18-character mask |
| Cnpj.MascaraDigits | src/main/java/br/edu/ppg/hub/validation/CNPJValidator.java:81-92 | stripping the punctuation of the mask gives the 14 digits back |
| Cnpj.FormatarPreservesDigitsAndValidity | src/main/java/br/edu/ppg/hub/validation/CNPJValidator.java:26-92 | formatting keeps the digits and the validity of any value |
| ComposicaoBanca.Filter | src/main/java/com/ppghub/domain/model/ComposicaoBanca.java:25-85 | a filter keeps only members satisfying the condition and never grows the list |
| ComposicaoBanca.FilterMultiset | src/main/java/com/ppghub/domain/model/ComposicaoBanca.java:25-85 | each member kept occurs as often as in the board, the others not at all |
| ComposicaoBanca.FilterConcat | src/main/java/com/ppghub/domain/model/ComposicaoBanca.java:25-85 | filtering keeps the order of the members |
| ComposicaoBanca.FilterComplement | src/main/java/com/ppghub/domain/model/ComposicaoBanca.java:43-56 | a condition and its negation split the list into two parts whose sizes and contents add up to it |
| ComposicaoBanca.FilterFilter | src/main/java/com/ppghub/domain/model/ComposicaoBanca.java:70-85 | filtering twice is filtering once by both conditions |
| ComposicaoBanca.TitularesExactly | src/main/java/com/ppghub/domain/model/ComposicaoBanca.java:25-92 | getTitulares holds exactly the TITULAR members |
| ComposicaoBanca.Partition | src/main/java/com/ppghub/domain/model/ComposicaoBanca.java:43-120 | internal and external members partition the board; internal and external titulares add up to the titulares |
| ComposicaoBanca.TitularesExternosCommute | src/main/java/com/ppghub/domain/model/ComposicaoBanca.java:70-75 | titulares externos are the titulares among the external members |
| ComposicaoBanca.PresidentCounts | src/main/java/com/ppghub/domain/model/ComposicaoBanca.java:61-134 | temPresidente iff some member presides; exactly one president implies a president |
| ComposicaoBanca.MembroTitular | src/test/java/com/ppghub/domain/service/banca/validator/DefesaComposicaoValidatorTest.java:217-232 | the test fixture builds a TITULAR member, internal exactly when so asked and not MEMBRO_EXTERNO |
| DefesaComposicaoValidator.ValidarNumeroTitulares | src/main/java/com/ppghub/domain/service/banca/validator/DefesaComposicaoValidator.java:59-75 | accepted iff 3 ≤ titulares ≤ 5, the same check as the qualification rule |
| DefesaComposicaoValidator.ValidarPresidente | src/main/java/com/ppghub/domain/service/banca/validator/DefesaComposicaoValidator.java:77-88 | accepted iff exactly one president, the same check as the qualification rule |
| DefesaComposicaoValidator.ValidarMembrosExternos | src/main/java/com/ppghub/domain/service/banca/validator/DefesaComposicaoValidator.java:94-119 | accepted iff 1 ≤ external titulares ≤ 2; none and too many carry their counts in the error |
| DefesaComposicaoValidator.ValidarComposicao | src/main/java/com/ppghub/domain/service/banca/validator/DefesaComposicaoValidator.java:43-57 | accepted iff all three rules hold; the first failing rule in the order titulares, president, externals is reported |
| DefesaComposicaoValidator.DefesaImpliesQualificacao | src/main/java/com/ppghub/domain/service/banca/validator/QualificacaoComposicaoValidator.java:48-50 | every board the defence rules accept the qualification rules accept; when only the defence rules refuse, the externals rule is why |
| DefesaComposicaoValidator.SemExternosRejeitada | src/test/java/com/ppghub/domain/service/banca/validator/DefesaComposicaoValidatorTest.java:74-92 | three internal titulares are refused with 0 externals out of 3 |
| DefesaComposicaoValidator.TresExternosRejeitada | src/test/java/com/ppghub/domain/service/banca/validator/DefesaComposicaoValidatorTest.java:94-113 | one internal and three external titulares are refused with 3 externals out of 4 |
| DefesaComposicaoValidator.DoisInternosUmExternoAceita | src/test/java/com/ppghub/domain/service/banca/validator/DefesaComposicaoValidatorTest.java:26-39 | two internal titulares and one external are accepted |
| QualificacaoComposicaoValidator.ValidarNumeroTitulares | src/main/java/com/ppghub/domain/service/banca/validator/QualificacaoComposicaoValidator.java:58-74 | accepted iff 3 ≤ titulares ≤ 5; below and above carry the count |
| QualificacaoComposicaoValidator.ValidarPresidente | src/main/java/com/ppghub/domain/service/banca/validator/QualificacaoComposicaoValidator.java:76-87 | accepted iff exactly one president; none and several give their own errors |
| QualificacaoComposicaoValidator.ValidarComposicao | src/main/java/com/ppghub/domain/service/banca/validator/QualificacaoComposicaoValidator.java:42-56 | accepted iff 3 ≤ titulares ≤ 5 and one president, the count checked first; no rule on externals |
| QualificacaoComposicaoValidator.SoInternosAceita | src/test/java/com/ppghub/domain/service/banca/validator/QualificacaoComposicaoValidatorTest.java:26-39 | an all-internal board of three is accepted |
| QualificacaoComposicaoValidator.DoisPresidentesRejeitada | src/test/java/com/ppghub/domain/service/banca/validator/QualificacaoComposicaoValidatorTest.java:166-185 | two presidents are refused with the count 2 |
| BancaValidatorFactory.GetValidator | src/main/java/com/ppghub/domain/service/banca/validator/BancaValidatorFactory.java:41-58 | found iff some validator supports the type, and then it is the first such; otherwise the no-validator error |
| BancaValidatorFactory.Dispatch | src/test/java/com/ppghub/domain/service/banca/validator/BancaValidatorFactoryTest.java:27-104 | the three defence types go to the defence validator, the two qualification types to the qualification one, EXAME_PROFICIENCIA to the error |
| MembroBanca.Classification | src/main/java/com/ppghub/infrastructure/persistence/entity/MembroBancaEntity.java:123-160 | internal is the negation of external; titular and suplente exclude each other; confirmed and refused exclude each other |
| MembroBanca.ObservacoesComRecusa | src/main/java/com/ppghub/infrastructure/persistence/entity/MembroBancaEntity.java:197-204 | a blank or null reason keeps the notes; otherwise they end in "Motivo da recusa: " + reason, after the old notes and a newline |
| MembroBanca.Validado | src/main/java/com/ppghub/infrastructure/persistence/entity/MembroBancaEntity.java:208-240 | throws unless exactly one of lecturer and external professor is set; defaults a null invite status to PENDENTE; confirmed or refused gets a reply date, sent gets an invite date; existing dates and all other fields are kept |
| MembroBanca.ValidadoIdempotent | src/main/java/com/ppghub/infrastructure/persistence/entity/MembroBancaEntity.java:208-240 | validating a validated member again changes nothing |
| MembroBanca.MembroBancaEntity.constructor | src/main/java/com/ppghub/infrastructure/persistence/entity/MembroBancaEntity.java:73 | a new member has invite status PENDENTE and no board |
| MembroBanca.MembroBancaEntity.ConfirmarParticipacao | src/main/java/com/ppghub/infrastructure/persistence/entity/MembroBancaEntity.java:189-192 | CONFIRMADO with the reply date, nothing else changing |
| MembroBanca.MembroBancaEntity.RecusarParticipacao | src/main/java/com/ppghub/infrastructure/persistence/entity/MembroBancaEntity.java:197-204 | RECUSADO with the reply date and the reason appended to the notes |
| MembroBanca.MembroBancaEntity.Validate | src/main/java/com/ppghub/infrastructure/persistence/entity/MembroBancaEntity.java:208-240 | the new state is the validated one, or on error nothing changes |
| BancaEntity.StatusRules | src/main/java/com/ppghub/infrastructure/persistence/entity/BancaEntity.java:185-204 | podeCancelar iff podeReagendar (AGENDADA or CONFIRMADA), neither once realised; isAprovada iff one of the three APROVADO results |
| BancaEntity.Normalizada | src/main/java/com/ppghub/infrastructure/persistence/entity/BancaEntity.java:217-237 | null status becomes AGENDADA, null orientadorParticipa true, null defensaRemota false; a result is kept only when REALIZADA |
| BancaEntity.NormalizadaInvariant | src/main/java/com/ppghub/infrastructure/persistence/entity/BancaEntity.java:217-237 | after validation a board is REALIZADA iff it has a result, and validating again changes nothing |
| BancaEntity.ContarTitulares | src/main/java/com/ppghub/infrastructure/persistence/entity/BancaEntity.java:160-164 | at most the number of members |
| BancaEntity.ContarExternos | src/main/java/com/ppghub/infrastructure/persistence/entity/BancaEntity.java:169-173 | at most the number of members |
| BancaEntity.ContagensAgree | src/main/java/com/ppghub/infrastructure/persistence/entity/BancaEntity.java:160-173 | the entity counts agree with the board composition counts |
| BancaEntity.RemoverPrimeiro | src/main/java/com/ppghub/infrastructure/persistence/entity/BancaEntity.java:152-155 | List.remove drops one occurrence when present and changes nothing otherwise |
| BancaEntity.RemoverPrimeiroOrdem | src/main/java/com/ppghub/infrastructure/persistence/entity/BancaEntity.java:152-155 | the list after List.remove is the list cut around the first occurrence and joined again, so the other members keep their order |
| BancaEntity.RemoverAposAdicionar | src/main/java/com/ppghub/infrastructure/persistence/entity/BancaEntity.java:144-155 | removing a member just added restores the list |
| BancaEntity.BancaEntity.constructor | src/main/java/com/ppghub/infrastructure/persistence/entity/BancaEntity.java:67-97 | a new board is AGENDADA with the supervisor taking part, not remote, no members |
| BancaEntity.BancaEntity.MarcarComoRealizada | src/main/java/com/ppghub/infrastructure/persistence/entity/BancaEntity.java:209-213 | REALIZADA with the given result and date, so isRealizada holds; validation then fails exactly when the result is null |
| BancaEntity.BancaEntity.Validate | src/main/java/com/ppghub/infrastructure/persistence/entity/BancaEntity.java:217-237 | throws exactly for REALIZADA without a result (having set the two flag defaults); otherwise the normalised state |
| BancaEntity.BancaEntity.AddMembro | src/main/java/com/ppghub/infrastructure/persistence/entity/BancaEntity.java:144-147 | the member is appended and points back to the board |
| BancaEntity.BancaEntity.RemoveMembro | src/main/java/com/ppghub/infrastructure/persistence/entity/BancaEntity.java:152-155 | the member is removed and its board reference cleared |
| BancaEntity.AddMembroCount | src/main/java/com/ppghub/infrastructure/persistence/entity/BancaEntity.java:144-164 | adding a member raises the titular count by one exactly when it is a titular |
| Banca.StatusExclusive | src/main/java/br/edu/ppg/hub/academic/domain/model/Banca.java:258-278 | realised, scheduled and cancelled exclude each other |
| Banca.PodeRealizar | src/main/java/br/edu/ppg/hub/academic/domain/model/Banca.java:286-289 | a scheduled board without a date throws; true exactly for a scheduled board dated today or earlier |
| Banca.CancelarReagendar | src/main/java/br/edu/ppg/hub/academic/domain/model/Banca.java:297-309 | cancellable implies reschedulable and not realised; reschedulable but not cancellable exactly for "Adiada" |
| Banca.ModalidadeRules | src/main/java/br/edu/ppg/hub/academic/domain/model/Banca.java:316-336 | virtual and hybrid exclude each other; a link is needed exactly for those two |
| Banca.ResultadoRules | src/main/java/br/edu/ppg/hub/academic/domain/model/Banca.java:343-363 | needing corrections implies approved, approved implies a result, and with a result approval means anything but REPROVADO |
| Banca.TipoRules | src/main/java/br/edu/ppg/hub/academic/domain/model/Banca.java:370-381 | a board with a type is exactly one of qualification and defence |
| Banca.ArquivosPresentes | src/main/java/br/edu/ppg/hub/academic/domain/model/Banca.java:406-417 | temAta tests a path for null and empty, not blank: one space counts, "" and null do not; temPauta holds once the JSON agenda has any key, and not when it is null or empty; each ignores the other field |
| Banca.CalcularResultadoFinal | src/main/java/br/edu/ppg/hub/academic/domain/model/Banca.java:389-399 | null mark gives null; APROVADO exactly from 7.0; otherwise REPROVADO |
| Banca.PassMarkAgreesWithCourses | src/main/java/br/edu/ppg/hub/academic/domain/model/Banca.java:389-399 | the board pass mark is the course pass mark |
| TrabalhoConclusao.ProntoAceitaEmBranco | src/main/java/br/edu/ppg/hub/academic/domain/model/TrabalhoConclusao.java:420-424 | readiness tests for empty texts with `isEmpty`, not blank ones: a title and abstract of one space pass once a supervisor is set |
| TrabalhoConclusao.Incrementado | src/main/java/br/edu/ppg/hub/academic/domain/model/TrabalhoConclusao.java:429-454 | null counts as 0 and becomes 1; otherwise one more, wrapping at the int limit |
| TrabalhoConclusao.TrabalhoConclusao.constructor | src/main/java/br/edu/ppg/hub/academic/domain/model/TrabalhoConclusao.java:297-339 | a new thesis holds the request's supervisors, texts and defence date, is EM_PREPARACAO and has all counters 0 |
| TrabalhoConclusao.TrabalhoConclusao.IncrementarDownloads | src/main/java/br/edu/ppg/hub/academic/domain/model/TrabalhoConclusao.java:429-434 | only the download counter changes, by one |
| TrabalhoConclusao.TrabalhoConclusao.IncrementarVisualizacoes | src/main/java/br/edu/ppg/hub/academic/domain/model/TrabalhoConclusao.java:439-444 | only the view counter changes, by one |
| TrabalhoConclusao.TrabalhoConclusao.IncrementarCitacoes | src/main/java/br/edu/ppg/hub/academic/domain/model/TrabalhoConclusao.java:449-454 | only the citation counter changes, by one |
| TrabalhoConclusaoService.PublicadoTerminal | src/main/java/br/edu/ppg/hub/academic/application/service/TrabalhoConclusaoService.java:233-335 | no transition leaves PUBLICADO or stays put; only APROVADO is published |
| TrabalhoConclusaoService.DiscentePodeTerTrabalhoIsAtivo | src/main/java/br/edu/ppg/hub/academic/application/service/TrabalhoConclusaoService.java:70-74 | the allowed student statuses are exactly CURSANDO, QUALIFICADO, DEFENDENDO, all active |
| TrabalhoConclusaoService.Criar | src/main/java/br/edu/ppg/hub/academic/application/service/TrabalhoConclusaoService.java:57-101 | refusals in order: already has a thesis, student status, inactive supervisor, inactive co-supervisor; on success a new EM_PREPARACAO thesis with the given supervisors, title, abstract and defence date (so it counts as defended exactly when the request carries a date) and no file |
| TrabalhoConclusaoService.Atualizar | src/main/java/br/edu/ppg/hub/academic/application/service/TrabalhoConclusaoService.java:187-224 | refused for PUBLICADO and for a named inactive supervisor or co-supervisor |
| TrabalhoConclusaoService.Deletar | src/main/java/br/edu/ppg/hub/academic/application/service/TrabalhoConclusaoService.java:475-489 | refused exactly for PUBLICADO |
| TrabalhoConclusaoService.Submeter | src/main/java/br/edu/ppg/hub/academic/application/service/TrabalhoConclusaoService.java:233-253 | EM_PREPARACAO and ready leads to QUALIFICADO; otherwise the matching error and nothing changes |
| TrabalhoConclusaoService.Aprovar | src/main/java/br/edu/ppg/hub/academic/application/service/TrabalhoConclusaoService.java:262-277 | DEFENDIDO leads to APROVADO; anything else throws |
| TrabalhoConclusaoService.Reprovar | src/main/java/br/edu/ppg/hub/academic/application/service/TrabalhoConclusaoService.java:286-301 | DEFENDIDO goes back to EM_PREPARACAO; anything else throws |
| TrabalhoConclusaoService.ReprovarPermiteResubmeter | src/main/java/br/edu/ppg/hub/academic/application/service/TrabalhoConclusaoService.java:233-301 | a ready thesis sent back after its defence passes the submission guard again, so DEFENDIDO → EM_PREPARACAO → QUALIFICADO |
| TrabalhoConclusaoService.Publicar | src/main/java/br/edu/ppg/hub/academic/application/service/TrabalhoConclusaoService.java:310-335 | APROVADO with a file leads to PUBLICADO with the three URIs built from the id; otherwise the matching error |
| TrabalhoConclusaoService.UriEndsInId | src/main/java/br/edu/ppg/hub/academic/application/service/TrabalhoConclusaoService.java:327-329 | the repository URI ends in the id and different ids give different URIs |
| TrabalhoConclusaoService.CaminhoUpload | src/main/java/br/edu/ppg/hub/academic/application/service/TrabalhoConclusaoService.java:366-369 | the path is "/uploads/trabalhos/", the id, "/", then the file name |
| TrabalhoConclusaoService.UploadArquivo | src/main/java/br/edu/ppg/hub/academic/application/service/TrabalhoConclusaoService.java:345-376 | accepted exactly for a non-empty PDF of at most 50 MiB; the path and size are stored so the thesis has a file; errors in the source's order |
| TrabalhoConclusaoService.DownloadArquivo | src/main/java/br/edu/ppg/hub/academic/application/service/TrabalhoConclusaoService.java:385-403 | needs a file; raises the download count by one and returns the placeholder content naming the id |
| Usuario.LockedExactly | src/main/java/br/edu/ppg/hub/auth/domain/model/Usuario.java:381-390 | locked exactly when the lock flag is set and bloqueadaAte is present and not before now |
| Usuario.LockedEarlier | src/main/java/br/edu/ppg/hub/auth/domain/model/Usuario.java:381-390 | an account locked now was locked at every earlier instant |
| Usuario.NomeExibicao | src/main/java/br/edu/ppg/hub/auth/domain/model/Usuario.java:418-422 | the preferred name when non-blank, else the full name |
| Usuario.ComTentativa | src/main/java/br/edu/ppg/hub/auth/domain/model/Usuario.java:435-437 | null counts as 0; the attempts grow by one, nothing else changing |
| Usuario.Resetado | src/main/java/br/edu/ppg/hub/auth/domain/model/Usuario.java:442-446 | attempts 0, unlocked, no lock end, nothing else changing |
| Usuario.Bloqueado | src/main/java/br/edu/ppg/hub/auth/domain/model/Usuario.java:453-456 | locked until now plus the given minutes, nothing else changing |
| Usuario.ComResetToken | src/main/java/br/edu/ppg/hub/auth/domain/model/Usuario.java:464-467 | the token and its expiry now plus the minutes are stored, nothing else changing |
| Usuario.SemResetToken | src/main/java/br/edu/ppg/hub/auth/domain/model/Usuario.java:483-486 | token and expiry cleared, nothing else changing |
| Usuario.BloqueioVale | src/main/java/br/edu/ppg/hub/auth/domain/model/Usuario.java:381-456 | after bloquearConta(m) the account is locked from now through now + m and unlocked after |
| Usuario.ResetarDesbloqueia | src/main/java/br/edu/ppg/hub/auth/domain/model/Usuario.java:381-446 | after a reset the account is unlocked and the next failed login counts 1 |
| Usuario.ResetTokenLifecycle | src/main/java/br/edu/ppg/hub/auth/domain/model/Usuario.java:464-486 | a fresh non-blank token is valid now and exactly until its expiry; after clearing it is never valid |
| Usuario.Usuario.constructor | src/main/java/br/edu/ppg/hub/auth/domain/model/Usuario.java:120-305 | a new account has no failed attempts, is not locked and has an unverified e-mail |
| Usuario.Usuario.Username | src/main/java/br/edu/ppg/hub/auth/domain/model/Usuario.java:363-365 | the user name is the e-mail |
| Usuario.Usuario.IncrementarTentativasLogin | src/main/java/br/edu/ppg/hub/auth/domain/model/Usuario.java:435-437 | the state becomes ComTentativa of the old one |
| Usuario.Usuario.ResetarTentativasLogin | src/main/java/br/edu/ppg/hub/auth/domain/model/Usuario.java:442-446 | the state becomes Resetado of the old one |
| Usuario.Usuario.BloquearConta | src/main/java/br/edu/ppg/hub/auth/domain/model/Usuario.java:453-456 | the state becomes Bloqueado of the old one |
| Usuario.Usuario.SetResetToken | src/main/java/br/edu/ppg/hub/auth/domain/model/Usuario.java:464-467 | the state becomes ComResetToken of the old one |
| Usuario.Usuario.LimparResetToken | src/main/java/br/edu/ppg/hub/auth/domain/model/Usuario.java:483-486 | the state becomes SemResetToken of the old one |
| UsuarioProgramaRole.IsVigente | src/main/java/br/edu/ppg/hub/auth/domain/model/UsuarioProgramaRole.java:119-124 | throws on a null start date; in force exactly when active and started on or before today |
| UsuarioProgramaRole.Suspensa | src/main/java/br/edu/ppg/hub/auth/domain/model/UsuarioProgramaRole.java:129-131 | SUSPENSO and not active, dates kept |
| UsuarioProgramaRole.Reativada | src/main/java/br/edu/ppg/hub/auth/domain/model/UsuarioProgramaRole.java:136-138 | ATIVO with dates kept; active again exactly when there is no end date |
| UsuarioProgramaRole.Desligada | src/main/java/br/edu/ppg/hub/auth/domain/model/UsuarioProgramaRole.java:143-146 | DESLIGADO with the given end date or today, so no longer active |
| UsuarioProgramaRole.SuspenderReativar | src/main/java/br/edu/ppg/hub/auth/domain/model/UsuarioProgramaRole.java:112-146 | suspending and reactivating an active binding restores it; a dismissed binding stays inactive when reactivated; a suspended one is not in force |
| UsuarioProgramaRole.Criada | src/main/java/br/edu/ppg/hub/auth/domain/model/UsuarioProgramaRole.java:149-156 | a missing start date becomes today, nothing else changing |
| UsuarioProgramaRole.CriadaVigente | src/main/java/br/edu/ppg/hub/auth/domain/model/UsuarioProgramaRole.java:119-156 | after onCreate the in-force check never throws, and an active new binding is in force today |
| UsuarioProgramaRole.UsuarioProgramaRole.constructor | src/main/java/br/edu/ppg/hub/auth/domain/model/UsuarioProgramaRole.java:87 | a new binding is ATIVO with no end date |
| UsuarioProgramaRole.UsuarioProgramaRole.Suspender | src/main/java/br/edu/ppg/hub/auth/domain/model/UsuarioProgramaRole.java:129-131 | the state becomes Suspensa of the old one |
| UsuarioProgramaRole.UsuarioProgramaRole.Reativar | src/main/java/br/edu/ppg/hub/auth/domain/model/UsuarioProgramaRole.java:136-138 | the state becomes Reativada of the old one |
| UsuarioProgramaRole.UsuarioProgramaRole.Desligar | src/main/java/br/edu/ppg/hub/auth/domain/model/UsuarioProgramaRole.java:143-146 | the state becomes Desligada of the old one |
| UsuarioProgramaRole.UsuarioProgramaRole.OnCreate | src/main/java/br/edu/ppg/hub/auth/domain/model/UsuarioProgramaRole.java:149-156 | the state becomes Criada of the old one |
| Docente.OrientarRequerAtivo | src/main/java/br/edu/ppg/hub/academic/domain/model/Docente.java:255-278 | a lecturer who may supervise is active and may co-supervise; without a status neither |
| Docente.TotalOrientacoesAndamento | src/main/java/br/edu/ppg/hub/academic/domain/model/Docente.java:296-299 | master's plus doctoral ongoing supervisions, nulls as 0 (int arithmetic) |
| Docente.TotalOrientacoesConcluidas | src/main/java/br/edu/ppg/hub/academic/domain/model/Docente.java:304-307 | master's plus doctoral concluded supervisions, nulls as 0 |
| Docente.LimiteMonotone | src/main/java/br/edu/ppg/hub/academic/domain/model/Docente.java:313-315 | the limit is reached exactly at 8 ongoing supervisions, and one more keeps it reached |
| Docente.AbaixoDoLimite | src/main/java/br/edu/ppg/hub/academic/domain/model/Docente.java:313-315 | fewer than 4 of each kind stays below the limit |
| Docente.BolsaVigenteAntes | src/main/java/br/edu/ppg/hub/academic/domain/model/Docente.java:283-291 | a productivity grant in force today was in force on every earlier day |
| Disciplina.Classificacao | src/main/java/br/edu/ppg/hub/academic/domain/model/Disciplina.java:252-308 | never both mandatory and elective; offerable exactly while ATIVA |
| Disciplina.CreditosPara | src/main/java/br/edu/ppg/hub/academic/domain/model/Disciplina.java:262-267 | for a non-negative workload, one credit per full 15 hours (truncating division) |
| Disciplina.CalcularCreditos | src/main/java/br/edu/ppg/hub/academic/domain/model/Disciplina.java:262-267 | 0 without a workload; otherwise the credits of the workload |
| Disciplina.CreditosExatos | src/main/java/br/edu/ppg/hub/academic/domain/model/Disciplina.java:262-267 | 15·c hours give exactly c credits |
| Disciplina.ValidarCargaHoraria | src/main/java/br/edu/ppg/hub/academic/domain/model/Disciplina.java:274-281 | true only with a total, and then exactly when it is teórica + prática with nulls as 0 |
| Disciplina.Disciplina.constructor | src/main/java/br/edu/ppg/hub/academic/domain/model/Disciplina.java:40-45 | the builder: a course holding exactly the fields it is given, null where none is given |
| Disciplina.Disciplina.Novo | src/main/java/br/edu/ppg/hub/academic/domain/model/Disciplina.java:138-227 | `new`: 0 theoretical and 0 practical hours and status ATIVA from the initialisers, everything else null |
| Disciplina.Criada | src/main/java/br/edu/ppg/hub/academic/domain/model/Disciplina.java:310-321 | onCreate: a null status becomes ATIVA, a set one is kept, nothing else changes |
| Disciplina.CriadaAtiva | src/main/java/br/edu/ppg/hub/academic/domain/model/Disciplina.java:310-321 | after onCreate a course without a status can be offered; onCreate is idempotent; a `new` course passes through unchanged and fails the workload check for want of a total |
| Disciplina.Disciplina.OnCreate | src/main/java/br/edu/ppg/hub/academic/domain/model/Disciplina.java:310-321 | the state becomes Criada of the old one |
| Disciplina.Disciplina.SetStatus | src/main/java/br/edu/ppg/hub/academic/domain/model/Disciplina.java:252-254 | only the status changes |
| DisciplinaService.ValidarCargaHoraria | src/main/java/br/edu/ppg/hub/academic/application/service/DisciplinaService.java:367-378 | accepted exactly when the workload is consistent; a null total and a wrong sum give their own errors |
| DisciplinaService.CargaHorariaAgree | src/main/java/br/edu/ppg/hub/academic/application/service/DisciplinaService.java:367-378 | the service check and the entity check agree |
| DisciplinaService.ValidarCreditos | src/main/java/br/edu/ppg/hub/academic/application/service/DisciplinaService.java:383-395 | nothing to check when either value is null; otherwise accepted exactly when the credits are the workload's, the error carrying both numbers |
| DisciplinaService.CreditosAgree | src/main/java/br/edu/ppg/hub/academic/application/service/DisciplinaService.java:383-395 | the credits pass exactly when they equal the entity's calcularCreditos |
| DisciplinaService.Ativar | src/main/java/br/edu/ppg/hub/academic/application/service/DisciplinaService.java:226-241 | refused for an ATIVA course; otherwise it becomes ATIVA and can be offered |
| DisciplinaService.Desativar | src/main/java/br/edu/ppg/hub/academic/application/service/DisciplinaService.java:247-262 | refused for an INATIVA course; otherwise it becomes INATIVA and cannot be offered |
| DisciplinaService.Copia | src/main/java/br/edu/ppg/hub/academic/application/service/DisciplinaService.java:268-316 | the copy is the original in the target programme, ATIVA, all else kept |
| DisciplinaService.Duplicar | src/main/java/br/edu/ppg/hub/academic/application/service/DisciplinaService.java:268-316 | refused for an inactive target programme, then for a code it already has; otherwise a new ATIVA copy |
| DisciplinaService.CopiaPreservaValidacao | src/main/java/br/edu/ppg/hub/academic/application/service/DisciplinaService.java:268-316 | the copy can be offered and keeps the workload check and the credits |
| DisciplinaService.ContarPorPrograma | src/main/java/br/edu/ppg/hub/academic/application/service/DisciplinaService.java:322-336 | the count is at most the number of courses |
| DisciplinaService.ContarInclui | src/main/java/br/edu/ppg/hub/academic/application/service/DisciplinaService.java:322-336 | a stored course counts towards its own programme |
| DisciplinaService.DeletarComoEscrito | src/main/java/br/edu/ppg/hub/academic/application/service/DisciplinaService.java:322-336 | as written: refused whenever the programme has any stored course |
| DisciplinaService.DeletarComoEscritoSempreRecusa | src/main/java/br/edu/ppg/hub/academic/application/service/DisciplinaService.java:322-336 | as written, no stored course can ever be deleted |
| DisciplinaService.Deletar | src/main/java/br/edu/ppg/hub/academic/application/service/DisciplinaService.java:322-336 | as intended: refused exactly when the course has offerings |
| DisciplinaService.DeletarCorrigidoAceita | src/main/java/br/edu/ppg/hub/academic/application/service/DisciplinaService.java:322-336 | a stored course without offerings is deleted by the intended rule and refused by the written one |
| Discente.PodeDefenderImpliesAtivo | src/main/java/br/edu/ppg/hub/academic/domain/model/Discente.java:356-366 | a student who may defend is active and qualified; without a status neither |
| Discente.CoorientadorExterno | src/main/java/br/edu/ppg/hub/academic/domain/model/Discente.java:378-381 | without an internal co-supervisor, there is one exactly when the external name is non-blank |
| Discente.BolsaVigenteAntes | src/main/java/br/edu/ppg/hub/academic/domain/model/Discente.java:386-395 | a grant in force today was in force on every earlier day |
| Discente.TotalProrrogacoes | src/main/java/br/edu/ppg/hub/academic/domain/model/Discente.java:400-402 | the list size, 0 when null |
| Discente.ProrrogacaoConta | src/main/java/br/edu/ppg/hub/academic/domain/model/Discente.java:400-402 | one more extension raises the total by one |
| Discente.MesesAtePrazo | src/main/java/br/edu/ppg/hub/academic/domain/model/Discente.java:417-426 | never negative; 0 without a deadline or once it has passed; otherwise the whole months to it |
| Discente.MesesEPrazo | src/main/java/br/edu/ppg/hub/academic/domain/model/Discente.java:407-426 | months left mean the deadline has not passed; a passed deadline or one due today leaves 0 |
| Discente.UmAnoDePrazo | src/main/java/br/edu/ppg/hub/academic/domain/model/Discente.java:417-426 | a deadline one year ahead on the same day leaves 12 months |
| CsvReportService.ReplaceDuplica | src/main/java/br/edu/ppg/hub/integration/reports/service/CsvReportService.java:247 | replace of one quote by two doubles each quote |
| CsvReportService.EscapeCsv | src/main/java/br/edu/ppg/hub/integration/reports/service/CsvReportService.java:232-249 | null gives ""; a value without comma, quote, CR or LF is unchanged; otherwise quoted with quotes doubled (section 2 of RFC 4180) |
| CsvReportService.CsvRow | src/main/java/br/edu/ppg/hub/integration/reports/service/CsvReportService.java:215-220 | the escaped key, a comma, the escaped value, then CRLF |
| CsvReportService.LerDuplicadas | src/main/java/br/edu/ppg/hub/integration/reports/service/CsvReportService.java:247-248 | reading back doubled quotes and the closing quote gives the value |
| CsvReportService.LerCampoEscapado | src/main/java/br/edu/ppg/hub/integration/reports/service/CsvReportService.java:232-249 | reading back an escaped field gives the value, null as "" |
| CsvReportService.CsvRowRoundTrip | src/main/java/br/edu/ppg/hub/integration/reports/service/CsvReportService.java:215-249 | reading back a written row gives its key and value |
| OpenAlexService.NormalizeOrcid | src/main/java/br/edu/ppg/hub/integration/openalex/service/OpenAlexService.java:264-275 | null iff null; the result is trimmed |
| OpenAlexService.NormalizeOrcidPrefixos | src/main/java/br/edu/ppg/hub/integration/openalex/service/OpenAlexService.java:264-275 | an ORCID iD bare or behind either orcid.org prefix normalises to the trimmed iD, for every iD that does not itself contain a prefix |
| OpenAlexService.NormalizeDoi | src/main/java/br/edu/ppg/hub/integration/openalex/service/OpenAlexService.java:283-292 | null iff null; the result is trimmed |
| OpenAlexService.NormalizeDoiPrefixos | src/main/java/br/edu/ppg/hub/integration/openalex/service/OpenAlexService.java:283-292 | a DOI bare or behind either doi.org prefix normalises to the trimmed DOI, for every DOI that does not itself contain a prefix |
| OpenAlexService.NormalizeDoiExemplo | src/test/java/br/edu/ppg/hub/integration/openalex/service/OpenAlexServiceTest.java:227-248 | "https://doi.org/10.1234/test.2023.001" normalises to "10.1234/test.2023.001" |
| OpenAlexService.NormalizeDoiComH | src/main/java/br/edu/ppg/hub/integration/openalex/service/OpenAlexService.java:283-292 | a DOI containing the letter h ("10.1000/thesis") loses either prefix |
| OpenAlexService.Split | src/main/java/br/edu/ppg/hub/integration/openalex/service/OpenAlexService.java:306-307 | String.split("/"): the segments hold no "/" |
| OpenAlexService.ExtractOpenAlexId | src/main/java/br/edu/ppg/hub/integration/openalex/service/OpenAlexService.java:300-308 | null gives null; a value without "/" is returned whole; any result holds no "/" |
| OpenAlexService.ExtractOpenAlexIdDeUrl | src/main/java/br/edu/ppg/hub/integration/openalex/service/OpenAlexService.java:300-308 | the segment after the last "/" of a URL is returned |
| OpenAlexService.ExtractOpenAlexIdExemplo | src/main/java/br/edu/ppg/hub/integration/openalex/service/OpenAlexService.java:300-308 | "https://openalex.org/A1234567890" gives "A1234567890" |
| OpenAlexService.SoBarras | src/main/java/br/edu/ppg/hub/integration/openalex/service/OpenAlexService.java:300-308 | a string of slashes only makes the method throw |
| OpenAlexService.CalculateRecentWorks | src/main/java/br/edu/ppg/hub/integration/openalex/service/OpenAlexService.java:316-328 | 0 for null or empty; otherwise the works from the last five years, at most the list length |
| OpenAlexService.ContarRecentesConcat | src/main/java/br/edu/ppg/hub/integration/openalex/service/OpenAlexService.java:316-328 | the count over two lists is the sum of the counts |
| OpenAlexService.ContarRecentesTodos | src/main/java/br/edu/ppg/hub/integration/openalex/service/OpenAlexService.java:316-328 | every work counts exactly when every work has a year ≥ current − 5 |
| OpenAlexService.ContarRecentesMonotone | src/main/java/br/edu/ppg/hub/integration/openalex/service/OpenAlexService.java:316-328 | a later current year never counts more works |
| Instituicao.CodigoNormalizado | src/main/java/br/edu/ppg/hub/core/domain/model/Instituicao.java:501-503 | null stays null; a code becomes upper case and never shorter, and it equals the old one ignoring case exactly when the old one has no sharp s (ß becomes "SS") |
| JavaText.ToUpperIdempotent | src/main/java/br/edu/ppg/hub/core/domain/model/Instituicao.java:501-503 | upper-casing twice is upper-casing once; the result equals the input ignoring case exactly when the input has no sharp s |
| JavaText.ToUpperSemSharpS | src/main/java/br/edu/ppg/hub/core/domain/model/Instituicao.java:501-503 | without a sharp s, toUpperCase keeps the length and maps each character to its Character.toUpperCase |
| JavaText.ToUpperSharpSExemplo | src/main/java/br/edu/ppg/hub/core/domain/model/Instituicao.java:501-503 | "straße" becomes "STRASSE", which is not equal to it ignoring case |
| JavaText.ToUpperForaDoLatin1 | src/main/java/br/edu/ppg/hub/core/domain/model/Instituicao.java:501-503 | ÿµ becomes U+0178 U+039C, outside Latin-1, and still equals it ignoring case |
| Instituicao.CriadaComSharpS | src/main/java/br/edu/ppg/hub/core/domain/model/Instituicao.java:490-505 | onCreate on the code "straße" stores "STRASSE", which is not equal to it ignoring case |
| Instituicao.Atualizada | src/main/java/br/edu/ppg/hub/core/domain/model/Instituicao.java:521-526 | only the code changes, to its upper-case form, which matches the old code ignoring case exactly when it has no sharp s |
| Instituicao.Criada | src/main/java/br/edu/ppg/hub/core/domain/model/Instituicao.java:490-505 | null ativo becomes true, null configurações the empty map, and the code is upper-cased as toUpperCase does (ß becomes "SS"); everything else is kept |
| Instituicao.CallbacksIdempotentes | src/main/java/br/edu/ppg/hub/core/domain/model/Instituicao.java:490-526 | onUpdate twice, onUpdate after onCreate and onCreate twice change nothing more |
| Instituicao.CriadaCompleta | src/main/java/br/edu/ppg/hub/core/domain/model/Instituicao.java:490-505 | after onCreate the flag and settings are present and the code is upper case |
| Instituicao.JuntarConcat | src/main/java/br/edu/ppg/hub/core/domain/model/Instituicao.java:557-571 | appending parts in two stretches is appending them at once |
| Instituicao.EnderecoSeparado | src/main/java/br/edu/ppg/hub/core/domain/model/Instituicao.java:546-575 | when the present parts are non-empty the address is logradouro, cidade, uf in that order separated by " - " |
| Instituicao.EnderecoTresPartes | src/main/java/br/edu/ppg/hub/core/domain/model/Instituicao.java:546-575 | street, city and state give "street - city - state" |
| Instituicao.EnderecoVazio | src/main/java/br/edu/ppg/hub/core/domain/model/Instituicao.java:546-575 | a null or empty map or one without the three keys gives "" |
| Instituicao.EnderecoComNulo | src/main/java/br/edu/ppg/hub/core/domain/model/Instituicao.java:557-565 | a JSON null is written as "null" |
| Instituicao.LogradouroVazio | src/main/java/br/edu/ppg/hub/core/domain/model/Instituicao.java:557-565 | an empty street leaves no separator before the city |
| Instituicao.ComoString | src/main/java/br/edu/ppg/hub/core/domain/model/Instituicao.java:602-610 | the cast passes a string or null and throws on anything else |
| Instituicao.ContatoPrincipal | src/main/java/br/edu/ppg/hub/core/domain/model/Instituicao.java:595-615 | "" without contacts; email_principal when present; else telefone_principal when present; else "" |
| Instituicao.ContatoDeOrigem | src/main/java/br/edu/ppg/hub/core/domain/model/Instituicao.java:595-615 | a non-empty main contact is the e-mail, or the phone when there is no e-mail key |
| Instituicao.EmailPrimeiro | src/main/java/br/edu/ppg/hub/core/domain/model/Instituicao.java:602-605 | with both contacts the e-mail wins |
| Instituicao.Instituicao.constructor | src/main/java/br/edu/ppg/hub/core/domain/model/Instituicao.java:401-429 | an institution holding the given fields |
| Instituicao.Instituicao.OnCreate | src/main/java/br/edu/ppg/hub/core/domain/model/Instituicao.java:490-505 | the state becomes Criada of the old one: defaults filled in, the code upper-cased with ß as "SS" |
| Instituicao.Instituicao.OnUpdate | src/main/java/br/edu/ppg/hub/core/domain/model/Instituicao.java:521-526 | the state becomes Atualizada of the old one: only the code changes, upper-cased with ß as "SS" |
| Instituicao.Instituicao.EnderecoCompleto | src/main/java/br/edu/ppg/hub/core/domain/model/Instituicao.java:546-575 | the StringBuilder result equals the address specification |

## Left out

- The front-end session store and the login pages are not part of this model; only the Java domain layer is.
- REST controllers, JPA repositories, mappers and DTOs: they are I/O. A repository answer a guard needs is a parameter. `ofertaDisciplinaMapper.updateEntity` is modelled as "a non-null request field replaces the stored one".
- Transactions, row locks (`findByIdForUpdate`) and rollback: when a save fails, the model does not undo earlier changes.
- Logging, `save` calls and the response maps that services return are left out; only the counters those maps carry are kept.
- Clocks: `LocalDate.now()` and `LocalDateTime.now()` are parameters.
- Report file writing, `formatDecimal` (floating point), the PDF and Excel services and the OpenAlex network and sync code are left out as I/O.
- `Instituicao`: the legacy copy of the entity in another package is not modelled. JSON values other than strings and `null` are abstracted as `Outro` together with their `toString` text.
- `toUpperCase` and `equalsIgnoreCase`: case mapping covers ASCII and Latin-1 characters, including the three whose upper case leaves Latin-1 or grows: ß becomes "SS" in `toUpperCase` (and stays ß in `Character.toUpperCase`), ÿ becomes U+0178 and µ becomes U+039C. Other characters outside Latin-1 are kept as they are, where Java would case-map many of them.
- `Instituicao.CodigoNormalizado`, `Atualizada`, `Criada`, `OnCreate` and `OnUpdate` upper-case the code as `toUpperCase()` does in a default locale without special casing rules. In a Turkish or Azeri default locale Java turns "i" into "İ" (U+0130), and Lithuanian has rules of its own; the model does not follow the default locale.
- String bytes and encodings are not modelled. Strings are sequences of characters. A file size is a number of bytes.
- Entity equality (`BaseEntity.equals`, used by `List.remove`) is modelled as object identity.
- The StatusDocente, StatusVinculacao, TipoVinculo and TipoDisciplina enum sources are not part of this model. A lecturer's status is abstracted to the two flags its callers read. A role binding's status is ATIVO, SUSPENSO or DESLIGADO. `Docente.isPermanente` is not modelled.
- `Discente.concluiuCreditos` always returns `false` pending credit integration; it is not modelled.
- Builder-built entities: `BancaEntity`, `MembroBancaEntity` and `UsuarioProgramaRole` carry `@Builder`, and their field initialisers have no `@Builder.Default`, so `builder().build()` leaves those fields (status, flags, member list) null. Their constructors model `new`, which applies the initialisers; a builder-built entity is not modelled.
- The `createdAt`/`updatedAt` timestamps that `Disciplina.onCreate`, `Disciplina.onUpdate` and `OfertaDisciplina.onCreate` set are left out; `Disciplina.onUpdate` does nothing else. The null-status default of `Disciplina.onCreate` is modelled (`Disciplina.Criada`), and `Disciplina` has one constructor for the builder and one (`Novo`) for `new` with its initialisers.
- `OfertaDisciplina.onCreate` is folded into the offering's constructor: a persisted offering has status PLANEJADA and no seat taken, as the mapper's build completed by `onCreate` leaves it. An offering's status is therefore never null in the model. The waiting-list counter `listaEspera` is not modelled.
- `MembroBancaEntity.getNomeMembro` and `getEmailMembro` read the linked lecturer or external professor, which is not part of this model.
- `Banca` marks: `calcularResultadoFinal` compares the mark with 7.0 as a `BigDecimal` in hundredths, which assumes marks have at most two decimal places.
- `OpenAlexService.ExtractOpenAlexId` models Java's `split("/")`, which drops trailing empty segments. A string made only of slashes yields an empty array, so `parts[length-1]` throws. The model returns that as an error instead of excluding the input.
- `Usuario.LockedExactly`: the account counts as locked when `bloqueadaAte` equals the current instant. The code does this, since `isBefore` is false there.
- `Usuario.IsAccountNonLocked` reads `LocalDateTime.now()` twice, once for `isAfter` and once for `isBefore`. The model uses one instant `agora` for both. If the clock moves between the readings while `bloqueadaAte` equals the first one, Java reports the account unlocked and the model reports it locked.
- `OfertaDisciplinaService.Atualizar` copies the request's status through the mapper, so an update is not bound by the transitions: it can reopen a CANCELADA offering or conclude a PLANEJADA one. The model does the same, `OfertaDisciplinaService.AtualizarSaltaTransicoes` exhibits it, and `TransicaoShape` speaks only of the five transition operations.
- `TrabalhoConclusaoService.Criar` keeps, of the request fields `toEntity` copies, the supervisors, the Portuguese title and abstract and the defence date. The others (English titles, keywords, language, pages and the like) are read by no rule of the model and are not in it.
- `TrabalhoConclusaoService.Atualizar`: only the guards of `atualizar` are modelled. The mapper's field copy is not, and that copy can also overwrite the status, so an update could move a thesis to any status.
- No operation moves a thesis from QUALIFICADO to DEFENDIDO (the defence happens in the board services, which are out of scope). `Aprovar` and `Reprovar` therefore start from DEFENDIDO as the code demands.
- `MatriculaDisciplina.ConceitoCabeNaColunaSalvoReprovacao`: the stored grade "Reprovado por Falta" (and "Reprovado por Nota") is longer than the 10-character column. The model states when the text fits; the database failure itself is not modelled.
- `MatriculaDisciplinaService.SeatCheckFollowsFromOpenEnrolment`: the second seat check in `matricular` can never fire once the open-enrolment check has passed. `MatriculaDisciplinaService.Matricular` leaves that check out, and this lemma proves it redundant.
- `OfertaDisciplina.EntityAgreesWithEnum`: the entity's `isAtiva` (only EM_CURSO) is narrower than the enum's (ABERTA, FECHADA, EM_CURSO). Each is modelled as written.
- Integer widths: counters and supervision totals wrap at 32 bits like Java `int`. File sizes are Java `long`; only the 50 MiB bound matters, so sizes are unbounded naturals.

## Findings

| source | as written | input that shows it | evidently intended | confidence | as-written member | corrected member |
|---|---|---|---|---|---|---|
| src/main/java/br/edu/ppg/hub/academic/application/service/DisciplinaService.java:322-336 | `deletar` refuses with "possui ofertas" when `disciplinaRepository.countByProgramaId(programaId) > 0`, i.e. when the programme has any course at all | any stored course with a programme: it counts towards its own programme, so the count is at least 1 and deletion is always refused | refuse exactly when the course itself has offerings (the message's meaning) | not executed | DisciplinaService.DeletarComoEscritoSempreRecusa | DisciplinaService.DeletarCorrigidoAceita |
