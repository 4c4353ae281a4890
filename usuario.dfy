/**
 * A user account (entity Usuario) as far as authentication reads and updates it: the failed-login
 * counter, the timed lock, the password-reset token and the display name.  The clock is the
 * parameter agora, one reading per call.
 */
module Usuario {
  import opened Wrappers
  import opened JavaNum
  import opened JavaText
  import opened JavaTime

  /** The account fields the authentication rules read or write; every one of them may be null. */
  datatype Fields = Fields(
    nomeCompleto: Option<string>,
    nomePreferido: Option<string>,
    email: Option<string>,
    ativo: Option<bool>,
    emailVerificado: Option<bool>,
    tentativasLogin: Option<Int32>,
    contaBloqueada: Option<bool>,
    bloqueadaAte: Option<Instant>,
    resetToken: Option<string>,
    resetTokenExpira: Option<Instant>)

  // ---------------------------------------------------------------- queries

  /** isAccountNonLocked, branch for branch: a set lock flag keeps the account locked while the lock
      end is after now, and then reports it unlocked only when the end is missing or before now. */
  predicate IsAccountNonLocked(u: Fields, agora: Instant) {
    if u.contaBloqueada == Some(true) then
      if u.bloqueadaAte.Some? && u.bloqueadaAte.value > agora then false
      else u.bloqueadaAte.None? || u.bloqueadaAte.value < agora
    else true
  }

  /** The account is locked exactly when the flag is set and the lock end is present and not yet
      before now: the instant the lock ends still counts as locked. */
  lemma LockedExactly(u: Fields, agora: Instant)
    ensures !IsAccountNonLocked(u, agora) <==>
              u.contaBloqueada == Some(true) && u.bloqueadaAte.Some? && u.bloqueadaAte.value >= agora
    ensures u.contaBloqueada != Some(true) ==> IsAccountNonLocked(u, agora)
  {
  }

  /** Once locked at some instant, an account stays locked at every earlier instant. */
  lemma LockedEarlier(u: Fields, antes: Instant, agora: Instant)
    requires antes <= agora && !IsAccountNonLocked(u, agora)
    ensures !IsAccountNonLocked(u, antes)
  {
  }

  /** isEnabled: ativo is set and true. */
  predicate IsEnabled(u: Fields) {
    u.ativo == Some(true)
  }

  /** isEmailVerificado: emailVerificado is set and true. */
  predicate IsEmailVerificado(u: Fields) {
    u.emailVerificado == Some(true)
  }

  /** getNomeExibicao: the preferred name when it is present and not blank, else the full name. */
  function NomeExibicao(u: Fields): (r: Option<string>)
    ensures u.nomePreferido.Some? && !IsBlank(u.nomePreferido.value) ==> r == u.nomePreferido
    ensures u.nomePreferido.None? || IsBlank(u.nomePreferido.value) ==> r == u.nomeCompleto
    ensures r.Some? && r != u.nomeCompleto ==> !IsBlank(r.value)
  {
    if u.nomePreferido.Some? && !IsBlank(u.nomePreferido.value) then u.nomePreferido else u.nomeCompleto
  }

  /** isResetTokenValido: a non-blank token whose expiry is after now. */
  predicate IsResetTokenValido(u: Fields, agora: Instant) {
    u.resetToken.Some? && !IsBlank(u.resetToken.value)
    && u.resetTokenExpira.Some? && u.resetTokenExpira.value > agora
  }

  // ---------------------------------------------------------------- updates, as values

  /** The state after incrementarTentativasLogin: null counts as 0, then Integer + 1 (wrapping). */
  function ComTentativa(u: Fields): (r: Fields)
    ensures r.tentativasLogin.Some?
    ensures u.tentativasLogin.None? ==> r.tentativasLogin == Some(1)
    ensures u.tentativasLogin.Some? && u.tentativasLogin.value < MaxInt ==>
              r.tentativasLogin.value == u.tentativasLogin.value + 1
    ensures r.(tentativasLogin := u.tentativasLogin) == u
  {
    u.(tentativasLogin := Some(Increment(if u.tentativasLogin.None? then 0 else u.tentativasLogin.value)))
  }

  /** The state after resetarTentativasLogin: no attempts, no lock. */
  function Resetado(u: Fields): (r: Fields)
    ensures r.tentativasLogin == Some(0) && r.contaBloqueada == Some(false) && r.bloqueadaAte.None?
    ensures r.(tentativasLogin := u.tentativasLogin, contaBloqueada := u.contaBloqueada,
               bloqueadaAte := u.bloqueadaAte) == u
  {
    u.(tentativasLogin := Some(0), contaBloqueada := Some(false), bloqueadaAte := None)
  }

  /** The state after bloquearConta(minutos) at agora. */
  function Bloqueado(u: Fields, minutos: Int32, agora: Instant): (r: Fields)
    ensures r.contaBloqueada == Some(true) && r.bloqueadaAte == Some(PlusMinutes(agora, minutos))
    ensures r.(contaBloqueada := u.contaBloqueada, bloqueadaAte := u.bloqueadaAte) == u
  {
    u.(contaBloqueada := Some(true), bloqueadaAte := Some(PlusMinutes(agora, minutos)))
  }

  /** The state after setResetToken(token, expiracaoMinutos) at agora. */
  function ComResetToken(u: Fields, token: Option<string>, expiracaoMinutos: Int32, agora: Instant): (r: Fields)
    ensures r.resetToken == token && r.resetTokenExpira == Some(PlusMinutes(agora, expiracaoMinutos))
    ensures r.(resetToken := u.resetToken, resetTokenExpira := u.resetTokenExpira) == u
  {
    u.(resetToken := token, resetTokenExpira := Some(PlusMinutes(agora, expiracaoMinutos)))
  }

  /** The state after limparResetToken. */
  function SemResetToken(u: Fields): (r: Fields)
    ensures r.resetToken.None? && r.resetTokenExpira.None?
    ensures r.(resetToken := u.resetToken, resetTokenExpira := u.resetTokenExpira) == u
  {
    u.(resetToken := None, resetTokenExpira := None)
  }

  /** A lock of m > 0 minutes holds from the moment it is set until its end, and lifts strictly after. */
  lemma {:induction false} BloqueioVale(u: Fields, minutos: Int32, agora: Instant, t: Instant)
    requires minutos > 0
    ensures agora <= t <= PlusMinutes(agora, minutos) ==> !IsAccountNonLocked(Bloqueado(u, minutos, agora), t)
    ensures t > PlusMinutes(agora, minutos) ==> IsAccountNonLocked(Bloqueado(u, minutos, agora), t)
  {
    LockedExactly(Bloqueado(u, minutos, agora), t);
  }

  /** Resetting the attempts unlocks the account at every instant and leaves it counting from zero. */
  lemma ResetarDesbloqueia(u: Fields, t: Instant)
    ensures IsAccountNonLocked(Resetado(u), t)
    ensures ComTentativa(Resetado(u)).tentativasLogin == Some(1)
  {
  }

  /** A fresh non-blank token of m > 0 minutes is valid when issued; clearing it makes it invalid at
      every instant. */
  lemma ResetTokenLifecycle(u: Fields, token: string, minutos: Int32, agora: Instant, t: Instant)
    requires !IsBlank(token) && minutos > 0
    ensures IsResetTokenValido(ComResetToken(u, Some(token), minutos, agora), agora)
    ensures !IsResetTokenValido(SemResetToken(ComResetToken(u, Some(token), minutos, agora)), t)
    ensures IsResetTokenValido(ComResetToken(u, Some(token), minutos, agora), t) <==>
              t < PlusMinutes(agora, minutos)
  {
  }

  // ---------------------------------------------------------------- the entity

  class Usuario {
    var nomeCompleto: Option<string>
    var nomePreferido: Option<string>
    var email: Option<string>
    var ativo: Option<bool>
    var emailVerificado: Option<bool>
    var tentativasLogin: Option<Int32>
    var contaBloqueada: Option<bool>
    var bloqueadaAte: Option<Instant>
    var resetToken: Option<string>
    var resetTokenExpira: Option<Instant>

    function State(): Fields
      reads this
    {
      Fields(nomeCompleto, nomePreferido, email, ativo, emailVerificado, tentativasLogin, contaBloqueada,
             bloqueadaAte, resetToken, resetTokenExpira)
    }

    /** A user as the builder defaults leave it: e-mail not verified, no attempts, not locked, no token. */
    constructor (nomeCompleto: Option<string>, email: Option<string>, ativo: Option<bool>)
      ensures State() == Fields(nomeCompleto, None, email, ativo, Some(false), Some(0), Some(false), None, None, None)
    {
      this.nomeCompleto := nomeCompleto;
      this.nomePreferido := None;
      this.email := email;
      this.ativo := ativo;
      this.emailVerificado := Some(false);
      this.tentativasLogin := Some(0);
      this.contaBloqueada := Some(false);
      this.bloqueadaAte := None;
      this.resetToken := None;
      this.resetTokenExpira := None;
    }

    /** getUsername: the e-mail. */
    function Username(): (r: Option<string>)
      reads this
      ensures r == State().email
    {
      email
    }

    /** incrementarTentativasLogin. */
    method IncrementarTentativasLogin()
      modifies this
      ensures State() == ComTentativa(old(State()))
    {
      tentativasLogin := Some(Increment(if tentativasLogin.None? then 0 else tentativasLogin.value));
    }

    /** resetarTentativasLogin. */
    method ResetarTentativasLogin()
      modifies this
      ensures State() == Resetado(old(State()))
    {
      tentativasLogin := Some(0);
      contaBloqueada := Some(false);
      bloqueadaAte := None;
    }

    /** bloquearConta(minutos) at agora. */
    method BloquearConta(minutos: Int32, agora: Instant)
      modifies this
      ensures State() == Bloqueado(old(State()), minutos, agora)
    {
      contaBloqueada := Some(true);
      bloqueadaAte := Some(PlusMinutes(agora, minutos));
    }

    /** setResetToken(token, expiracaoMinutos) at agora. */
    method SetResetToken(token: Option<string>, expiracaoMinutos: Int32, agora: Instant)
      modifies this
      ensures State() == ComResetToken(old(State()), token, expiracaoMinutos, agora)
    {
      resetToken := token;
      resetTokenExpira := Some(PlusMinutes(agora, expiracaoMinutos));
    }

    /** limparResetToken. */
    method LimparResetToken()
      modifies this
      ensures State() == SemResetToken(old(State()))
    {
      resetToken := None;
      resetTokenExpira := None;
    }
  }
}
