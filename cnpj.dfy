/**
 * The CNPJ (Brazilian company registry number) validator and formatter (CNPJValidator): fourteen
 * digits whose last two are mod-11 check digits over the first twelve and thirteen.
 */
module Cnpj {
  import opened Wrappers
  import opened JavaText

  const Pesos1: seq<int> := [5, 4, 3, 2, 9, 8, 7, 6, 5, 4, 3, 2]
  const Pesos2: seq<int> := [6, 5, 4, 3, 2, 9, 8, 7, 6, 5, 4, 3, 2]

  /** Character.getNumericValue of an ASCII digit. */
  function DigitValue(c: char): int
    requires IsDigit(c)
  {
    c as int - '0' as int
  }

  /** The weighted sum of the first n digits of s. */
  function Soma(s: string, pesos: seq<int>, n: nat): int
    requires n <= |s| && n <= |pesos| && AllDigits(s)
  {
    if n == 0 then 0 else Soma(s, pesos, n - 1) + DigitValue(s[n - 1]) * pesos[n - 1]
  }

  /** The check digit for a weighted sum: 0 when the remainder mod 11 is below 2, else 11 - remainder. */
  function DigitoVerificador(soma: int): (r: int)
    ensures 0 <= r <= 9
  {
    var resto := soma % 11;
    if resto < 2 then 0 else 11 - resto
  }

  /** cnpjLimpo.matches("(\\d)\\1{13}"): one digit repeated. */
  predicate TodosIguais(s: string) {
    forall i :: 0 <= i < |s| ==> s[i] == s[0]
  }

  /** The check-digit test on fourteen digits. */
  predicate DigitosConferem(d: string)
    requires |d| == 14 && AllDigits(d)
  {
    DigitValue(d[12]) == DigitoVerificador(Soma(d, Pesos1, 12))
    && DigitValue(d[13]) == DigitoVerificador(Soma(d, Pesos2, 13))
  }

  /** What isValid accepts: null or blank input; otherwise exactly fourteen digits once everything
      else is stripped, not all equal, with both check digits right. */
  predicate Valido(cnpj: Option<string>) {
    cnpj.None? || Trim(cnpj.value) == []
    || (var d := DigitsOnly(cnpj.value); |d| == 14 && !TodosIguais(d) && DigitosConferem(d))
  }

  /** isValid, with the two accumulation loops of the source. */
  method IsValid(cnpj: Option<string>) returns (b: bool)
    ensures b == Valido(cnpj)
  {
    if cnpj.None? || Trim(cnpj.value) == [] {
      return true;
    }
    var limpo := DigitsOnly(cnpj.value);
    if |limpo| != 14 {
      return false;
    }
    if TodosIguais(limpo) {
      return false;
    }
    var soma := 0;
    var i := 0;
    while i < 12
      invariant 0 <= i <= 12
      invariant soma == Soma(limpo, Pesos1, i)
    {
      soma := soma + DigitValue(limpo[i]) * Pesos1[i];
      i := i + 1;
    }
    var resto := soma % 11;
    var digito1 := if resto < 2 then 0 else 11 - resto;
    if DigitValue(limpo[12]) != digito1 {
      return false;
    }
    soma := 0;
    i := 0;
    while i < 13
      invariant 0 <= i <= 13
      invariant soma == Soma(limpo, Pesos2, i)
    {
      soma := soma + DigitValue(limpo[i]) * Pesos2[i];
      i := i + 1;
    }
    resto := soma % 11;
    var digito2 := if resto < 2 then 0 else 11 - resto;
    return DigitValue(limpo[13]) == digito2;
  }

  /** Input with a digit count other than fourteen is rejected unless it is blank. */
  lemma TamanhoErradoInvalido(cnpj: string)
    requires Trim(cnpj) != [] && |DigitsOnly(cnpj)| != 14
    ensures !Valido(Some(cnpj))
  {
  }

  /** Fourteen equal digits pass the check-digit arithmetic when the digit is 0, which is why the
      repeated-digit rule is needed: "00000000000000" is rejected by it alone. */
  lemma {:induction false} ZerosPassCheckDigits()
    ensures DigitosConferem("00000000000000")
    ensures !Valido(Some("00000000000000"))
  {
    var z := "00000000000000";
    assert forall i :: 0 <= i < |z| ==> z[i] == '0';
    ZeroSum(z, 12);
    ZeroSum(z, 13);
    IguaisInvalido(z);
  }

  /** Fourteen copies of one digit are rejected whatever the check digits say. */
  lemma IguaisInvalido(d: string)
    requires |d| == 14 && AllDigits(d) && TodosIguais(d)
    ensures !Valido(Some(d))
  {
    DigitsOnlyOfDigits(d);
    TrimNonEmpty(d, 0);
  }

  lemma {:induction false} ZeroSum(z: string, n: nat)
    requires n <= |z| && n <= 13 && forall i :: 0 <= i < |z| ==> z[i] == '0'
    ensures Soma(z, Pesos2, n) == 0
    ensures n <= 12 ==> Soma(z, Pesos1, n) == 0
  {
    if n > 0 {
      ZeroSum(z, n - 1);
    }
  }

  const Exemplo: string := "11222333000181"

  /** A valid example: 11.222.333/0001-81. */
  lemma ExemploValido()
    ensures Valido(Some(Exemplo))
  {
    var d := Exemplo;
    ExemploSoma1();
    assert d[1] != d[2];
    ExemploSoma2();
    assert DigitValue(d[12]) == 8 && DigitValue(d[13]) == 1;
    DigitosValidos(d);
  }

  /** Fourteen digits, not all equal, whose check digits agree, form a valid CNPJ. */
  lemma DigitosValidos(d: string)
    requires |d| == 14 && AllDigits(d) && !TodosIguais(d) && DigitosConferem(d)
    ensures Valido(Some(d))
  {
    DigitsOnlyOfDigits(d);
    TrimNonEmpty(d, 0);
  }

  lemma ExemploSoma1()
    ensures AllDigits(Exemplo) && Soma(Exemplo, Pesos1, 12) == 102
  {
    var d := Exemplo;
    assert AllDigits(d);
    assert Soma(d, Pesos1, 1) == 5;
    assert Soma(d, Pesos1, 2) == 9;
    assert Soma(d, Pesos1, 3) == 15;
    assert Soma(d, Pesos1, 4) == 19;
    assert Soma(d, Pesos1, 5) == 37;
    assert Soma(d, Pesos1, 6) == 61;
    assert Soma(d, Pesos1, 7) == 82;
    assert Soma(d, Pesos1, 8) == 100;
    assert Soma(d, Pesos1, 9) == 100;
    assert Soma(d, Pesos1, 10) == 100;
    assert Soma(d, Pesos1, 11) == 100;
    assert Soma(d, Pesos1, 12) == 102;
  }

  lemma ExemploSoma2()
    ensures AllDigits(Exemplo) && Soma(Exemplo, Pesos2, 13) == 120
  {
    var d := Exemplo;
    assert AllDigits(d);
    assert Soma(d, Pesos2, 1) == 6;
    assert Soma(d, Pesos2, 2) == 11;
    assert Soma(d, Pesos2, 3) == 19;
    assert Soma(d, Pesos2, 4) == 25;
    assert Soma(d, Pesos2, 5) == 29;
    assert Soma(d, Pesos2, 6) == 56;
    assert Soma(d, Pesos2, 7) == 80;
    assert Soma(d, Pesos2, 8) == 101;
    assert Soma(d, Pesos2, 9) == 101;
    assert Soma(d, Pesos2, 10) == 101;
    assert Soma(d, Pesos2, 11) == 101;
    assert Soma(d, Pesos2, 12) == 104;
    assert Soma(d, Pesos2, 13) == 120;
  }

  // ---------------------------------------------------------------- formatting

  /** XX.XXX.XXX/XXXX-XX of fourteen digits. */
  function Mascara(d: string): (r: string)
    requires |d| == 14
    ensures |r| == 18
  {
    d[0..2] + "." + d[2..5] + "." + d[5..8] + "/" + d[8..12] + "-" + d[12..14]
  }

  /** formatarCNPJ: null stays null; fourteen digits (after stripping) get the mask; anything else
      comes back unchanged. */
  function Formatar(cnpj: Option<string>): (r: Option<string>)
    ensures r.None? <==> cnpj.None?
    ensures cnpj.Some? && |DigitsOnly(cnpj.value)| != 14 ==> r == cnpj
    ensures cnpj.Some? && |DigitsOnly(cnpj.value)| == 14 ==> |r.value| == 18
  {
    if cnpj.None? then None
    else
      var limpo := DigitsOnly(cnpj.value);
      if |limpo| != 14 then cnpj else Some(Mascara(limpo))
  }

  /** A block of digits followed by a punctuation mark and the rest: stripping keeps the block and
      drops the mark. */
  lemma BlocoDigitos(p: string, c: char, t: string)
    requires AllDigits(p) && !IsDigit(c)
    ensures DigitsOnly(p + ([c] + t)) == p + DigitsOnly(t)
  {
    DigitsOnlyConcat(p, [c] + t);
    DigitsOnlyOfDigits(p);
    SemPontuacao(c, t);
  }

  /** A leading punctuation mark is stripped. */
  lemma SemPontuacao(c: char, t: string)
    requires !IsDigit(c)
    ensures DigitsOnly([c] + t) == DigitsOnly(t)
  {
    var s := [c] + t;
    assert s[0] == c && s[1..] == t;
    assert DigitsOnly(s) == [] + DigitsOnly(s[1..]);
  }

  /** The mask adds only punctuation: stripping it gives back the digits. */
  lemma MascaraDigits(d: string)
    requires |d| == 14 && AllDigits(d)
    ensures DigitsOnly(Mascara(d)) == d
  {
    var p1, p2, p3, p4, p5 := d[0..2], d[2..5], d[5..8], d[8..12], d[12..14];
    var t4 := p4 + ("-" + p5);
    var t3 := p3 + ("/" + t4);
    var t2 := p2 + ("." + t3);
    assert Mascara(d) == p1 + ("." + t2);
    DigitsOnlyOfDigits(p5);
    BlocoDigitos(p4, '-', p5);
    BlocoDigitos(p3, '/', t4);
    BlocoDigitos(p2, '.', t3);
    BlocoDigitos(p1, '.', t2);
    assert d == p1 + (p2 + (p3 + (p4 + p5)));
  }

  /** Formatting keeps the digits, so it keeps validity: a CNPJ is valid exactly when its formatted
      form is. */
  lemma FormatarPreservesDigitsAndValidity(cnpj: string)
    ensures DigitsOnly(Formatar(Some(cnpj)).value) == DigitsOnly(cnpj)
    ensures Valido(Formatar(Some(cnpj))) == Valido(Some(cnpj))
  {
    var d := DigitsOnly(cnpj);
    if |d| == 14 {
      MascaraDigits(d);
      var m := Mascara(d);
      assert IsDigit(m[0]) && !IsTrimmable(m[0]);
      TrimNonEmpty(m, 0);
      assert IsDigit(d[0]);
      DigitInString(cnpj, d);
    }
  }

  /** A string holding a non-trimmable character does not trim to nothing. */
  lemma TrimNonEmpty(s: string, i: nat)
    requires i < |s| && !IsTrimmable(s[i])
    ensures Trim(s) != []
  {
  }

  /** A string with at least one digit does not trim to nothing. */
  lemma {:induction false} DigitInString(s: string, d: string)
    requires d == DigitsOnly(s) && d != []
    ensures Trim(s) != []
  {
    if IsDigit(s[0]) {
      TrimNonEmpty(s, 0);
    } else {
      DigitInString(s[1..], d);
      assert forall i :: 0 <= i < |s[1..]| ==> s[1..][i] == s[i + 1];
    }
  }
}
