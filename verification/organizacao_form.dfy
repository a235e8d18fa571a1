/**
 * The input masks and checks of the organisation form page: the CNPJ and
 * phone masks applied on every keystroke, the three field validators, and
 * the order in which submission reports the first problem.
 */
module OrganizacaoForm {
  import opened Text
  import opened Validators
  import opened Outcomes

  /** s with sep placed before position p: s.substring(0, p) + sep + s.substring(p). */
  function InsertAt(s: string, p: nat, sep: string): (r: string)
    requires p <= |s|
    ensures |r| == |s| + |sep|
    ensures forall i :: 0 <= i < |r| ==> r[i] == if i < p then s[i] else if i < p + |sep| then sep[i - p] else s[i - |sep|]
  {
    s[..p] + sep + s[p..]
  }

  predicate NoDigits(sep: string) {
    forall i :: 0 <= i < |sep| ==> !IsDigit(sep[i])
  }

  lemma {:induction false} InsertKeepsDigits(s: string, p: nat, sep: string)
    requires p <= |s| && NoDigits(sep)
    ensures Digits(InsertAt(s, p, sep)) == Digits(s)
  {
    DigitsInsert(s, p, sep);
  }

  /** value.replace(/\D/g, '').substring(0, n): the first n digits typed. */
  function LeadingDigits(value: string, n: nat): (l: string)
    ensures |l| == if |Digits(value)| <= n then |Digits(value)| else n
    ensures AllDigits(l)
  {
    DigitsAreDigits(value);
    Take(Digits(value), n)
  }

  // ================================================================ CNPJ

  /** The mask NN.NNN.NNN/NNNN-NN applied to at most 14 digits, one separator at a time. */
  function MaskCnpj(limited: string): (r: string)
    requires |limited| <= 14
  {
    var f1 := if |limited| > 2 then InsertAt(limited, 2, ".") else limited;
    var f2 := if |limited| > 5 then InsertAt(f1, 6, ".") else f1;
    var f3 := if |limited| > 8 then InsertAt(f2, 10, "/") else f2;
    if |limited| > 12 then InsertAt(f3, 15, "-") else f3
  }

  /** formatCNPJ: keep the first 14 digits of the input and apply the mask. */
  function FormatCnpj(value: string): string {
    MaskCnpj(LeadingDigits(value, 14))
  }

  /** The characters the CNPJ mask adds. */
  predicate CnpjSeparator(c: char) {
    c == '.' || c == '/' || c == '-'
  }

  predicate DigitsOrCnpjSeparators(s: string) {
    forall i :: 0 <= i < |s| ==> IsDigit(s[i]) || CnpjSeparator(s[i])
  }

  lemma {:induction false} InsertCnpjSeparator(s: string, p: nat, sep: string)
    requires p <= |s| && |sep| == 1 && CnpjSeparator(sep[0]) && DigitsOrCnpjSeparators(s)
    ensures Digits(InsertAt(s, p, sep)) == Digits(s)
    ensures DigitsOrCnpjSeparators(InsertAt(s, p, sep))
  {
    assert NoDigits(sep) by {
      assert !IsDigit(sep[0]);
    }
    InsertKeepsDigits(s, p, sep);
    var r := InsertAt(s, p, sep);
    forall i | 0 <= i < |r|
      ensures IsDigit(r[i]) || CnpjSeparator(r[i])
    {
      if i < p {
        assert r[i] == s[i];
      } else if i == p {
        assert r[i] == sep[0];
      } else {
        assert r[i] == s[i - 1];
      }
    }
  }

  /**
   * The mask keeps exactly the digits it was given, in order, and adds
   * nothing but the separators . / and -.
   */
  lemma {:induction false} MaskCnpjKeepsDigits(limited: string)
    requires |limited| <= 14 && AllDigits(limited)
    ensures Digits(MaskCnpj(limited)) == limited
    ensures DigitsOrCnpjSeparators(MaskCnpj(limited))
  {
    var n := |limited|;
    DigitsOfDigits(limited);
    var f1 := limited;
    if n > 2 { InsertCnpjSeparator(limited, 2, "."); f1 := InsertAt(limited, 2, "."); }
    var f2 := f1;
    if n > 5 { InsertCnpjSeparator(f1, 6, "."); f2 := InsertAt(f1, 6, "."); }
    var f3 := f2;
    if n > 8 { InsertCnpjSeparator(f2, 10, "/"); f3 := InsertAt(f2, 10, "/"); }
    var f4 := f3;
    if n > 12 { InsertCnpjSeparator(f3, 15, "-"); f4 := InsertAt(f3, 15, "-"); }
    assert f4 == MaskCnpj(limited);
  }

  /** formatCNPJ keeps exactly the first 14 digits of its input and adds only separators. */
  lemma {:induction false} FormatCnpjKeepsDigits(value: string)
    ensures Digits(FormatCnpj(value)) == LeadingDigits(value, 14)
    ensures DigitsOrCnpjSeparators(FormatCnpj(value))
  {
    MaskCnpjKeepsDigits(LeadingDigits(value, 14));
  }

  /** The character the complete CNPJ mask puts at position i of 18, given the 14 digits l. */
  function CnpjMaskAt(l: string, i: int): char
    requires |l| == 14 && 0 <= i < 18
  {
    if i == 2 || i == 6 then '.' else if i == 10 then '/' else if i == 15 then '-'
    else if i < 2 then l[i] else if i < 6 then l[i - 1] else if i < 10 then l[i - 2]
    else if i < 15 then l[i - 3] else l[i - 4]
  }

  /** With all 14 digits present the mask is complete, with the separators in their places. */
  lemma {:induction false} MaskCnpjFull(l: string)
    requires |l| == 14
    ensures |MaskCnpj(l)| == 18
    ensures forall i :: 0 <= i < 18 ==> MaskCnpj(l)[i] == CnpjMaskAt(l, i)
  {
    var f1 := InsertAt(l, 2, ".");
    var f2 := InsertAt(f1, 6, ".");
    var f3 := InsertAt(f2, 10, "/");
    var f4 := InsertAt(f3, 15, "-");
    assert f4 == MaskCnpj(l);
    forall i | 0 <= i < 18
      ensures f4[i] == CnpjMaskAt(l, i)
    {
      if i != 15 {
        var j := if i < 15 then i else i - 1;
        assert f4[i] == f3[j];
        if j != 10 {
          var k := if j < 10 then j else j - 1;
          assert f3[j] == f2[k];
          if k != 6 {
            var m := if k < 6 then k else k - 1;
            assert f2[k] == f1[m];
            if m != 2 { assert f1[m] == l[if m < 2 then m else m - 1]; }
          }
        }
      }
    }
  }

  /** With at least 14 digits in the input, formatCNPJ yields a CNPJ the backend accepts. */
  lemma {:induction false} FormatCnpjMatchesBackend(value: string)
    requires |Digits(value)| >= 14
    ensures IsCnpj(FormatCnpj(value))
  {
    var l := LeadingDigits(value, 14);
    assert AllDigits(l);
    MaskCnpjFull(l);
    var r := MaskCnpj(l);
    forall i | 0 <= i < 18
      ensures if i == 2 || i == 6 then r[i] == '.' else if i == 10 then r[i] == '/' else if i == 15 then r[i] == '-' else IsDigit(r[i])
    {
      assert r[i] == CnpjMaskAt(l, i);
    }
  }

  /** Reformatting a formatted CNPJ changes nothing: every keystroke is safe. */
  lemma {:induction false} FormatCnpjIdempotent(value: string)
    ensures FormatCnpj(FormatCnpj(value)) == FormatCnpj(value)
  {
    FormatCnpjKeepsDigits(value);
    var l := LeadingDigits(value, 14);
    assert Take(l, 14) == l;
  }

  /** The 14 digits of a CNPJ in the backend format, read around its separators. */
  function CnpjDigits(s: string): (l: string)
    requires |s| == 18
    ensures |l| == 14
  {
    seq(14, j requires 0 <= j < 14 =>
      s[if j < 2 then j else if j < 5 then j + 1 else if j < 8 then j + 2 else if j < 12 then j + 3 else j + 4])
  }

  lemma {:induction false} CnpjDigitsAreDigits(s: string)
    requires IsCnpj(s)
    ensures AllDigits(CnpjDigits(s))
  {
    var l := CnpjDigits(s);
    forall j | 0 <= j < 14 ensures IsDigit(l[j]) {
      if j < 2 { assert l[j] == s[j]; }
      else if j < 5 { assert l[j] == s[j + 1]; }
      else if j < 8 { assert l[j] == s[j + 2]; }
      else if j < 12 { assert l[j] == s[j + 3]; }
      else { assert l[j] == s[j + 4]; }
    }
  }

  /** Masking the digits of a CNPJ in the backend format rebuilds it. */
  lemma {:induction false} CnpjRemasked(s: string)
    requires IsCnpj(s)
    ensures MaskCnpj(CnpjDigits(s)) == s
  {
    var l := CnpjDigits(s);
    MaskCnpjFull(l);
    forall i | 0 <= i < 18 ensures MaskCnpj(l)[i] == s[i] {
      assert MaskCnpj(l)[i] == CnpjMaskAt(l, i);
    }
  }

  /** A CNPJ already in the backend format is left as it is by the mask. */
  lemma {:induction false} FormatCnpjFixesBackendFormat(s: string)
    requires IsCnpj(s)
    ensures FormatCnpj(s) == s
  {
    var l := CnpjDigits(s);
    CnpjDigitsAreDigits(s);
    CnpjRemasked(s);
    MaskCnpjKeepsDigits(l);
    assert Take(l, 14) == l;
  }

  /** validateCNPJ: the input holds exactly 14 digits, however they are punctuated. */
  predicate ValidateCnpj(cnpj: string) {
    |Digits(cnpj)| == 14
  }

  /** The form's CNPJ check accepts a masked value exactly when 14 digits were typed. */
  lemma {:induction false} ValidateFormattedCnpj(value: string)
    ensures ValidateCnpj(FormatCnpj(value)) <==> |Digits(value)| >= 14
  {
    FormatCnpjKeepsDigits(value);
  }

  // ================================================================ phone

  /** The mask (NN) NNNNN-NNNN applied to at most 11 digits, as written. */
  function MaskTelefone(limited: string): (r: string)
    requires |limited| <= 11
  {
    var f1 := if |limited| > 0 then "(" + limited else limited;
    var f2 := if |limited| > 2 then InsertAt(f1, 3, ") ") else f1;
    if |limited| > 7 then InsertAt(f2, 10, "-") else f2
  }

  /** formatTelefone: keep the first 11 digits of the input and apply the mask. */
  function FormatTelefone(value: string): string {
    MaskTelefone(LeadingDigits(value, 11))
  }

  lemma {:induction false} MaskTelefoneKeepsDigits(limited: string)
    requires |limited| <= 11 && AllDigits(limited)
    ensures Digits(MaskTelefone(limited)) == limited
  {
    var n := |limited|;
    DigitsOfDigits(limited);
    var f1 := limited;
    if n > 0 {
      InsertKeepsDigits(limited, 0, "(");
      f1 := InsertAt(limited, 0, "(");
      assert f1 == "(" + limited;
    }
    var f2 := f1;
    if n > 2 { InsertKeepsDigits(f1, 3, ") "); f2 := InsertAt(f1, 3, ") "); }
    var f3 := f2;
    if n > 7 { InsertKeepsDigits(f2, 10, "-"); f3 := InsertAt(f2, 10, "-"); }
    assert f3 == MaskTelefone(limited);
  }

  /**
   * formatTelefone keeps exactly the first 11 digits; a non-empty result
   * opens with '(' and carries ") " after the second digit once there is a
   * third.
   */
  lemma {:induction false} FormatTelefoneShape(value: string)
    ensures var l := LeadingDigits(value, 11); var r := FormatTelefone(value);
      && Digits(r) == l
      && (r != [] <==> l != [])
      && (r != [] ==> r[0] == '(')
      && (|l| > 2 ==> |r| >= 5 && r[3..5] == ") ")
  {
    var l := LeadingDigits(value, 11);
    MaskTelefoneKeepsDigits(l);
    var n := |l|;
    var f1 := if n > 0 then "(" + l else l;
    var f2 := f1;
    if n > 2 {
      f2 := InsertAt(f1, 3, ") ");
      assert f2[3..5] == ") ";
    }
    var f3 := f2;
    if n > 7 {
      f3 := InsertAt(f2, 10, "-");
      assert f3[3..5] == f2[3..5];
    }
    assert f3 == FormatTelefone(value);
  }

  /** formatTelefone writes a hyphen, at position 10, exactly when more than 7 digits were typed. */
  lemma {:induction false} FormatTelefoneHyphen(value: string)
    ensures var l := LeadingDigits(value, 11); var r := FormatTelefone(value);
      && ((exists i :: 0 <= i < |r| && r[i] == '-') <==> |l| > 7)
      && (|l| > 7 ==> r[10] == '-')
  {
    var l := LeadingDigits(value, 11);
    var n := |l|;
    var f1 := if n > 0 then "(" + l else l;
    assert forall i :: 0 <= i < |f1| ==> f1[i] != '-';
    var f2 := f1;
    if n > 2 {
      f2 := InsertAt(f1, 3, ") ");
    }
    assert forall i :: 0 <= i < |f2| ==> f2[i] != '-';
    var f3 := f2;
    if n > 7 {
      f3 := InsertAt(f2, 10, "-");
      assert f3[10] == '-';
    }
    assert f3 == FormatTelefone(value);
  }

  /**
   * r is a complete phone mask of the digits l with the hyphen at position
   * k: "(", two digits, ") ", the digits up to k, "-", the remaining digits.
   */
  predicate PhoneLayout(r: string, l: string, k: int) {
    && |l| >= 3 && 5 <= k < |r| && |r| == |l| + 4
    && r[0] == '(' && r[1] == l[0] && r[2] == l[1] && r[3] == ')' && r[4] == ' '
    && (forall i :: 5 <= i < k ==> r[i] == l[i - 3])
    && r[k] == '-'
    && (forall i :: k < i < |r| ==> r[i] == l[i - 4])
  }

  /**
   * The backend accepts such a mask exactly when the hyphen is followed by
   * four digits and preceded by four or five.
   */
  lemma {:induction false} PhoneLayoutAccepted(r: string, l: string, k: int)
    requires PhoneLayout(r, l, k) && AllDigits(l)
    ensures IsPhone(r) <==> |r| - 1 - k == 4 && 9 <= k <= 10
  {
    var sub := r[5..];
    assert IsSpace(r[4]);
    assert IsPhone(r) <==> IsSubscriberNumber(sub);
    assert !AllDigits(sub) by { assert sub[k - 5] == '-'; }
    if |sub| == 9 || |sub| == 10 {
      if |r| - 5 == k {
        var head, tail := sub[..|sub| - 5], sub[|sub| - 4..];
        assert AllDigits(head) by {
          forall i | 0 <= i < |head| ensures IsDigit(head[i]) {
            assert head[i] == r[i + 5] == l[i + 2];
          }
        }
        assert AllDigits(tail) by {
          forall i | 0 <= i < 4 ensures IsDigit(tail[i]) {
            assert tail[i] == r[|r| - 4 + i] == l[|r| - 8 + i];
          }
        }
      } else {
        var j := |r| - 5;
        assert sub[|sub| - 5] == r[j];
        assert IsDigit(r[j]) by {
          if j < k { assert r[j] == l[j - 3]; } else { assert r[j] == l[j - 4]; }
        }
      }
    }
  }

  /** With more than 7 digits the mask has the layout above, with the hyphen at position 10. */
  lemma {:induction false} MaskTelefoneLayout(l: string)
    requires 7 < |l| <= 11
    ensures PhoneLayout(MaskTelefone(l), l, 10)
  {
    assert MaskTelefone(l) == InsertAt(InsertAt("(" + l, 3, ") "), 10, "-");
    HyphenatedLayout(l, 10);
  }

  /** "(" before the digits l, ") " after the second, "-" at position k: the layout above. */
  lemma {:induction false} HyphenatedLayout(l: string, k: int)
    requires 3 <= |l| && 5 <= k <= |l| + 3
    ensures PhoneLayout(InsertAt(InsertAt("(" + l, 3, ") "), k, "-"), l, k)
  {
    var f1 := "(" + l;
    var f2 := InsertAt(f1, 3, ") ");
    var f3 := InsertAt(f2, k, "-");
    forall i | 5 <= i < k ensures f3[i] == l[i - 3] { assert f3[i] == f2[i] == f1[i - 2]; }
    forall i | k < i < |f3| ensures f3[i] == l[i - 4] { assert f3[i] == f2[i - 1] == f1[i - 3]; }
  }

  /** For 11 digits the mask yields (DD) DDDDD-DDDD, which the backend accepts. */
  lemma {:induction false} FormatTelefoneElevenDigits(value: string)
    requires |Digits(value)| >= 11
    ensures PhoneLayout(FormatTelefone(value), LeadingDigits(value, 11), 10)
    ensures IsPhone(FormatTelefone(value))
  {
    var l := LeadingDigits(value, 11);
    MaskTelefoneLayout(l);
    PhoneLayoutAccepted(FormatTelefone(value), l, 10);
  }

  /** Reformatting a formatted phone number changes nothing. */
  lemma {:induction false} FormatTelefoneIdempotent(value: string)
    ensures FormatTelefone(FormatTelefone(value)) == FormatTelefone(value)
  {
    var l := LeadingDigits(value, 11);
    MaskTelefoneKeepsDigits(l);
    assert Take(l, 11) == l;
  }

  /**
   * As written, ten digits are masked as (DD) DDDDD-DDD: the hyphen sits
   * before the last three digits, and the backend rejects the result,
   * although the form's own check accepts it.
   */
  lemma {:induction false} FormatTelefoneTenDigitsRejected(value: string)
    requires |Digits(value)| == 10
    ensures PhoneLayout(FormatTelefone(value), Digits(value), 10)
    ensures ValidateTelefone(FormatTelefone(value))
    ensures !IsPhone(FormatTelefone(value))
  {
    var l := Digits(value);
    DigitsAreDigits(value);
    assert Take(l, 11) == l;
    MaskTelefoneKeepsDigits(l);
    MaskTelefoneLayout(l);
    PhoneLayoutAccepted(FormatTelefone(value), l, 10);
  }

  /**
   * The mask the comment beside formatTelefone describes: (NN) NNNNN-NNNN
   * for 11 digits and (NN) NNNN-NNNN otherwise, so the hyphen always precedes
   * the last four digits of a complete number.
   */
  function MaskTelefoneFixed(limited: string): (r: string)
    requires |limited| <= 11
  {
    var f1 := if |limited| > 0 then "(" + limited else limited;
    var f2 := if |limited| > 2 then InsertAt(f1, 3, ") ") else f1;
    if |limited| == 11 then InsertAt(f2, 10, "-")
    else if |limited| > 6 then InsertAt(f2, 9, "-")
    else f2
  }

  function FormatTelefoneFixed(value: string): string {
    MaskTelefoneFixed(LeadingDigits(value, 11))
  }

  lemma {:induction false} MaskTelefoneFixedKeepsDigits(limited: string)
    requires |limited| <= 11 && AllDigits(limited)
    ensures Digits(MaskTelefoneFixed(limited)) == limited
  {
    var n := |limited|;
    DigitsOfDigits(limited);
    var f1 := limited;
    if n > 0 {
      InsertKeepsDigits(limited, 0, "(");
      f1 := InsertAt(limited, 0, "(");
      assert f1 == "(" + limited;
    }
    var f2 := f1;
    if n > 2 { InsertKeepsDigits(f1, 3, ") "); f2 := InsertAt(f1, 3, ") "); }
    var f3 := f2;
    if n == 11 { InsertKeepsDigits(f2, 10, "-"); f3 := InsertAt(f2, 10, "-"); }
    else if n > 6 { InsertKeepsDigits(f2, 9, "-"); f3 := InsertAt(f2, 9, "-"); }
    assert f3 == MaskTelefoneFixed(limited);
  }

  /** The corrected mask keeps the digits and is idempotent, like the original. */
  lemma {:induction false} FormatTelefoneFixedIdempotent(value: string)
    ensures Digits(FormatTelefoneFixed(value)) == LeadingDigits(value, 11)
    ensures FormatTelefoneFixed(FormatTelefoneFixed(value)) == FormatTelefoneFixed(value)
  {
    var l := LeadingDigits(value, 11);
    MaskTelefoneFixedKeepsDigits(l);
    assert Take(l, 11) == l;
  }

  /** With 10 or 11 digits the corrected mask has the layout above, with the hyphen before the last four digits. */
  lemma {:induction false} MaskTelefoneFixedLayout(l: string)
    requires 10 <= |l| <= 11
    ensures PhoneLayout(MaskTelefoneFixed(l), l, |l| - 1)
  {
    assert MaskTelefoneFixed(l) == InsertAt(InsertAt("(" + l, 3, ") "), |l| - 1, "-");
    HyphenatedLayout(l, |l| - 1);
  }

  /** Every complete number the corrected mask produces, 10 or 11 digits, is accepted by the backend. */
  lemma {:induction false} FormatTelefoneFixedMatchesBackend(value: string)
    requires |Digits(value)| >= 10
    ensures IsPhone(FormatTelefoneFixed(value))
  {
    var l := LeadingDigits(value, 11);
    MaskTelefoneFixedLayout(l);
    PhoneLayoutAccepted(FormatTelefoneFixed(value), l, |l| - 1);
  }

  // ================================================================ checks

  /** validateTelefone: 10 or 11 digits, however punctuated. */
  predicate ValidateTelefone(telefone: string) {
    10 <= |Digits(telefone)| <= 11
  }

  /** validateEmail: the same expression the backend uses. */
  predicate ValidateEmail(email: string) {
    IsEmail(email)
  }

  /** The form's phone check accepts a masked value exactly when at least 10 digits were typed. */
  lemma {:induction false} ValidateFormattedTelefone(value: string)
    ensures ValidateTelefone(FormatTelefone(value)) <==> |Digits(value)| >= 10
  {
    var l := LeadingDigits(value, 11);
    MaskTelefoneKeepsDigits(l);
  }

  /** The values of the form's text fields. */
  datatype FormFields = FormFields(
    nome: string, cnpj: string, responsavel: string,
    telefone: string, email: string, endereco: string)

  const NomeObrigatorio := "Nome é obrigatório"
  const CnpjObrigatorio := "CNPJ é obrigatório"
  const CnpjInvalido := "CNPJ inválido. Use o formato NN.NNN.NNN/NNNN-NN"
  const ResponsavelObrigatorio := "Responsável é obrigatório"
  const TelefoneObrigatorio := "Telefone é obrigatório"
  const TelefoneInvalido := "Telefone inválido. Informe DDD e número com 8 ou 9 dígitos"
  const EmailObrigatorio := "Email é obrigatório"
  const EmailInvalido := "Email inválido"

  predicate Blank(s: string) {
    Trim(s) == []
  }

  /** handleSubmit: None when the form may be sent, otherwise the message of the first failed check. */
  function SubmitError(f: FormFields): (r: Option<string>)
    ensures r.None? <==> !Blank(f.nome) && ValidateCnpj(f.cnpj) && !Blank(f.responsavel)
                         && ValidateTelefone(f.telefone) && ValidateEmail(f.email)
  {
    BlankHasNoDigits(f.cnpj);
    BlankHasNoDigits(f.telefone);
    if Blank(f.nome) then Some(NomeObrigatorio)
    else if Blank(f.cnpj) then Some(CnpjObrigatorio)
    else if !ValidateCnpj(f.cnpj) then Some(CnpjInvalido)
    else if Blank(f.responsavel) then Some(ResponsavelObrigatorio)
    else if Blank(f.telefone) then Some(TelefoneObrigatorio)
    else if !ValidateTelefone(f.telefone) then Some(TelefoneInvalido)
    else if Blank(f.email) then Some(EmailObrigatorio)
    else if !ValidateEmail(f.email) then Some(EmailInvalido)
    else
      None
  }

  /** A field that is present but malformed is reported only after every earlier field passed. */
  lemma {:induction false} SubmitReportsFirstFailure(f: FormFields)
    ensures SubmitError(f) == Some(CnpjInvalido) <==> !Blank(f.nome) && !Blank(f.cnpj) && !ValidateCnpj(f.cnpj)
    ensures SubmitError(f) == Some(TelefoneInvalido) <==>
      !Blank(f.nome) && ValidateCnpj(f.cnpj) && !Blank(f.responsavel) && !Blank(f.telefone) && !ValidateTelefone(f.telefone)
    ensures SubmitError(f) == Some(EmailInvalido) <==>
      !Blank(f.nome) && ValidateCnpj(f.cnpj) && !Blank(f.responsavel) && ValidateTelefone(f.telefone)
      && !Blank(f.email) && !ValidateEmail(f.email)
  {
    BlankHasNoDigits(f.cnpj);
    BlankHasNoDigits(f.telefone);
  }

  /** A required field that is blank is reported only after every earlier field passed. */
  lemma {:induction false} SubmitReportsFirstMissing(f: FormFields)
    ensures SubmitError(f) == Some(NomeObrigatorio) <==> Blank(f.nome)
    ensures SubmitError(f) == Some(CnpjObrigatorio) <==> !Blank(f.nome) && Blank(f.cnpj)
    ensures SubmitError(f) == Some(ResponsavelObrigatorio) <==>
      !Blank(f.nome) && ValidateCnpj(f.cnpj) && Blank(f.responsavel)
    ensures SubmitError(f) == Some(TelefoneObrigatorio) <==>
      !Blank(f.nome) && ValidateCnpj(f.cnpj) && !Blank(f.responsavel) && Blank(f.telefone)
    ensures SubmitError(f) == Some(EmailObrigatorio) <==>
      !Blank(f.nome) && ValidateCnpj(f.cnpj) && !Blank(f.responsavel) && ValidateTelefone(f.telefone)
      && Blank(f.email)
  {
    BlankHasNoDigits(f.cnpj);
    BlankHasNoDigits(f.telefone);
  }

  /** A blank field holds no digit. */
  lemma {:induction false} BlankHasNoDigits(s: string)
    ensures Blank(s) ==> Digits(s) == []
  {
    if Blank(s) {
      TrimSpec(s);
      DigitsOfNonDigits(s);
    }
  }
}
