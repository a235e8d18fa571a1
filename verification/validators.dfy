/**
 * The regular expressions the backend services validate input with
 * (organizacao.service.js lines 4-6, usuario.service.js lines 6-7), as
 * predicates over strings. The e-mail expression is the same in both services
 * and in the organisation form page, so it is defined once here.
 */
module Validators {
  import opened Text

  // ---------------------------------------------------------------- e-mail

  /** The class [^@\s]. */
  predicate EmailChar(c: char) {
    c != '@' && !IsSpace(c)
  }

  /** Every character except the one at position at is in [^@\s]. */
  predicate EmailCharsExcept(s: string, at: int) {
    forall k :: 0 <= k < |s| && k != at ==> EmailChar(s[k])
  }

  /**
   * ^[^@\s]+@[^@\s]+\.[^@\s]+$ : a non-empty local part, the only '@', then a
   * non-empty run, a '.', and a non-empty tail (the run and tail may hold more dots).
   */
  predicate IsEmail(s: string) {
    exists at, dot :: 0 < at && at + 1 < dot < |s| - 1 && s[at] == '@' && s[dot] == '.' && EmailCharsExcept(s, at)
  }

  /** The reading of the expression as the concatenation of its five pieces. */
  ghost predicate EmailPieces(local: string, domain: string, tld: string) {
    && |local| > 0 && |domain| > 0 && |tld| > 0
    && (forall i :: 0 <= i < |local| ==> EmailChar(local[i]))
    && (forall i :: 0 <= i < |domain| ==> EmailChar(domain[i]))
    && (forall i :: 0 <= i < |tld| ==> EmailChar(tld[i]))
  }

  /** IsEmail accepts exactly the strings built from the expression's pieces. */
  lemma {:induction false} EmailDecomposition(s: string)
    ensures IsEmail(s) <==> exists local, domain, tld :: EmailPieces(local, domain, tld) && s == local + "@" + domain + "." + tld
  {
    if IsEmail(s) {
      EmailSplits(s);
    }
    if exists local, domain, tld :: EmailPieces(local, domain, tld) && s == local + "@" + domain + "." + tld {
      var local, domain, tld :| EmailPieces(local, domain, tld) && s == local + "@" + domain + "." + tld;
      EmailJoins(local, domain, tld);
    }
  }

  lemma {:induction false} EmailSplits(s: string)
    requires IsEmail(s)
    ensures exists local, domain, tld :: EmailPieces(local, domain, tld) && s == local + "@" + domain + "." + tld
  {
    var at, dot :| 0 < at && at + 1 < dot < |s| - 1 && s[at] == '@' && s[dot] == '.' && EmailCharsExcept(s, at);
    var local, domain, tld := s[..at], s[at + 1..dot], s[dot + 1..];
    assert EmailPieces(local, domain, tld) by {
      forall i | 0 <= i < |local| ensures EmailChar(local[i]) {
        assert local[i] == s[i];
      }
      forall i | 0 <= i < |domain| ensures EmailChar(domain[i]) {
        assert domain[i] == s[at + 1 + i];
      }
      forall i | 0 <= i < |tld| ensures EmailChar(tld[i]) {
        assert tld[i] == s[dot + 1 + i];
      }
    }
    assert s == local + "@" + domain + "." + tld by {
      SplitAround(s, at, dot);
    }
  }

  /** s cut around the characters at positions at and dot. */
  lemma {:induction false} SplitAround(s: string, at: nat, dot: nat)
    requires at < dot < |s|
    ensures s == s[..at] + [s[at]] + s[at + 1..dot] + [s[dot]] + s[dot + 1..]
  {
    assert s[..at] + [s[at]] == s[..at + 1];
    assert s[..at + 1] + s[at + 1..dot] == s[..dot];
    assert s[..dot] + [s[dot]] == s[..dot + 1];
    assert s[..dot + 1] + s[dot + 1..] == s;
  }

  lemma {:induction false} EmailJoins(local: string, domain: string, tld: string)
    requires EmailPieces(local, domain, tld)
    ensures IsEmail(local + "@" + domain + "." + tld)
  {
    var s := local + "@" + domain + "." + tld;
    var at, dot := |local|, |local| + 1 + |domain|;
    assert s[at] == '@' && s[dot] == '.';
    forall k | 0 <= k < |s| && k != at
      ensures EmailChar(s[k])
    {
      if k < at {
        assert s[k] == local[k];
      } else if k < dot {
        assert s[k] == domain[k - at - 1];
      } else if k == dot {
      } else {
        assert s[k] == tld[k - dot - 1];
      }
    }
    assert EmailCharsExcept(s, at);
  }

  /** An accepted e-mail holds no white space, so trimming it changes nothing. */
  lemma {:induction false} EmailHasNoSpace(s: string)
    requires IsEmail(s)
    ensures NoSpace(s) && Trim(s) == s
  {
    var at, dot :| 0 < at && at + 1 < dot < |s| - 1 && s[at] == '@' && s[dot] == '.' && EmailCharsExcept(s, at);
    forall i | 0 <= i < |s|
      ensures !IsSpace(s[i])
    {
      if i != at {
        assert EmailChar(s[i]);
      }
    }
  }

  /** Lower-casing keeps an e-mail accepted. */
  lemma {:induction false} EmailLowerCase(s: string)
    requires IsEmail(s)
    ensures IsEmail(ToLower(s))
  {
    var at, dot :| 0 < at && at + 1 < dot < |s| - 1 && s[at] == '@' && s[dot] == '.' && EmailCharsExcept(s, at);
    var t := ToLower(s);
    assert t[at] == '@' && t[dot] == '.';
    assert forall k :: 0 <= k < |t| && k != at ==> t[k] == LowerChar(s[k]) && EmailChar(s[k]);
    assert EmailCharsExcept(t, at);
  }

  // ---------------------------------------------------------------- CNPJ

  /** ^\d{2}\.\d{3}\.\d{3}\/\d{4}-\d{2}$ : the mask NN.NNN.NNN/NNNN-NN. */
  predicate IsCnpj(s: string) {
    && |s| == 18
    && forall i :: 0 <= i < |s| ==>
         if i == 2 || i == 6 then s[i] == '.'
         else if i == 10 then s[i] == '/'
         else if i == 15 then s[i] == '-'
         else IsDigit(s[i])
  }

  // ---------------------------------------------------------------- phone

  /**
   * ^\(?\d{2}\)?\s?\d{4,5}-?\d{4}$ . Each optional token can be matched in only
   * one way: a '(' cannot start the two digits that must follow, a ')' or a
   * white-space character cannot start the digits after them. So the
   * expression reads left to right without backtracking, and only the tail
   * \d{4,5}-?\d{4} has several shapes: 8 or 9 digits, or 4 or 5 digits, a
   * hyphen and 4 digits.
   */
  predicate IsPhone(s: string) {
    var a := if |s| > 0 && s[0] == '(' then 1 else 0;
    && |s| >= a + 2 && IsDigit(s[a]) && IsDigit(s[a + 1])
    && var b := if |s| > a + 2 && s[a + 2] == ')' then a + 3 else a + 2;
       var c := if |s| > b && IsSpace(s[b]) then b + 1 else b;
       IsSubscriberNumber(s[c..])
  }

  /** \d{4,5}-?\d{4}$ */
  predicate IsSubscriberNumber(r: string) {
    || ((|r| == 8 || |r| == 9) && AllDigits(r))
    || ((|r| == 9 || |r| == 10) && r[|r| - 5] == '-' && AllDigits(r[..|r| - 5]) && AllDigits(r[|r| - 4..]))
  }

  /** The masked form of a mobile number with area code is accepted. */
  lemma {:induction false} MaskedPhoneAccepted()
    ensures IsPhone("(11) 99999-9999")
  {
    var head, r := "(11) ", "99999-9999";
    assert IsSubscriberNumber(r) by {
      assert r[5] == '-';
      assert r[..5] == "99999" && r[6..] == "9999";
    }
    assert head[0] == '(' && head[3] == ')' && head[4] == ' ';
    assert IsDigit(head[1]) && IsDigit(head[2]) && IsSpace(head[4]);
    var s := head + r;
    assert s[..5] == head && s[5..] == r;
    assert s == "(11) 99999-9999";
  }

  /** The bare eleven digits of a mobile number are accepted. */
  lemma {:induction false} BarePhoneAccepted()
    ensures IsPhone("11999999999")
  {
    var s := "11999999999";
    assert s[0] != '(' && IsDigit(s[0]) && IsDigit(s[1]) && s[2] != ')' && !IsSpace(s[2]);
    assert s[2..] == "999999999";
  }

  /** A mobile number one digit short is rejected. */
  lemma {:induction false} ShortPhoneRejected()
    ensures !IsPhone("(11) 99999-999")
  {
    var s := "(11) 99999-999";
    assert s[0] == '(' && s[3] == ')' && IsSpace(s[4]);
    var r := s[5..];
    assert r == "99999-999";
    assert !IsDigit(r[5]) && r[4] != '-';
  }

  // ---------------------------------------------------------------- password

  /**
   * ^(?=.*[A-Za-z])(?=.*\d)[A-Za-z\d]{8,}$ : at least eight characters, all
   * ASCII letters or digits, with at least one letter and at least one digit.
   */
  predicate IsPassword(s: string) {
    && |s| >= 8
    && (forall i :: 0 <= i < |s| ==> IsAsciiLetter(s[i]) || IsDigit(s[i]))
    && (exists i :: 0 <= i < |s| && IsAsciiLetter(s[i]))
    && (exists i :: 0 <= i < |s| && IsDigit(s[i]))
  }

  /** Three sample passwords: one accepted, two refused. */
  lemma {:induction false} PasswordExamples()
    ensures IsPassword("abcd1234")
    ensures !IsPassword("abcdefgh")
    ensures !IsPassword("1234567")
  {
    assert IsAsciiLetter("abcd1234"[0]) && IsDigit("abcd1234"[4]);
    var s := "abcdefgh";
    assert forall i :: 0 <= i < |s| ==> !IsDigit(s[i]) by {
      forall i | 0 <= i < |s| ensures !IsDigit(s[i]) {
        assert s[i] in "abcdefgh";
      }
    }
  }
}
