/**
 The five field rules of the registration form (HelloController's
 validateFirstName, validateLastName, validateEmail, validateDOB and
 validateZipCode), each as a full-match predicate over the field text, with the
 exact error text each one shows on failure.
 */
module Validators {
  import opened Patterns

  const FirstNameMessage := "First name must be 2-25 letters"
  const LastNameMessage := "Last name must be 2-25 letters"
  const NamesMissingMessage := "Enter first and last name first"
  const EmailMessagePrefix := "Email must be: "
  const DobMessage := "Date must be in MM/DD/YYYY format"
  const ZipCodeMessage := "Zip code must be 5 digits"

  /** The fixed domain of every student address. */
  const Domain := "@farmingdale.edu"

  // ---------------------------------------------------------------- names

  /**
   `^[a-zA-Z]{2,25}$`, the rule for both the first and the last name: a name
   is accepted exactly when it is 2 to 25 ASCII letters.
   */
  function NameMatches(s: string): (ok: bool)
    ensures ok <==> 2 <= |s| <= 25 && forall i :: 0 <= i < |s| ==> IsLetter(s[i])
  {
    RepeatMatches(IsLetter, s, 2, 25);
    Repeat(IsLetter, s, 2, 25)
  }

  // ---------------------------------------------------------------- e-mail

  /** ASCII lower-casing of one character. */
  function LowerChar(c: char): (r: char)
    ensures IsLetter(c) ==> 'a' <= r <= 'z'
    ensures !('A' <= c <= 'Z') ==> r == c
  {
    if 'A' <= c <= 'Z' then (c as int - 'A' as int + 'a' as int) as char else c
  }

  /** ASCII upper-casing of one character. */
  function UpperChar(c: char): (r: char)
    ensures 'a' <= c <= 'z' ==> r != c && 'A' <= r <= 'Z'
  {
    if 'a' <= c <= 'z' then (c as int - 'a' as int + 'A' as int) as char else c
  }

  function Lower(s: string): (r: string)
    ensures |r| == |s|
  {
    seq(|s|, i requires 0 <= i < |s| => LowerChar(s[i]))
  }

  /**
   The one address the form accepts for the given names: the lower-cased last
   name without its final character, then the first letter of the lower-cased
   first name, then the domain.
   */
  function ExpectedEmail(first: string, last: string): (e: string)
    requires first != [] && last != []
    ensures |e| == |last| + |Domain|
  {
    var fn, ln := Lower(first), Lower(last);
    ln[..|ln| - 1] + [fn[0]] + Domain
  }

  /**
   Position by position: the expected address repeats the last name, lower-cased,
   up to but not including its final character, puts the first name's lower-cased
   initial where that character was, and ends with the domain.
   */
  lemma ExpectedEmailLayout(first: string, last: string)
    requires first != [] && last != []
    ensures var e := ExpectedEmail(first, last);
      && (forall i :: 0 <= i < |last| - 1 ==> e[i] == LowerChar(last[i]))
      && e[|last| - 1] == LowerChar(first[0])
      && e[|last|..] == Domain
  {
  }

  /**
   The e-mail rule: both names must be non-empty (after lower-casing, which
   keeps the length) and the typed address must equal the expected one exactly,
   without lower-casing the typed text. The names are spliced into a regular
   expression in the source, after which comes the domain with its dot escaped;
   for names free of regex metacharacters, such as letter-only names, that
   expression matches exactly this one string.
   */
  function EmailMatches(first: string, last: string, email: string): (ok: bool)
    ensures first == [] || last == [] ==> !ok
    ensures ok ==> |email| == |last| + |Domain| && email[|last|..] == Domain
  {
    first != [] && last != [] && email == ExpectedEmail(first, last)
  }

  /**
   The e-mail field's failure text: a request for the names while either is
   empty, otherwise the prefix followed by the expected address.
   */
  function EmailMessage(first: string, last: string): (m: string)
    ensures first == [] || last == [] ==> m == NamesMissingMessage
    ensures first != [] && last != [] ==>
      && |m| >= |EmailMessagePrefix|
      && m[..|EmailMessagePrefix|] == EmailMessagePrefix
      && m[|EmailMessagePrefix|..] == ExpectedEmail(first, last)
  {
    if first == [] || last == [] then NamesMissingMessage
    else EmailMessagePrefix + ExpectedEmail(first, last)
  }

  /**
   For letter-only names the expected address has a local part of lower-case
   letters only, so that its single '@' sits right after it. The part of the
   source's pattern built from the names is then free of regular-expression
   metacharacters; the domain's dot is escaped there.
   */
  lemma {:induction false} LetterNamesEmailLayout(first: string, last: string)
    requires NameMatches(first) && NameMatches(last)
    ensures var e := ExpectedEmail(first, last);
      && (forall i :: 0 <= i < |last| ==> 'a' <= e[i] <= 'z')
      && (forall i :: 0 <= i < |e| ==> (e[i] == '@' <==> i == |last|))
  {
    var e := ExpectedEmail(first, last);
    ExpectedEmailLayout(first, last);
    forall i | 0 <= i < |e| ensures e[i] == '@' <==> i == |last| {
      if i >= |last| {
        assert e[i] == Domain[i - |last|];
      }
    }
  }

  /** A one-letter last name leaves an empty prefix: the address is the first initial and the domain. */
  lemma OneLetterLastName(first: string, last: string)
    requires first != [] && |last| == 1
    ensures ExpectedEmail(first, last) == [LowerChar(first[0])] + Domain
  {
  }

  /**
   The comparison is case-sensitive: for letter-only names, upper-casing any
   letter of the expected local part gives an address that is refused.
   */
  lemma CapitalisedEmailRefused(first: string, last: string, i: nat)
    requires NameMatches(first) && NameMatches(last) && i < |last|
    ensures var e := ExpectedEmail(first, last);
      !EmailMatches(first, last, e[i := UpperChar(e[i])])
  {
    var e := ExpectedEmail(first, last);
    LetterNamesEmailLayout(first, last);
    assert e[i := UpperChar(e[i])][i] != e[i];
  }

  // ---------------------------------------------------------------- date of birth

  /** `0[1-9]|1[0-2]` */
  predicate MonthMatches(a: char, b: char)
  {
    (a == '0' && '1' <= b <= '9') || (a == '1' && '0' <= b <= '2')
  }

  /** `0[1-9]|[12][0-9]|3[01]` */
  predicate DayMatches(a: char, b: char)
  {
    (a == '0' && '1' <= b <= '9') || ((a == '1' || a == '2') && IsDigit(b)) || (a == '3' && (b == '0' || b == '1'))
  }

  /** `19|20` */
  predicate CenturyMatches(a: char, b: char)
  {
    (a == '1' && b == '9') || (a == '2' && b == '0')
  }

  /** `MM/DD/YYYY` with digits in every numeric position. */
  predicate DateShape(s: string)
  {
    |s| == 10 && s[2] == '/' && s[5] == '/' && AllDigits(s[..2]) && AllDigits(s[3..5]) && AllDigits(s[6..])
  }

  /**
   `^(0[1-9]|1[0-2])/(0[1-9]|[12][0-9]|3[01])/(19|20)\d\d$`. Every alternative
   is two characters wide, so a match is exactly ten characters: digits, with
   slashes at positions 2 and 5.
   */
  function DobMatches(s: string): (ok: bool)
    ensures ok ==> DateShape(s)
  {
    && |s| == 10
    && MonthMatches(s[0], s[1]) && s[2] == '/'
    && DayMatches(s[3], s[4]) && s[5] == '/'
    && CenturyMatches(s[6], s[7]) && IsDigit(s[8]) && IsDigit(s[9])
  }

  function Month(s: string): nat
    requires DateShape(s)
  {
    DecimalValue(s[..2])
  }

  function Day(s: string): nat
    requires DateShape(s)
  {
    DecimalValue(s[3..5])
  }

  function Year(s: string): nat
    requires DateShape(s)
  {
    DecimalValue(s[6..])
  }

  /**
   Read as numbers: a date is accepted exactly when it has the `MM/DD/YYYY`
   shape with month 1-12, day 1-31 whatever the month, and year 1900-2099.
   */
  lemma DobRule(s: string)
    ensures DobMatches(s) <==>
      DateShape(s) && 1 <= Month(s) <= 12 && 1 <= Day(s) <= 31 && 1900 <= Year(s) <= 2099
  {
    if |s| == 10 && s[2] == '/' && s[5] == '/' {
      var mm, dd, yyyy := s[..2], s[3..5], s[6..];
      if DobMatches(s) {
        assert AllDigits(mm) && AllDigits(dd) && AllDigits(yyyy);
      }
      if DateShape(s) {
        assert IsDigit(mm[0]) && IsDigit(mm[1]) && IsDigit(dd[0]) && IsDigit(dd[1]);
        assert IsDigit(yyyy[0]) && IsDigit(yyyy[1]) && IsDigit(yyyy[2]) && IsDigit(yyyy[3]);
        DecimalValue2(mm);
        DecimalValue2(dd);
        DecimalValue4(yyyy);
      }
    }
  }

  /** A date printed in the form's format, each part zero-padded. */
  function DateText(month: nat, day: nat, year: nat): string
    requires month < 100 && day < 100 && year < 10000
  {
    DecimalText(month, 2) + "/" + DecimalText(day, 2) + "/" + DecimalText(year, 4)
  }

  /** Every accepted date is the printed form of its own month, day and year. */
  lemma {:induction false} DobPrinted(s: string)
    requires DobMatches(s)
    ensures DateShape(s) && s == DateText(Month(s), Day(s), Year(s))
  {
    DobRule(s);
    DecimalTextOfValue(s[..2]);
    DecimalTextOfValue(s[3..5]);
    DecimalTextOfValue(s[6..]);
    assert s == s[..2] + "/" + s[3..5] + "/" + s[6..];
  }

  /** Where the three printed parts sit in a printed date. */
  lemma DateTextParts(m: nat, d: nat, y: nat)
    requires m < 100 && d < 100 && y < 10000
    ensures var s := DateText(m, d, y);
      && |s| == 10 && s[2] == '/' && s[5] == '/'
      && s[..2] == DecimalText(m, 2) && s[3..5] == DecimalText(d, 2) && s[6..] == DecimalText(y, 4)
  {
  }

  /** Every date in range, printed in the form's format, is accepted and reads back as itself. */
  lemma {:induction false} DateTextAccepted(m: nat, d: nat, y: nat)
    requires 1 <= m <= 12 && 1 <= d <= 31 && 1900 <= y <= 2099
    ensures var s := DateText(m, d, y);
      DateShape(s) && Month(s) == m && Day(s) == d && Year(s) == y && DobMatches(s)
  {
    var s := DateText(m, d, y);
    DateTextParts(m, d, y);
    DecimalValueOfText(m, 2);
    DecimalValueOfText(d, 2);
    DecimalValueOfText(y, 4);
    assert DateShape(s) && Month(s) == m && Day(s) == d && Year(s) == y;
    DobRule(s);
  }

  /**
   The accepted dates are exactly the printed forms of the triples with month
   1-12, day 1-31 and year 1900-2099, so "02/31/2021" is accepted and
   "1/1/2020" is not.
   */
  lemma DobDates(s: string)
    ensures DobMatches(s) <==>
      exists m: nat, d: nat, y: nat :: 1 <= m <= 12 && 1 <= d <= 31 && 1900 <= y <= 2099 && s == DateText(m, d, y)
  {
    if DobMatches(s) {
      DobPrinted(s);
      DobRule(s);
    } else {
      forall m: nat, d: nat, y: nat | 1 <= m <= 12 && 1 <= d <= 31 && 1900 <= y <= 2099
        ensures s != DateText(m, d, y)
      {
        DateTextAccepted(m, d, y);
      }
    }
  }

  // ---------------------------------------------------------------- zip code

  /** `^\d{5}$`: a zip code is accepted exactly when it is five ASCII digits. */
  function ZipCodeMatches(s: string): (ok: bool)
    ensures ok <==> |s| == 5 && AllDigits(s)
  {
    RepeatMatches(IsDigit, s, 5, 5);
    Repeat(IsDigit, s, 5, 5)
  }

  /** The accepted zip codes are exactly the numbers below 100000 printed in five digits, leading zeros kept. */
  lemma ZipCodeNumbers(s: string)
    ensures ZipCodeMatches(s) <==> exists n: nat :: n < Pow10(5) && s == DecimalText(n, 5)
  {
    if ZipCodeMatches(s) {
      DecimalTextOfValue(s);
    }
  }
}
