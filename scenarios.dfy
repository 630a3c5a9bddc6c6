/**
 Worked examples of the form's rules on concrete input, including the full
 "Jane Doe" registration and its capitalised-address variant.
 */
module Scenarios {
  import opened Validators
  import opened Registration

  /** The last name loses its final letter: John Smith's address is "smitj@farmingdale.edu". */
  lemma SmithAddress()
    ensures ExpectedEmail("John", "Smith") == "smitj@farmingdale.edu"
  {
    assert Lower("Smith") == "smith" && Lower("John")[0] == 'j';
  }

  /** A two-letter last name keeps one letter, a one-letter last name keeps none. */
  lemma ShortLastNameAddresses()
    ensures ExpectedEmail("John", "Li") == "lj@farmingdale.edu"
    ensures ExpectedEmail("Amy", "X") == "a@farmingdale.edu"
  {
    assert Lower("Li") == "li" && Lower("John")[0] == 'j';
    OneLetterLastName("Amy", "X");
  }

  /** No calendar check and no unpadded forms. */
  lemma DateExamples()
    ensures DobMatches("02/29/2021") && DobMatches("02/31/2021") && DobMatches("05/12/1999")
    ensures !DobMatches("13/01/2020") && !DobMatches("1/1/2020") && !DobMatches("01/01/2100")
  {
  }

  lemma ZipCodeExamples()
    ensures ZipCodeMatches("12345") && ZipCodeMatches("00501")
    ensures !ZipCodeMatches("1234") && !ZipCodeMatches("123456") && !ZipCodeMatches("12a45")
  {
  }

  lemma NameExamples()
    ensures NameMatches("Jane") && NameMatches("Li")
    ensures !NameMatches("J") && !NameMatches("J4ne") && !NameMatches("") && !NameMatches("Mary Ann")
  {
  }

  lemma JaneDoeAddress()
    ensures ExpectedEmail("Jane", "Doe") == "doj@farmingdale.edu"
  {
    assert Lower("Doe") == "doe" && Lower("Jane")[0] == 'j';
  }

  /** A complete, correct registration passes the aggregate check, whatever the labels showed before. */
  lemma JaneDoeAccepted(l: Labels)
    ensures CheckAll(Fields("Jane", "Doe", "doj@farmingdale.edu", "05/12/1999", "11735"), l).ok
  {
    var f := Fields("Jane", "Doe", "doj@farmingdale.edu", "05/12/1999", "11735");
    JaneDoeAddress();
    assert NameMatches("Jane") && NameMatches("Doe");
    assert DobMatches("05/12/1999") && ZipCodeMatches("11735");
    assert Passes(FirstName, f) && Passes(LastName, f) && Passes(Email, f);
    assert Passes(Dob, f) && Passes(ZipCode, f);
  }

  /** The e-mail label Jane Doe sees when the typed address is wrong. */
  lemma JaneDoeEmailLabel(f: Fields)
    requires f.firstName == "Jane" && f.lastName == "Doe" && f.email != "doj@farmingdale.edu"
    ensures !Passes(Email, f)
    ensures Label(Email, f) == EmailMessagePrefix + "doj@farmingdale.edu"
  {
    JaneDoeAddress();
    assert !EmailMatches(f.firstName, f.lastName, f.email);
  }

  /**
   The typed address is not lower-cased: "Doj@farmingdale.edu" is refused, and
   the chain stops there, leaving the date and zip code labels untouched.
   */
  lemma JaneDoeCapitalisedRefused(l: Labels)
    ensures var o := CheckAll(Fields("Jane", "Doe", "Doj@farmingdale.edu", "05/12/1999", "11735"), l);
      && !o.ok
      && o.labels == l.(firstName := "", lastName := "", email := EmailMessagePrefix + "doj@farmingdale.edu")
  {
    var f := Fields("Jane", "Doe", "Doj@farmingdale.edu", "05/12/1999", "11735");
    assert "Doj@farmingdale.edu"[0] != "doj@farmingdale.edu"[0];
    JaneDoeEmailLabel(f);
    assert Passes(FirstName, f) && Passes(LastName, f);
    var o := CheckAll(f, l);
    var expected := l.(firstName := "", lastName := "", email := EmailMessagePrefix + "doj@farmingdale.edu");
    assert Reached(f, FirstName) && Reached(f, LastName) && Reached(f, Email);
    assert !Reached(f, Dob) && !Reached(f, ZipCode) by { assert Order[2] == Email; }
    forall id ensures LabelOf(o.labels, id) == LabelOf(expected, id) {
      CheckAllLabel(f, l, id);
    }
    LabelsEqual(o.labels, expected);
  }
}
