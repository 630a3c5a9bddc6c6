/**
 HelloController: the text of the five input fields, the text of the five
 error labels and the add button's disabled flag, updated in place by the
 validators, the aggregate check, the focus listeners and the add button.
 */
module Controller {
  import opened Validators
  import opened Registration

  class HelloController {
    var firstNameField: string
    var lastNameField: string
    var emailField: string
    var dobField: string
    var zipCodeField: string

    var firstNameError: string
    var lastNameError: string
    var emailError: string
    var dobError: string
    var zipCodeError: string

    var addButtonDisabled: bool

    function Form(): Fields
      reads this
    {
      Fields(firstNameField, lastNameField, emailField, dobField, zipCodeField)
    }

    function Errors(): Labels
      reads this
    {
      Labels(firstNameError, lastNameError, emailError, dobError, zipCodeError)
    }

    /**
     initialize(): the fields and labels hold whatever the layout gave them;
     the add button starts disabled.
     */
    constructor (texts: Fields, errors: Labels)
      ensures Form() == texts && Errors() == errors
      ensures addButtonDisabled
    {
      firstNameField, lastNameField, emailField, dobField, zipCodeField :=
        texts.firstName, texts.lastName, texts.email, texts.dob, texts.zipCode;
      firstNameError, lastNameError, emailError, dobError, zipCodeError :=
        errors.firstName, errors.lastName, errors.email, errors.dob, errors.zipCode;
      addButtonDisabled := true;
    }

    method ValidateFirstName() returns (ok: bool)
      modifies this`firstNameError
      ensures var o := Validate(FirstName, Form(), old(Errors()));
        ok == o.ok && Errors() == o.labels
    {
      if NameMatches(firstNameField) {
        firstNameError := "";
        ok := true;
      } else {
        firstNameError := FirstNameMessage;
        ok := false;
      }
    }

    method ValidateLastName() returns (ok: bool)
      modifies this`lastNameError
      ensures var o := Validate(LastName, Form(), old(Errors()));
        ok == o.ok && Errors() == o.labels
    {
      if NameMatches(lastNameField) {
        lastNameError := "";
        ok := true;
      } else {
        lastNameError := LastNameMessage;
        ok := false;
      }
    }

    method ValidateEmail() returns (ok: bool)
      modifies this`emailError
      ensures var o := Validate(Email, Form(), old(Errors()));
        ok == o.ok && Errors() == o.labels
    {
      var firstName, lastName := Lower(firstNameField), Lower(lastNameField);
      if firstName == [] || lastName == [] {
        emailError := NamesMissingMessage;
        return false;
      }
      var expected := lastName[..|lastName| - 1] + [firstName[0]] + Domain;
      if emailField == expected {
        emailError := "";
        ok := true;
      } else {
        emailError := EmailMessagePrefix + expected;
        ok := false;
      }
    }

    method ValidateDob() returns (ok: bool)
      modifies this`dobError
      ensures var o := Validate(Dob, Form(), old(Errors()));
        ok == o.ok && Errors() == o.labels
    {
      if DobMatches(dobField) {
        dobError := "";
        ok := true;
      } else {
        dobError := DobMessage;
        ok := false;
      }
    }

    method ValidateZipCode() returns (ok: bool)
      modifies this`zipCodeError
      ensures var o := Validate(ZipCode, Form(), old(Errors()));
        ok == o.ok && Errors() == o.labels
    {
      if ZipCodeMatches(zipCodeField) {
        zipCodeError := "";
        ok := true;
      } else {
        zipCodeError := ZipCodeMessage;
        ok := false;
      }
    }

    /**
     The short-circuit chain of the five validators, as checkAllValid and
     handleAddButton both evaluate it; it changes only the labels.
     */
    method RunValidators() returns (allValid: bool)
      modifies this`firstNameError, this`lastNameError, this`emailError, this`dobError, this`zipCodeError
      ensures var o := CheckAll(Form(), old(Errors()));
        allValid == o.ok && Errors() == o.labels
    {
      assert Order[1..][1..][1..][1..][1..] == [];
      allValid := ValidateFirstName();
      if allValid {
        allValid := ValidateLastName();
        if allValid {
          allValid := ValidateEmail();
          if allValid {
            allValid := ValidateDob();
            if allValid {
              allValid := ValidateZipCode();
            }
          }
        }
      }
    }

    /** checkAllValid: the add button is disabled exactly when the chain fails. */
    method CheckAllValid()
      modifies this`firstNameError, this`lastNameError, this`emailError, this`dobError, this`zipCodeError
      modifies this`addButtonDisabled
      ensures var o := CheckAll(Form(), old(Errors()));
        Errors() == o.labels && addButtonDisabled == !o.ok
    {
      var allValid := RunValidators();
      addButtonDisabled := !allValid;
    }

    /** The validator of field `id`, as the focus listener of that field calls it. */
    method ValidateField(id: FieldId) returns (ok: bool)
      modifies this`firstNameError, this`lastNameError, this`emailError, this`dobError, this`zipCodeError
      ensures var o := Validate(id, Form(), old(Errors()));
        ok == o.ok && Errors() == o.labels
    {
      match id {
        case FirstName => ok := ValidateFirstName();
        case LastName => ok := ValidateLastName();
        case Email => ok := ValidateEmail();
        case Dob => ok := ValidateDob();
        case ZipCode => ok := ValidateZipCode();
      }
    }

    /**
     The focus listener registered on each field by initialize(): on focus
     loss it runs that field's validator, then on gain or loss checkAllValid.
     */
    method FocusChanged(id: FieldId, focused: bool)
      modifies this`firstNameError, this`lastNameError, this`emailError, this`dobError, this`zipCodeError
      modifies this`addButtonDisabled
      ensures var o := FocusChange(id, focused, Form(), old(Errors()));
        Errors() == o.labels && addButtonDisabled == !o.ok
    {
      if !focused {
        var _ := ValidateField(id);
      }
      CheckAllValid();
    }

    /**
     handleAddButton: the same chain as a guard; the scene switch happens
     exactly when it holds. The button's disabled flag is not touched.
     */
    method HandleAddButton() returns (navigate: bool)
      modifies this`firstNameError, this`lastNameError, this`emailError, this`dobError, this`zipCodeError
      ensures var o := CheckAll(Form(), old(Errors()));
        Errors() == o.labels && navigate == o.ok
    {
      navigate := RunValidators();
    }
  }
}
