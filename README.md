# Student registration form validator

A Dafny model of the registration screen's controller, `HelloController`. The
screen has five input fields: first name, last name, e-mail, date of birth and
zip code. Each field has a validator. The validator checks the field text
against a pattern (for the e-mail, one built from the two names), writes the
field's error label and returns a verdict. After each focus change the add
button is disabled exactly when the five validators do not all succeed;
editing a field does not update it until the next focus change. The same
conjunction of validators guards the add button's navigation to the
"completed registration" screen.

The model has four layers and a module of worked examples:

- `Patterns` (patterns.dfy): the character classes `[a-zA-Z]` and `\d`, and the
  bounded repetition `cls{lo,hi}` as a full-match recogniser. It also reads
  digit strings as numbers and prints numbers as zero-padded digit strings.
- `Validators` (validators.dfy): the five rules as predicates over the field
  text, the exact failure texts, and the derivation of the one accepted
  e-mail address. Each rule is paired with an independent description: a
  letter count, numeric month/day/year ranges, printed numbers, or the layout
  of the expected address.
- `Registration` (registration.dfy): the form as values. It has the field
  texts, the labels, one validator's effect (its verdict and its own label
  refreshed), and the short-circuit chain
  `validateFirstName() && validateLastName() && validateEmail() && validateDOB() && validateZipCode()`.
  It also models a focus change. Lemmas give the chain's verdict and say
  which labels it refreshes and which it leaves alone.
- `Controller` (controller.dfy): class `HelloController` with the five field
  texts, the five label texts and `addButtonDisabled`. Its methods update these
  fields in place, and each method's contract ties the new state to the
  functions of `Registration`.
- `Scenarios` (scenarios.dfy): not a layer; the rules on concrete inputs.

Points of the code's behaviour that are easy to miss:

- The aggregate check uses short-circuit `&&`. The validators run in order and
  stop after the first failure. Labels of later fields keep their previous
  text (`Registration.CheckAllLabel`). They are not all refreshed.
- The validators are not side-effect free. Each one writes its own label.
- The expected address drops the last letter of the last name. "John Smith"
  must type `smitj@farmingdale.edu` and "Jane Doe" must type
  `doj@farmingdale.edu` (`Scenarios.SmithAddress`, `Scenarios.JaneDoeAddress`).
  A rule that kept the whole last name would give `smithj@…` and `doej@…`,
  and the code refuses both.
- The typed address is compared without lower-casing. `Doj@farmingdale.edu`
  is refused for Jane Doe.
- The date rule has no calendar check, so `02/31/2021` is accepted.

## Model

All source cells are in `src/main/java/com/example/module06_csc311/`.

| member | source | states |
|---|---|---|
| Patterns.RepeatMatches | src/main/java/com/example/module06_csc311/HelloController.java:86 | a full match of `cls{lo,hi}` accepts exactly the strings of `lo` to `hi` characters that are all in the class |
| Patterns.DecimalValueOfText | src/main/java/com/example/module06_csc311/HelloController.java:142 | reading back a number printed at a given width gives the number |
| Patterns.DecimalTextOfValue | src/main/java/com/example/module06_csc311/HelloController.java:157 | printing a digit string's value at the string's width gives the string back, leading zeros included |
| Validators.NameMatches | src/main/java/com/example/module06_csc311/HelloController.java:84-108 | `^[a-zA-Z]{2,25}$` accepts a name exactly when it is 2 to 25 ASCII letters; both name validators use this rule |
| Validators.ExpectedEmail | src/main/java/com/example/module06_csc311/HelloController.java:116-125 | the expected address is as long as the last name plus `@farmingdale.edu`: one character of the last name is dropped and one initial is added |
| Validators.ExpectedEmailLayout | src/main/java/com/example/module06_csc311/HelloController.java:116-125 | position by position, the expected address is the lower-cased last name without its final character, then the lower-cased first initial, then `@farmingdale.edu` |
| Validators.LetterNamesEmailLayout | src/main/java/com/example/module06_csc311/HelloController.java:116-125 | for letter-only names the local part of the expected address is lower-case letters and its only `@` follows it, so the part of the source's pattern built from the names contains no regex metacharacter (the domain's dot is escaped in the source) |
| Validators.EmailMatches | src/main/java/com/example/module06_csc311/HelloController.java:115-127 | with an empty first or last name no typed address is accepted; an accepted address has the last name's length plus the domain and ends in `@farmingdale.edu` |
| Validators.EmailMessage | src/main/java/com/example/module06_csc311/HelloController.java:119-131 | with an empty first or last name the failure text is "Enter first and last name first"; otherwise it is "Email must be: " followed by the expected address |
| Validators.OneLetterLastName | src/main/java/com/example/module06_csc311/HelloController.java:125 | a one-letter last name gives an empty prefix: the address is the first initial followed by the domain |
| Validators.CapitalisedEmailRefused | src/main/java/com/example/module06_csc311/HelloController.java:115-127 | the typed address is not lower-cased: upper-casing any letter of the expected local part gives a refused address |
| Validators.DobMatches | src/main/java/com/example/module06_csc311/HelloController.java:142 | every string the date pattern accepts is ten characters: two digits, `/`, two digits, `/`, four digits |
| Validators.DobRule | src/main/java/com/example/module06_csc311/HelloController.java:140-149 | a date is accepted exactly when it is `MM/DD/YYYY` digits with month 1-12, day 1-31 whatever the month, and year 1900-2099 |
| Validators.DateTextParts | src/main/java/com/example/module06_csc311/HelloController.java:142 | a printed date is ten characters, with slashes at positions 2 and 5 and the zero-padded month, day and year between them |
| Validators.DobPrinted | src/main/java/com/example/module06_csc311/HelloController.java:142 | every accepted date is the zero-padded printing of its own month, day and year |
| Validators.DateTextAccepted | src/main/java/com/example/module06_csc311/HelloController.java:142 | every in-range month, day and year, printed zero-padded, is accepted and reads back as the same numbers |
| Validators.DobDates | src/main/java/com/example/module06_csc311/HelloController.java:140-149 | the accepted dates are exactly the zero-padded printings of month 1-12, day 1-31, year 1900-2099 (both directions) |
| Validators.ZipCodeMatches | src/main/java/com/example/module06_csc311/HelloController.java:157 | `^\d{5}$` accepts a zip code exactly when it is five ASCII digits |
| Validators.ZipCodeNumbers | src/main/java/com/example/module06_csc311/HelloController.java:157 | the accepted zip codes are exactly the numbers below 100000 printed in five digits |
| Registration.Passes | src/main/java/com/example/module06_csc311/HelloController.java:84-164 | each field's rule: names of 2 to 25 letters; both names non-empty and the typed address equal to the expected one; a `MM/DD/YYYY` date with month 1-12, day 1-31 and year 1900-2099; five digits for the zip code |
| Registration.Label | src/main/java/com/example/module06_csc311/HelloController.java:84-164 | the text a validator writes to its label is empty exactly when its field passes |
| Registration.Validate | src/main/java/com/example/module06_csc311/HelloController.java:84-164 | a validator's verdict is its field's rule; it sets its own label to "" on success and to its failure text otherwise, and leaves the other four labels unchanged |
| Registration.ValidateIdempotent | src/main/java/com/example/module06_csc311/HelloController.java:84-164 | running a validator a second time on the same field texts changes neither the verdict nor any label |
| Registration.Chain | src/main/java/com/example/module06_csc311/HelloController.java:170-171 | the short-circuit chain succeeds exactly when every validator in it succeeds, and never changes the label of a field outside it |
| Registration.ChainLabel | src/main/java/com/example/module06_csc311/HelloController.java:170-171 | the label at a position is refreshed exactly when every earlier validator succeeded; otherwise it keeps its previous text |
| Registration.CheckAll | src/main/java/com/example/module06_csc311/HelloController.java:169-173 | the aggregate check succeeds exactly when all five rules accept their fields |
| Registration.CheckAllLabel | src/main/java/com/example/module06_csc311/HelloController.java:169-173 | after the aggregate check, a field's label holds its validator's text when all earlier fields pass, and its previous text when an earlier one fails |
| Registration.CheckAllIdempotent | src/main/java/com/example/module06_csc311/HelloController.java:169-173 | re-running the aggregate check on unchanged fields changes neither the verdict nor the labels |
| Registration.FocusChange | src/main/java/com/example/module06_csc311/HelloController.java:51-74 | after a focus gain or loss on any field, the verdict that sets the button is that all five rules pass |
| Registration.FocusChangeEffect | src/main/java/com/example/module06_csc311/HelloController.java:51-74 | after a focus gain or loss, labels are refreshed for the fields the chain reached and, on loss, for the field that lost focus; all other labels keep their text |
| Controller.HelloController.constructor | src/main/java/com/example/module06_csc311/HelloController.java:49-78 | the add button starts disabled; fields and labels hold their initial texts |
| Controller.HelloController.ValidateFirstName | src/main/java/com/example/module06_csc311/HelloController.java:84-93 | returns the first-name verdict and writes only the first-name label, as `Registration.Validate` gives it |
| Controller.HelloController.ValidateLastName | src/main/java/com/example/module06_csc311/HelloController.java:99-108 | returns the last-name verdict and writes only the last-name label |
| Controller.HelloController.ValidateEmail | src/main/java/com/example/module06_csc311/HelloController.java:114-134 | builds the expected address from the lower-cased names and returns the e-mail verdict; writes only the e-mail label: "Enter first and last name first", "" or "Email must be: " followed by the expected address |
| Controller.HelloController.ValidateDob | src/main/java/com/example/module06_csc311/HelloController.java:140-149 | returns the date verdict and writes only the date label |
| Controller.HelloController.ValidateZipCode | src/main/java/com/example/module06_csc311/HelloController.java:155-164 | returns the zip-code verdict and writes only the zip-code label |
| Controller.HelloController.RunValidators | src/main/java/com/example/module06_csc311/HelloController.java:170-171 | runs the five validators with short-circuit `&&`; the verdict and labels are those of `Registration.CheckAll` |
| Controller.HelloController.CheckAllValid | src/main/java/com/example/module06_csc311/HelloController.java:169-173 | refreshes the labels as the chain does and sets the button disabled exactly when the chain fails |
| Controller.HelloController.ValidateField | src/main/java/com/example/module06_csc311/HelloController.java:51-74 | the validator a field's focus listener calls: its verdict and labels are those of `Registration.Validate` for that field |
| Controller.HelloController.FocusChanged | src/main/java/com/example/module06_csc311/HelloController.java:51-74 | on focus loss runs the field's own validator, then on gain or loss runs checkAllValid; the new labels and disabled flag are those of `Registration.FocusChange` |
| Controller.HelloController.HandleAddButton | src/main/java/com/example/module06_csc311/HelloController.java:182-190 | navigation happens exactly when the validator chain succeeds; labels are refreshed as by the chain; the button flag is untouched |
| Scenarios.SmithAddress | src/main/java/com/example/module06_csc311/HelloController.java:125 | John Smith's expected address is `smitj@farmingdale.edu` |
| Scenarios.ShortLastNameAddresses | src/main/java/com/example/module06_csc311/HelloController.java:125 | last name "Li" gives `lj@farmingdale.edu`; last name "X" gives `a@farmingdale.edu` for first name Amy |
| Scenarios.DateExamples | src/main/java/com/example/module06_csc311/HelloController.java:142 | `02/29/2021`, `02/31/2021` and `05/12/1999` are accepted; `13/01/2020`, `1/1/2020` and `01/01/2100` are refused |
| Scenarios.ZipCodeExamples | src/main/java/com/example/module06_csc311/HelloController.java:157 | `12345` and `00501` are accepted; `1234`, `123456` and `12a45` are refused |
| Scenarios.NameExamples | src/main/java/com/example/module06_csc311/HelloController.java:86 | `Jane` and `Li` are accepted; `J`, `J4ne`, the empty name and `Mary Ann` are refused |
| Scenarios.JaneDoeAddress | src/main/java/com/example/module06_csc311/HelloController.java:125 | Jane Doe's expected address is `doj@farmingdale.edu` |
| Scenarios.JaneDoeAccepted | src/main/java/com/example/module06_csc311/HelloController.java:169-173 | Jane / Doe / `doj@farmingdale.edu` / `05/12/1999` / `11735` passes the aggregate check |
| Scenarios.JaneDoeEmailLabel | src/main/java/com/example/module06_csc311/HelloController.java:127-133 | any other typed address for Jane Doe is refused, and the label reads "Email must be: doj@farmingdale.edu" |
| Scenarios.JaneDoeCapitalisedRefused | src/main/java/com/example/module06_csc311/HelloController.java:169-173 | with `Doj@farmingdale.edu` the check fails at the e-mail; the name labels are cleared, the e-mail label names the expected address, and the date and zip labels are unchanged |

## Left out

- `HelloApplication.java` (application start-up and layout loading) is not part of this model.
- The scene switch in `handleAddButton` is a call into the UI framework. `HandleAddButton` returns a `navigate` flag instead. A failed layout load, which raises an exception, is not modelled.
- JavaFX focus listeners and properties are not modelled. A focus change is an explicit call `FocusChanged(id, focused)`, where `focused` is the new focus state.
- Controller.HelloController.constructor: the initial field and label texts come from the layout file, which is not part of this model, so the constructor takes them as parameters.
- Validators.EmailMatches: the source splices the lower-cased names into a regular expression. The model compares the typed address literally. For a name containing a regex metacharacter the two can differ. For letter-only names the part of the pattern built from the names is lower-case letters (`Validators.LetterNamesEmailLayout`), and the source escapes the domain's dot, so the pattern matches only the expected address and the two agree, given the ASCII lower-casing described under `Validators.Lower`. Names with `.`, `*`, `(` and the like could match other addresses or make the source throw. That is not modelled.
- Validators.Lower: only ASCII letters are lower-cased, which is what `toLowerCase` does to ASCII text under a non-Turkic default locale. Under a Turkish or Azeri locale `I` becomes the dotless `ı`, so for a name such as "Irma" the source expects a different address. The source also lower-cases non-ASCII letters and can change the string's length. Neither is modelled.
- Validators.ExpectedEmail: a Dafny `char` is a Unicode scalar value, while Java's `charAt(0)` and `substring(0, length() - 1)` count UTF-16 code units. For a last name ending in a character outside the Basic Multilingual Plane, such as "Doe😀", the source keeps half of a surrogate pair and the model drops the whole character. The source then refuses `doej@farmingdale.edu` and shows a different label, while the model accepts that address. Letter-only names are not affected.
- The unused local `firstLetter` in `validateEmail` is not modelled.
- Typing into a field is the UI's job and is not a controller operation. The field texts are plain fields of the class.
