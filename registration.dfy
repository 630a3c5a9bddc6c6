/**
 The registration form as values: the five field texts, the five error
 labels, what one validator does to them, and the short-circuit chain
 `validateFirstName() && validateLastName() && validateEmail() && validateDOB()
 && validateZipCode()` that both checkAllValid and handleAddButton evaluate.
 */
module Registration {
  import opened Patterns
  import opened Validators

  datatype FieldId = FirstName | LastName | Email | Dob | ZipCode

  /** The text of the five input fields. */
  datatype Fields = Fields(firstName: string, lastName: string, email: string, dob: string, zipCode: string)

  /** The text of the five error labels, one per field. */
  datatype Labels = Labels(firstName: string, lastName: string, email: string, dob: string, zipCode: string)

  /** A validator's (or the whole chain's) verdict and the labels it leaves behind. */
  datatype Outcome = Outcome(ok: bool, labels: Labels)

  /** The order in which the chain runs the validators. */
  const Order: seq<FieldId> := [FirstName, LastName, Email, Dob, ZipCode]

  function Rank(id: FieldId): (k: nat)
    ensures k < |Order| && Order[k] == id
  {
    match id
    case FirstName => 0
    case LastName => 1
    case Email => 2
    case Dob => 3
    case ZipCode => 4
  }

  /**
   Whether the field's rule accepts the current texts: names of 2 to 25
   letters, the one expected address, a date with month 1-12, day 1-31 and
   year 1900-2099, and five digits for the zip code.
   */
  function Passes(id: FieldId, f: Fields): (ok: bool)
    ensures id == FirstName ==>
      (ok <==> 2 <= |f.firstName| <= 25 && forall i :: 0 <= i < |f.firstName| ==> IsLetter(f.firstName[i]))
    ensures id == LastName ==>
      (ok <==> 2 <= |f.lastName| <= 25 && forall i :: 0 <= i < |f.lastName| ==> IsLetter(f.lastName[i]))
    ensures id == Email ==>
      (ok <==> f.firstName != [] && f.lastName != [] && f.email == ExpectedEmail(f.firstName, f.lastName))
    ensures id == Dob ==>
      (ok <==> DateShape(f.dob) && 1 <= Month(f.dob) <= 12 && 1 <= Day(f.dob) <= 31 && 1900 <= Year(f.dob) <= 2099)
    ensures id == ZipCode ==> (ok <==> |f.zipCode| == 5 && AllDigits(f.zipCode))
  {
    match id
    case FirstName => NameMatches(f.firstName)
    case LastName => NameMatches(f.lastName)
    case Email => EmailMatches(f.firstName, f.lastName, f.email)
    case Dob => DobRule(f.dob); DobMatches(f.dob)
    case ZipCode => ZipCodeMatches(f.zipCode)
  }

  function FailureMessage(id: FieldId, f: Fields): string
  {
    match id
    case FirstName => FirstNameMessage
    case LastName => LastNameMessage
    case Email => EmailMessage(f.firstName, f.lastName)
    case Dob => DobMessage
    case ZipCode => ZipCodeMessage
  }

  /**
   What a validator writes to its own label: nothing on success, its failure
   text otherwise. Every failure text is non-empty, so the label is empty
   exactly when the field passes.
   */
  function Label(id: FieldId, f: Fields): (text: string)
    ensures text == "" <==> Passes(id, f)
  {
    if Passes(id, f) then "" else FailureMessage(id, f)
  }

  function LabelOf(l: Labels, id: FieldId): string
  {
    match id
    case FirstName => l.firstName
    case LastName => l.lastName
    case Email => l.email
    case Dob => l.dob
    case ZipCode => l.zipCode
  }

  /** The labels with one of them replaced and the other four kept. */
  function WithLabel(l: Labels, id: FieldId, text: string): (r: Labels)
    ensures LabelOf(r, id) == text
    ensures forall other :: other != id ==> LabelOf(r, other) == LabelOf(l, other)
  {
    match id
    case FirstName => l.(firstName := text)
    case LastName => l.(lastName := text)
    case Email => l.(email := text)
    case Dob => l.(dob := text)
    case ZipCode => l.(zipCode := text)
  }

  /** Two label sets that show the same text on every field are the same. */
  lemma LabelsEqual(a: Labels, b: Labels)
    requires forall id :: LabelOf(a, id) == LabelOf(b, id)
    ensures a == b
  {
    assert LabelOf(a, FirstName) == LabelOf(b, FirstName);
    assert LabelOf(a, LastName) == LabelOf(b, LastName);
    assert LabelOf(a, Email) == LabelOf(b, Email);
    assert LabelOf(a, Dob) == LabelOf(b, Dob);
    assert LabelOf(a, ZipCode) == LabelOf(b, ZipCode);
  }

  /**
   One validator: its verdict is its field's rule, it refreshes its own label
   (empty on success, the failure text otherwise) and leaves the other four alone.
   */
  function Validate(id: FieldId, f: Fields, l: Labels): (o: Outcome)
    ensures o.ok <==> Passes(id, f)
    ensures LabelOf(o.labels, id) == (if o.ok then "" else FailureMessage(id, f))
    ensures forall other :: other != id ==> LabelOf(o.labels, other) == LabelOf(l, other)
  {
    Outcome(Passes(id, f), WithLabel(l, id, Label(id, f)))
  }

  /** A validator reads only field texts, so running it again changes nothing further. */
  lemma ValidateIdempotent(id: FieldId, f: Fields, l: Labels)
    ensures Validate(id, f, Validate(id, f, l).labels) == Validate(id, f, l)
  {
    LabelsEqual(Validate(id, f, Validate(id, f, l).labels).labels, Validate(id, f, l).labels);
  }

  /** Every field before position `k` of `ids` passes, so the chain reaches position `k`. */
  predicate PassesBefore(ids: seq<FieldId>, f: Fields, k: nat)
    requires k <= |ids|
  {
    forall j :: 0 <= j < k ==> Passes(ids[j], f)
  }

  /**
   `v1() && v2() && ...`: the validators of `ids` in order, stopping after the
   first that fails. The verdict is the conjunction of all their rules, and the
   label of a field outside `ids` is never touched.
   */
  function Chain(ids: seq<FieldId>, f: Fields, l: Labels): (o: Outcome)
    ensures o.ok <==> PassesBefore(ids, f, |ids|)
    ensures forall id :: id !in ids ==> LabelOf(o.labels, id) == LabelOf(l, id)
    decreases |ids|
  {
    if ids == [] then Outcome(true, l)
    else
      var o := Validate(ids[0], f, l);
      assert forall j :: 1 <= j < |ids| ==> ids[j] == ids[1..][j - 1];
      if o.ok then Chain(ids[1..], f, o.labels) else o
  }

  predicate Distinct(ids: seq<FieldId>)
  {
    forall i, j :: 0 <= i < j < |ids| ==> ids[i] != ids[j]
  }

  /**
   The label at position `k` is refreshed exactly when the chain gets there,
   that is when every earlier field passes; otherwise it keeps its old text.
   */
  lemma {:induction false} ChainLabel(ids: seq<FieldId>, f: Fields, l: Labels, k: nat)
    requires Distinct(ids) && k < |ids|
    ensures LabelOf(Chain(ids, f, l).labels, ids[k]) ==
      if PassesBefore(ids, f, k) then Label(ids[k], f) else LabelOf(l, ids[k])
    decreases |ids|
  {
    var o := Validate(ids[0], f, l);
    var rest := ids[1..];
    assert Chain(ids, f, l) == if o.ok then Chain(rest, f, o.labels) else o;
    if k == 0 {
      if o.ok {
        assert ids[0] !in rest by {
          forall j | 0 <= j < |rest| ensures rest[j] != ids[0] { assert rest[j] == ids[j + 1]; }
        }
      }
    } else {
      assert ids[k] == rest[k - 1];
      if o.ok {
        ChainLabel(rest, f, o.labels, k - 1);
        assert PassesBefore(ids, f, k) <==> PassesBefore(rest, f, k - 1) by {
          if PassesBefore(rest, f, k - 1) {
            forall j | 0 <= j < k ensures Passes(ids[j], f) {
              if j > 0 { assert ids[j] == rest[j - 1]; }
            }
          }
        }
      } else {
        assert !Passes(ids[0], f);
      }
    }
  }

  /**
   checkAllValid's conjunction, over the five validators in the source's
   order: it holds exactly when all five rules accept their fields.
   */
  function CheckAll(f: Fields, l: Labels): (o: Outcome)
    ensures o.ok <==> forall id :: Passes(id, f)
  {
    assert forall id :: Order[Rank(id)] == id;
    Chain(Order, f, l)
  }

  /** The chain reaches `id`: every field before it in the order passes. */
  predicate Reached(f: Fields, id: FieldId)
  {
    PassesBefore(Order, f, Rank(id))
  }

  /**
   After the chain, a field's label is its validator's text when the chain
   reached it, and keeps its previous text when an earlier field failed.
   */
  lemma CheckAllLabel(f: Fields, l: Labels, id: FieldId)
    ensures LabelOf(CheckAll(f, l).labels, id) == if Reached(f, id) then Label(id, f) else LabelOf(l, id)
  {
    assert Distinct(Order);
    ChainLabel(Order, f, l, Rank(id));
  }

  /** Running checkAllValid again with unchanged fields leaves the labels and the verdict as they are. */
  lemma CheckAllIdempotent(f: Fields, l: Labels)
    ensures CheckAll(f, CheckAll(f, l).labels) == CheckAll(f, l)
  {
    var once := CheckAll(f, l);
    var twice := CheckAll(f, once.labels);
    forall id ensures LabelOf(twice.labels, id) == LabelOf(once.labels, id) {
      CheckAllLabel(f, l, id);
      CheckAllLabel(f, once.labels, id);
    }
    LabelsEqual(twice.labels, once.labels);
  }

  /**
   A focus change on field `id`: on focus loss its own validator runs first;
   on gain or loss the aggregate check then runs.
   */
  function FocusChange(id: FieldId, focused: bool, f: Fields, l: Labels): (o: Outcome)
    ensures o.ok <==> forall other :: Passes(other, f)
  {
    var l' := if focused then l else Validate(id, f, l).labels;
    CheckAll(f, l')
  }

  /**
   After a focus change a label is refreshed when the chain reached it, or
   when it is the field that lost focus, and otherwise keeps its old text.
   */
  lemma FocusChangeEffect(id: FieldId, focused: bool, f: Fields, l: Labels, x: FieldId)
    ensures LabelOf(FocusChange(id, focused, f, l).labels, x) ==
      if Reached(f, x) || (!focused && x == id) then Label(x, f) else LabelOf(l, x)
  {
    var l' := if focused then l else Validate(id, f, l).labels;
    CheckAllLabel(f, l', x);
  }
}
