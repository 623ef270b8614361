/** The prescription form of prescription/page.tsx as data: the draft the
    form holds, the edits the page makes to it, and the field rules that
    decide whether `onSubmit` is reached. */
module PrescriptionDraft {
  import opened Common
  import Models

  /** One line of the form. `quantity` is `None` when the number field is empty. */
  datatype Line = Line(medicineId: string, medicineName: string, quantity: Option<int>)

  datatype Draft = Draft(patientTC: string, lines: seq<Line>)

  /** A search result offered by the medicine picker. */
  datatype MedicineOption = MedicineOption(id: string, name: string, price: real)

  /** The line the form starts with and the "Add Medicine" button appends. */
  const BlankLine := Line("", "", Some(1))

  function InitialDraft(): Draft
  {
    Draft("", [BlankLine])
  }

  /** "Add Medicine": one blank line at the end. */
  function Append(d: Draft): (r: Draft)
    ensures r.patientTC == d.patientTC
    ensures |r.lines| == |d.lines| + 1
    ensures r.lines[..|d.lines|] == d.lines
    ensures r.lines[|d.lines|] == BlankLine
  {
    d.(lines := d.lines + [BlankLine])
  }

  /** The remove button of line `index`. An index past the end removes nothing. */
  function Remove(d: Draft, index: nat): (r: Draft)
    ensures r.patientTC == d.patientTC
    ensures index >= |d.lines| ==> r == d
    ensures index < |d.lines| ==>
      && |r.lines| == |d.lines| - 1
      && (forall k :: 0 <= k < index ==> r.lines[k] == d.lines[k])
      && (forall k :: index <= k < |r.lines| ==> r.lines[k] == d.lines[k + 1])
  {
    if index < |d.lines| then d.(lines := d.lines[..index] + d.lines[index + 1..]) else d
  }

  /** The picker of line `index` changes: a chosen option writes its id and
      its name into that line together; clearing writes "" into both. */
  function Select(d: Draft, index: nat, choice: Option<MedicineOption>): (r: Draft)
    requires index < |d.lines|
    ensures r.patientTC == d.patientTC && |r.lines| == |d.lines|
    ensures forall k :: 0 <= k < |d.lines| && k != index ==> r.lines[k] == d.lines[k]
    ensures r.lines[index].quantity == d.lines[index].quantity
    ensures r.lines[index].medicineId == (if choice.Some? then choice.value.id else "")
    ensures r.lines[index].medicineName == (if choice.Some? then choice.value.name else "")
  {
    var line := d.lines[index];
    var picked := match choice
      case Some(m) => line.(medicineId := m.id, medicineName := m.name)
      case None => line.(medicineId := "", medicineName := "");
    d.(lines := d.lines[index := picked])
  }

  /** Typing into the patient field. */
  function EditPatientTC(d: Draft, text: string): (r: Draft)
    ensures r.patientTC == text && r.lines == d.lines
  {
    d.(patientTC := text)
  }

  /** Typing into the quantity field of line `index` (`None`: emptied). */
  function EditQuantity(d: Draft, index: nat, quantity: Option<int>): (r: Draft)
    requires index < |d.lines|
    ensures r.patientTC == d.patientTC && |r.lines| == |d.lines|
    ensures forall k :: 0 <= k < |d.lines| && k != index ==> r.lines[k] == d.lines[k]
    ensures r.lines[index] == d.lines[index].(quantity := quantity)
  {
    d.(lines := d.lines[index := d.lines[index].(quantity := quantity)])
  }

  // ---------------------------------------------------------------------
  // Field rules.

  /** One message per failing field; a field reports its first failing rule. */
  datatype FieldError =
    | PatientTCRequired
    | MedicineNotSelected(line: nat)
    | QuantityRequired(line: nat)
    | QuantityBelowMin(line: nat)

  function Message(e: FieldError): string
  {
    match e
    case PatientTCRequired => "Patient TC is required"
    case MedicineNotSelected(_) => "Select a medicine"
    case QuantityRequired(_) => "Quantity required"
    case QuantityBelowMin(_) => "Min 1"
  }

  predicate LineValid(l: Line)
  {
    l.medicineId != "" && l.quantity.Some? && l.quantity.value >= 1
  }

  /** The draft reaches `onSubmit` exactly when this holds. */
  predicate Submittable(d: Draft)
  {
    d.patientTC != "" && forall k :: 0 <= k < |d.lines| ==> LineValid(d.lines[k])
  }

  function LineErrors(l: Line, k: nat): seq<FieldError>
  {
    (if l.medicineId == "" then [MedicineNotSelected(k)] else [])
    + (if l.quantity.None? then [QuantityRequired(k)]
       else if l.quantity.value < 1 then [QuantityBelowMin(k)]
       else [])
  }

  /** Errors of `lines`, numbering the first of them `from`. */
  function LinesErrors(lines: seq<Line>, from: nat): (es: seq<FieldError>)
    ensures forall e :: e in es ==> !e.PatientTCRequired? && from <= e.line < from + |lines|
    decreases |lines|
  {
    if lines == [] then [] else LineErrors(lines[0], from) + LinesErrors(lines[1..], from + 1)
  }

  function Errors(d: Draft): seq<FieldError>
  {
    (if d.patientTC == "" then [PatientTCRequired] else []) + LinesErrors(d.lines, 0)
  }

  /** Each line error names exactly the line and rule that fail. */
  lemma {:induction false} LinesErrorsExact(lines: seq<Line>, from: nat, k: nat)
    requires from <= k < from + |lines|
    ensures MedicineNotSelected(k) in LinesErrors(lines, from) <==> lines[k - from].medicineId == ""
    ensures QuantityRequired(k) in LinesErrors(lines, from) <==> lines[k - from].quantity.None?
    ensures QuantityBelowMin(k) in LinesErrors(lines, from) <==>
      lines[k - from].quantity.Some? && lines[k - from].quantity.value < 1
    decreases |lines|
  {
    var tail := LinesErrors(lines[1..], from + 1);
    if k == from {
      assert MedicineNotSelected(k) !in tail && QuantityRequired(k) !in tail && QuantityBelowMin(k) !in tail;
    } else {
      LinesErrorsExact(lines[1..], from + 1, k);
      assert lines[1..][k - (from + 1)] == lines[k - from];
    }
  }

  /** No line errors exactly when every line is valid. */
  lemma {:induction false} LinesErrorsEmpty(lines: seq<Line>, from: nat)
    ensures LinesErrors(lines, from) == [] <==> forall k :: 0 <= k < |lines| ==> LineValid(lines[k])
    decreases |lines|
  {
    if lines != [] {
      LinesErrorsEmpty(lines[1..], from + 1);
      if forall k :: 0 <= k < |lines[1..]| ==> LineValid(lines[1..][k]) {
        if LineValid(lines[0]) {
          forall k | 0 <= k < |lines| ensures LineValid(lines[k]) {
            if k > 0 { assert lines[k] == lines[1..][k - 1]; }
          }
        }
      } else {
        var k :| 0 <= k < |lines[1..]| && !LineValid(lines[1..][k]);
        assert lines[k + 1] == lines[1..][k];
      }
    }
  }

  /** The form validates exactly the submittable drafts. */
  lemma ErrorsEmptyIffSubmittable(d: Draft)
    ensures Errors(d) == [] <==> Submittable(d)
  {
    LinesErrorsEmpty(d.lines, 0);
  }

  /** Every failing field of every line is reported, and nothing else. */
  lemma ErrorsPinpointLine(d: Draft, k: nat)
    requires k < |d.lines|
    ensures MedicineNotSelected(k) in Errors(d) <==> d.lines[k].medicineId == ""
    ensures QuantityRequired(k) in Errors(d) <==> d.lines[k].quantity.None?
    ensures QuantityBelowMin(k) in Errors(d) <==> d.lines[k].quantity.Some? && d.lines[k].quantity.value < 1
    ensures PatientTCRequired in Errors(d) <==> d.patientTC == ""
  {
    LinesErrorsExact(d.lines, 0, k);
    assert PatientTCRequired !in LinesErrors(d.lines, 0);
  }

  /** The body of the create call: the three fields of every line, in order. */
  function ToRequest(d: Draft): (r: Models.PrescriptionRequest)
    requires Submittable(d)
    ensures r.patientTC == d.patientTC && |r.medicines| == |d.lines|
    ensures forall k :: 0 <= k < |d.lines| ==>
      && r.medicines[k].medicineId == d.lines[k].medicineId
      && r.medicines[k].medicineName == d.lines[k].medicineName
      && Some(r.medicines[k].quantity) == d.lines[k].quantity
      && r.medicines[k].quantity >= 1
  {
    Models.PrescriptionRequest(
      d.patientTC,
      seq(|d.lines|, k requires 0 <= k < |d.lines| =>
        Models.Medicine(d.lines[k].medicineId, d.lines[k].medicineName, d.lines[k].quantity.value)))
  }

  // ---------------------------------------------------------------------
  // Properties of the edits.

  /** The initial draft is not submittable: patient and medicine are missing. */
  lemma InitialDraftShape()
    ensures InitialDraft().patientTC == "" && InitialDraft().lines == [Line("", "", Some(1))]
    ensures Errors(InitialDraft()) == [PatientTCRequired, MedicineNotSelected(0)]
  {
  }

  /** Removing the line just appended gives back the draft. */
  lemma RemoveUndoesAppend(d: Draft)
    ensures Remove(Append(d), |d.lines|) == d
  {
    assert Append(d).lines[..|d.lines|] == d.lines;
  }

  /** Removal deletes exactly the one line: the rest keep their multiset. */
  lemma RemoveDeletesOneLine(d: Draft, index: nat)
    requires index < |d.lines|
    ensures multiset(Remove(d, index).lines) + multiset{d.lines[index]} == multiset(d.lines)
  {
    assert d.lines == d.lines[..index] + [d.lines[index]] + d.lines[index + 1..];
  }

  /** A later pick of the same line wins over an earlier one. */
  lemma SelectLastWins(d: Draft, index: nat, first: Option<MedicineOption>, second: Option<MedicineOption>)
    requires index < |d.lines|
    ensures Select(Select(d, index, first), index, second) == Select(d, index, second)
  {
  }

  /** Id and name are never half set: both empty or both filled. */
  predicate Paired(d: Draft)
  {
    forall k :: 0 <= k < |d.lines| ==> (d.lines[k].medicineId == "" <==> d.lines[k].medicineName == "")
  }

  /** A catalogue entry as the picker offers it, with an id and a name. */
  predicate Named(m: MedicineOption)
  {
    m.id != "" && m.name != ""
  }

  /** Pairing holds initially and every edit keeps it. */
  lemma EditsKeepPairing(d: Draft, index: nat, choice: Option<MedicineOption>, text: string, q: Option<int>)
    requires Paired(d)
    requires choice.Some? ==> Named(choice.value)
    ensures Paired(InitialDraft())
    ensures Paired(Append(d)) && Paired(Remove(d, index)) && Paired(EditPatientTC(d, text))
    ensures index < |d.lines| ==> Paired(Select(d, index, choice)) && Paired(EditQuantity(d, index, q))
  {
    var r := Remove(d, index);
    if index < |d.lines| {
      forall k | 0 <= k < |r.lines|
        ensures r.lines[k].medicineId == "" <==> r.lines[k].medicineName == ""
      {
        if k >= index { assert r.lines[k] == d.lines[k + 1]; }
      }
    }
  }

  /** The pick is copied as the server sent it: a catalogue entry with an
      empty name leaves its line half set. */
  lemma UnnamedOptionBreaksPairing()
    ensures !Paired(Select(InitialDraft(), 0, Some(MedicineOption("5", "", 1.0))))
  {
    assert Select(InitialDraft(), 0, Some(MedicineOption("5", "", 1.0))).lines[0] == Line("5", "", Some(1));
  }

  /** Clearing a line's pick makes the draft unsubmittable. */
  lemma ClearBlocksSubmission(d: Draft, index: nat)
    requires index < |d.lines|
    ensures !Submittable(Select(d, index, None))
  {
    assert !LineValid(Select(d, index, None).lines[index]);
  }

  /** Removing every line leaves a draft the form accepts with only a patient. */
  lemma EmptyDraftIsSubmittable(patient: string)
    requires patient != ""
    ensures Submittable(Remove(Draft(patient, [BlankLine]), 0))
  {
  }
}
