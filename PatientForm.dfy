/**
 The health questionnaire form: a record of answers keyed by field name, a
 generic change handler, the comma-encoded multi-select answer `painLocation`
 and the submit handler that hands the record to the caller.
 */
module PatientForm {
  import opened JsText

  /** A form answer: text for selects and text areas, a flag for a checkbox. */
  datatype FormValue = Text(text: string) | Flag(flag: bool)

  /** The form's state object; a field name maps to its current answer. */
  type FormData = map<string, FormValue>

  const PainLocation := "painLocation"

  /** The values of the six pain-location checkboxes. */
  const PainLocationOptions: seq<string> := ["head", "neck", "back", "chest", "abdomen", "limbs"]

  /** The record the form starts from. */
  function InitialFormData(): (r: FormData)
    ensures r.Keys == {"painLevel", PainLocation, "painDuration", "currentMedications",
                       "medicationAllergies", "recentMedicationChanges"}
    ensures forall k :: k in r && k != "recentMedicationChanges" ==> r[k] == Text("")
    ensures r["recentMedicationChanges"] == Flag(false)
  {
    map[
      "painLevel" := Text(""),
      PainLocation := Text(""),
      "painDuration" := Text(""),
      "currentMedications" := Text(""),
      "medicationAllergies" := Text(""),
      "recentMedicationChanges" := Flag(false)
    ]
  }

  /** The value the change handler stores: an input of type checkbox gives its
      checked state, any other input its text. */
  function ChangedValue(inputType: string, value: string, checked: bool): (r: FormValue)
    ensures r.Flag? <==> inputType == "checkbox"
    ensures r == Flag(checked) || r == Text(value)
  {
    if inputType == "checkbox" then Flag(checked) else Text(value)
  }

  /** Checking a pain-location box: the value alone when nothing is selected,
      otherwise the old answer, a comma and the value. */
  function CheckLocation(s: string, value: string): (r: string)
    ensures s <= r && |value| <= |r| && r[|r| - |value|..] == value
    ensures s == "" ==> r == value
    ensures s != "" ==> |r| == |s| + 1 + |value| && r[|s|] == ','
  {
    if s != "" then s + "," + value else value
  }

  /** Unchecking a pain-location box: split at commas, drop every piece equal
      to the value, join the rest with commas. The pieces of the result are
      exactly the old pieces other than the value, in their order; when none is
      left the answer is empty. */
  function UncheckLocation(s: string, value: string): (r: string)
    ensures var kept := Remove(Split(s, ','), value);
            && (kept == [] ==> r == "")
            && (kept != [] ==> Split(r, ',') == kept)
    ensures value != "" ==> value !in Split(r, ',')
  {
    var kept := Remove(Split(s, ','), value);
    if kept == [] then Join(kept, ",")
    else SplitJoin(kept, ','); Join(kept, ",")
  }

  /** The new `painLocation` answer after a pain-location box changes: the
      box's value is one of the pieces afterwards exactly when the box is checked. */
  function ToggleLocation(s: string, value: string, checked: bool): (r: string)
    ensures ',' !in value && value != "" ==> (value in Split(r, ',') <==> checked)
  {
    if checked then
      CheckLocationPieces(s, value);
      CheckLocation(s, value)
    else UncheckLocation(s, value)
  }

  /** Checking adds exactly one piece, the value, after the pieces already there. */
  lemma {:induction false} CheckLocationPieces(s: string, value: string)
    ensures ',' !in value ==>
              Split(CheckLocation(s, value), ',') == if s == "" then [value] else Split(s, ',') + [value]
  {
    if ',' !in value {
      SplitWithoutSep(value, ',');
      if s != "" {
        SplitAppend(s, value, ',');
      }
    }
  }

  /** Checking a box whose value is not yet a piece and unchecking it again
      restores the answer exactly, the empty answer included. */
  lemma {:induction false} CheckThenUncheck(s: string, value: string)
    requires ',' !in value
    requires value !in Split(s, ',')
    ensures UncheckLocation(CheckLocation(s, value), value) == s
  {
    SplitWithoutSep(value, ',');
    if s != "" {
      SplitAppend(s, value, ',');
      RemoveAppend(Split(s, ','), [value], value);
      RemoveAbsent(Split(s, ','), value);
      assert Remove(Split(s, ',') + [value], value) == Split(s, ',');
      JoinSplit(s, ',');
    }
  }

  /** Unchecking twice is the same as unchecking once. */
  lemma {:induction false} UncheckIdempotent(s: string, value: string)
    ensures UncheckLocation(UncheckLocation(s, value), value) == UncheckLocation(s, value)
  {
    var r := UncheckLocation(s, value);
    var kept := Remove(Split(s, ','), value);
    if kept != [] {
      RemoveAbsent(kept, value);
      assert Remove(Split(r, ','), value) == kept;
    } else if value == "" {
      assert Remove([""], value) == [];
    } else {
      assert Remove([""], value) == [""];
    }
  }

  /** `painLocation` holds only pieces that are option values (or nothing). */
  predicate BuiltFromOptions(s: string)
  {
    s == "" || forall p :: p in Split(s, ',') ==> p in PainLocationOptions
  }

  /** The six pain-location checkboxes keep `painLocation` built from option values. */
  lemma {:induction false} ToggleKeepsOptions(s: string, value: string, checked: bool)
    requires BuiltFromOptions(s)
    requires value in PainLocationOptions
    ensures BuiltFromOptions(ToggleLocation(s, value, checked))
  {
    if checked {
      CheckKeepsOptions(s, value);
    } else {
      UncheckKeepsOptions(s, value);
    }
  }

  lemma CheckKeepsOptions(s: string, value: string)
    requires BuiltFromOptions(s)
    requires value in PainLocationOptions
    ensures BuiltFromOptions(CheckLocation(s, value))
  {
    var r := CheckLocation(s, value);
    CheckLocationPieces(s, value);
    if s == "" {
      assert Split(r, ',') == [value];
    } else {
      var before := Split(s, ',');
      assert Split(r, ',') == before + [value];
      OptionsAppend(before, value);
    }
  }

  lemma OptionsAppend(pieces: seq<string>, value: string)
    requires forall p :: p in pieces ==> p in PainLocationOptions
    requires value in PainLocationOptions
    ensures forall p :: p in pieces + [value] ==> p in PainLocationOptions
  {
  }

  lemma UncheckKeepsOptions(s: string, value: string)
    requires BuiltFromOptions(s)
    ensures BuiltFromOptions(UncheckLocation(s, value))
  {
    if s == "" {
      assert Split(s, ',') == [""];
      assert Join(Remove([""], value), ",") == "";
    }
  }

  /** No option value occurs inside another one. */
  lemma {:induction false} OptionIncludes(x: string, o: string)
    requires x in PainLocationOptions && o in PainLocationOptions
    ensures Includes(x, o) <==> x == o
  {
    if x == o {
      assert OccursAt(x, o, 0);
    }
    if Includes(x, o) {
      var i :| 0 <= i <= |x| - |o| && OccursAt(x, o, i);
      assert x[i] == o[0];
      assert x[i + 1] == o[1];
      assert x[i + 2] == o[2];
      assert x[i + 3] == o[3];
    }
  }

  /** In a join of option values, an option value occurs as a substring
      exactly when it is one of the joined values. */
  lemma {:induction false} IncludesJoinedOptions(parts: seq<string>, o: string)
    requires |parts| >= 1
    requires forall p :: p in parts ==> p in PainLocationOptions
    requires o in PainLocationOptions
    ensures Includes(Join(parts, ","), o) <==> o in parts
  {
    OptionIncludes(parts[0], o);
    if |parts| > 1 {
      IncludesJoinedOptions(parts[1..], o);
      IncludesAroundSep(parts[0], Join(parts[1..], ","), ',', o);
      assert parts == [parts[0]] + parts[1..];
    }
  }

  /** For an answer built by the checkboxes, the substring test `includes`
      that decides whether a box is shown checked agrees with membership
      among the comma-separated pieces. */
  lemma {:induction false} IncludesAgreesWithPieces(s: string, o: string)
    requires BuiltFromOptions(s)
    requires o in PainLocationOptions
    ensures Includes(s, o) <==> o in Split(s, ',')
  {
    if s == "" {
      assert Split(s, ',') == [""];
    } else {
      JoinSplit(s, ',');
      IncludesJoinedOptions(Split(s, ','), o);
    }
  }

  /** The form component's state. */
  class QuestionnaireForm {
    var formData: FormData

    constructor ()
      ensures formData == InitialFormData()
    {
      formData := InitialFormData();
    }

    /** The shared change handler: stores the changed input's value under its name. */
    method HandleChange(name: string, inputType: string, value: string, checked: bool)
      modifies this
      ensures formData == old(formData)[name := ChangedValue(inputType, value, checked)]
    {
      formData := formData[name := ChangedValue(inputType, value, checked)];
    }

    /** The change handler of a pain-location checkbox: rewrites only `painLocation`.
        The answer must be text, as `split` is called on it. */
    method TogglePainLocation(value: string, checked: bool)
      requires PainLocation in formData && formData[PainLocation].Text?
      modifies this
      ensures formData == old(formData)[PainLocation := Text(ToggleLocation(old(formData)[PainLocation].text, value, checked))]
    {
      var prev := formData[PainLocation].text;
      formData := formData[PainLocation := Text(ToggleLocation(prev, value, checked))];
    }

    /** The submit handler passes the current record to the caller as it is. */
    method HandleSubmit() returns (submitted: FormData)
      ensures submitted == formData
    {
      submitted := formData;
    }
  }

  /** The questionnaire answered with pain level 5, a duration of one to three
      days, no pain location and no medications: the submitted record still
      holds all six fields, the untouched ones at their initial values. */
  method SubmitWithoutPainLocation() returns (payload: FormData)
    ensures payload == map[
      "painLevel" := Text("5"),
      PainLocation := Text(""),
      "painDuration" := Text("1-3-days"),
      "currentMedications" := Text(""),
      "medicationAllergies" := Text(""),
      "recentMedicationChanges" := Flag(false)
    ]
  {
    var form := new QuestionnaireForm();
    form.HandleChange("painLevel", "select-one", "5", false);
    form.HandleChange("painDuration", "select-one", "1-3-days", false);
    form.HandleChange("currentMedications", "textarea", "", false);
    payload := form.HandleSubmit();
  }
}
