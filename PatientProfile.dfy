/**
 The patient profile form: a record of seven text fields, filled from the
 profile loaded for the user when there is one, edited one field at a time and
 handed to the caller on submit.
 */
module PatientProfile {
  import opened Optional

  /** The form's state object; a field name maps to its text. */
  type ProfileData = map<string, string>

  /** The seven fields of the form, in the order they are shown. */
  const ProfileFields: seq<string> :=
    ["firstName", "lastName", "dateOfBirth", "email", "phoneNumber", "address", "medicalHistory"]

  /** The record the form starts from: every field empty. */
  function InitialProfile(): (r: ProfileData)
    ensures r.Keys == set f | f in ProfileFields
    ensures forall f :: f in r ==> r[f] == ""
  {
    map[
      "firstName" := "",
      "lastName" := "",
      "dateOfBirth" := "",
      "email" := "",
      "phoneNumber" := "",
      "address" := "",
      "medicalHistory" := ""
    ]
  }

  /** `initialData.f || ''`: a missing value gives '', and a present text
      value, the empty one included, comes through unchanged. */
  function FieldOrEmpty(initialData: map<string, string>, f: string): (r: string)
    ensures f in initialData ==> r == initialData[f]
    ensures f !in initialData ==> r == ""
  {
    if f in initialData && initialData[f] != "" then initialData[f] else ""
  }

  /** The record built from loaded profile data: exactly the seven fields, each
      taken from the data or '' when the data lacks it; any other key of the data
      (an id, an owner, timestamps) is left behind. */
  function Normalise(initialData: map<string, string>): (r: ProfileData)
    ensures r.Keys == set f | f in ProfileFields
    ensures forall f :: f in r ==> (f in initialData ==> r[f] == initialData[f]) && (f !in initialData ==> r[f] == "")
  {
    map[
      "firstName" := FieldOrEmpty(initialData, "firstName"),
      "lastName" := FieldOrEmpty(initialData, "lastName"),
      "dateOfBirth" := FieldOrEmpty(initialData, "dateOfBirth"),
      "email" := FieldOrEmpty(initialData, "email"),
      "phoneNumber" := FieldOrEmpty(initialData, "phoneNumber"),
      "address" := FieldOrEmpty(initialData, "address"),
      "medicalHistory" := FieldOrEmpty(initialData, "medicalHistory")
    ]
  }

  /** A record that already holds exactly the seven fields comes back unchanged,
      so running the effect again on the record it produced changes nothing. */
  lemma NormaliseFixesProfile(p: ProfileData)
    requires p.Keys == set f | f in ProfileFields
    ensures Normalise(p) == p
  {
    assert Normalise(p).Keys == p.Keys;
  }

  /** Keys other than the seven fields have no influence on the record. */
  lemma NormaliseIgnoresOtherKeys(initialData: map<string, string>, key: string, value: string)
    requires key !in ProfileFields
    ensures Normalise(initialData[key := value]) == Normalise(initialData)
  {
    var a, b := Normalise(initialData[key := value]), Normalise(initialData);
    assert a.Keys == b.Keys;
    forall f | f in a ensures a[f] == b[f] {
      assert f != key;
    }
  }

  /** The profile form component's state. */
  class ProfileForm {
    var formData: ProfileData

    constructor ()
      ensures formData == InitialProfile()
    {
      formData := InitialProfile();
    }

    /** The effect on `initialData`: replaces the whole record when data is
        present, and leaves it as it is otherwise. */
    method LoadInitialData(initialData: Option<map<string, string>>)
      modifies this
      ensures initialData.None? ==> formData == old(formData)
      ensures initialData.Some? ==> formData == Normalise(initialData.value)
    {
      if initialData.Some? {
        formData := Normalise(initialData.value);
      }
    }

    /** The change handler: sets the named field to the input's text. */
    method HandleChange(name: string, value: string)
      modifies this
      ensures formData == old(formData)[name := value]
    {
      formData := formData[name := value];
    }

    /** The submit handler passes the current record to the caller as it is. */
    method HandleSubmit() returns (saved: ProfileData)
      ensures saved == formData
    {
      saved := formData;
    }
  }
}
