/** The form's fields, in document order, and the rules that read or rewrite
    them: element lookups, the client-type visibility rule (`updateFieldVisibility`),
    step validation with its error markers (`validateStep`) and `form.reset()`. */
module Form {
  import opened Wrappers
  import opened Chars

  /** The kinds of control the rules distinguish: an `<input>` that is not a
      radio button, a `<select>`, and a radio `<input>`. */
  datatype Control = TextInput | Select | Radio

  /** What the user can change: the value, the checked state of a radio and,
      for a `<select>`, the text of the selected option. */
  datatype Entry = Entry(value: string, checked: bool, optionText: string)

  /** One control of the form. `step` is the index of the step section that
      contains it; `defaultEntry` is what `form.reset()` restores; `hidden` is
      an inline `display: none`; `flagged` is the red error styling. */
  datatype Field = Field(
    id: string,
    name: string,
    control: Control,
    step: nat,
    entry: Entry,
    defaultEntry: Entry,
    required: bool,
    hidden: bool,
    flagged: bool)

  /** The index of the first field satisfying `p`, as `querySelector` finds
      the first matching element in document order. */
  function FindFirst(fields: seq<Field>, p: Field -> bool): (r: Option<nat>)
    ensures r.Some? ==>
      r.value < |fields| && p(fields[r.value]) && forall j :: 0 <= j < r.value ==> !p(fields[j])
    ensures r.None? ==> forall j :: 0 <= j < |fields| ==> !p(fields[j])
  {
    if fields == [] then None
    else if p(fields[0]) then Some(0)
    else
      match FindFirst(fields[1..], p)
      case None => None
      case Some(j) => Some(j + 1)
  }

  /** `document.querySelector('input[name="<name>"]:checked')?.value`. */
  function CheckedValue(fields: seq<Field>, name: string): (r: Option<string>)
    ensures r.Some? <==>
      exists j :: 0 <= j < |fields| && fields[j].control == Radio && fields[j].name == name && fields[j].entry.checked
  {
    var found := FindFirst(fields, (f: Field) => f.control == Radio && f.name == name && f.entry.checked);
    if found.Some? then Some(fields[found.value].entry.value) else None
  }

  /** `document.getElementById(id).value`; `None` where the element is missing. */
  function ElementValue(fields: seq<Field>, id: string): (r: Option<string>)
    ensures r.Some? <==> exists j :: 0 <= j < |fields| && fields[j].id == id
  {
    var found := FindFirst(fields, (f: Field) => f.id == id);
    if found.Some? then Some(fields[found.value].entry.value) else None
  }

  /** The text of the option selected in the first `<select>` whose name is
      `key` (`select[name="<key>"] option:checked`) or, with `byId`, whose id
      is `key` (`#<key> option:checked`). */
  function SelectedText(fields: seq<Field>, key: string, byId: bool): (r: Option<string>)
    ensures r.Some? <==>
      exists j :: 0 <= j < |fields| && fields[j].control == Select && (if byId then fields[j].id else fields[j].name) == key
  {
    var found := FindFirst(fields, (f: Field) => f.control == Select && (if byId then f.id else f.name) == key);
    if found.Some? then Some(fields[found.value].entry.optionText) else None
  }

  // ---------------------------------------------------------------------
  // Conditional visibility

  const ClientTypeName: string := "cliente_tipo"

  /** The radio value that marks an individual (non-corporate) client. */
  const IndividualClientId: string := "282d3766-260f-4358-9e3d-fe5495df0239"

  const CnpjId: string := "cnpj"
  const BusinessNameId: string := "business_name"

  predicate IsIndividual(fields: seq<Field>) {
    CheckedValue(fields, ClientTypeName) == Some(IndividualClientId)
  }

  /** `document.querySelector('input#<id>')`: the first non-select control with that id. */
  function InputIndex(fields: seq<Field>, id: string): Option<nat> {
    FindFirst(fields, (f: Field) => f.control != Select && f.id == id)
  }

  /** Shows or hides the field at `idx` (if any), making it required exactly
      when it is shown. */
  function Restyle(fields: seq<Field>, idx: Option<nat>, off: bool): (r: seq<Field>)
    ensures |r| == |fields|
  {
    if idx.Some? && idx.value < |fields| then
      fields[idx.value := fields[idx.value].(hidden := off, required := !off)]
    else fields
  }

  /** `updateFieldVisibility`: the fields once the rule has been applied. */
  function WithVisibility(fields: seq<Field>): (r: seq<Field>)
    ensures |r| == |fields|
  {
    var off := IsIndividual(fields);
    Restyle(Restyle(fields, InputIndex(fields, CnpjId), off), InputIndex(fields, BusinessNameId), off)
  }

  /** A field the visibility rule controls. */
  predicate IsDependent(fields: seq<Field>, i: nat) {
    InputIndex(fields, CnpjId) == Some(i) || InputIndex(fields, BusinessNameId) == Some(i)
  }

  lemma SameDataSameLookups(a: seq<Field>, b: seq<Field>)
    requires |a| == |b|
    requires forall i :: 0 <= i < |a| ==> a[i] == b[i].(hidden := a[i].hidden, required := a[i].required)
    ensures IsIndividual(a) <==> IsIndividual(b)
    ensures InputIndex(a, CnpjId) == InputIndex(b, CnpjId)
    ensures InputIndex(a, BusinessNameId) == InputIndex(b, BusinessNameId)
  {
    SameDataFindFirst(a, b, (f: Field) => f.control == Radio && f.name == ClientTypeName && f.entry.checked);
    SameDataFindFirst(a, b, (f: Field) => f.control != Select && f.id == CnpjId);
    SameDataFindFirst(a, b, (f: Field) => f.control != Select && f.id == BusinessNameId);
  }

  lemma SameDataFindFirst(a: seq<Field>, b: seq<Field>, p: Field -> bool)
    requires |a| == |b|
    requires forall i :: 0 <= i < |a| ==> p(a[i]) == p(b[i])
    ensures FindFirst(a, p) == FindFirst(b, p)
  {
  }

  /** The visibility rule: the first `input#cnpj` and the first
      `input#business_name` end up hidden and not required exactly when the
      checked client type is the individual-client value, and shown and
      required otherwise (also when no client type is checked); every other
      field, and every other attribute, is left as it was. */
  lemma VisibilityRule(fields: seq<Field>)
    ensures |WithVisibility(fields)| == |fields|
    ensures forall i :: 0 <= i < |fields| && IsDependent(fields, i) ==>
      (WithVisibility(fields)[i].hidden <==> IsIndividual(fields)) &&
      (WithVisibility(fields)[i].required <==> !IsIndividual(fields))
    ensures forall i :: 0 <= i < |fields| && !IsDependent(fields, i) ==>
      WithVisibility(fields)[i] == fields[i]
    ensures forall i :: 0 <= i < |fields| ==>
      WithVisibility(fields)[i] == fields[i].(hidden := WithVisibility(fields)[i].hidden,
                                              required := WithVisibility(fields)[i].required)
  {
  }

  /** Applying the rule a second time changes nothing. */
  lemma VisibilityIdempotent(fields: seq<Field>)
    ensures WithVisibility(WithVisibility(fields)) == WithVisibility(fields)
  {
    var r := WithVisibility(fields);
    VisibilityRule(fields);
    SameDataSameLookups(r, fields);
    VisibilityRule(r);
    assert forall i :: 0 <= i < |r| ==> WithVisibility(r)[i] == r[i];
  }

  // ---------------------------------------------------------------------
  // Step validation

  /** A field `validateStep(k)` checks for content: required, in step `k`,
      and not hidden inline. */
  predicate Checked(f: Field, k: nat) {
    f.step == k && f.required && !f.hidden
  }

  /** `!value.trim()`. */
  predicate Blank(f: Field) {
    Trim(f.entry.value) == []
  }

  /** A radio button of step `k` (hidden or not, required or not). */
  predicate RadioIn(f: Field, k: nat) {
    f.step == k && f.control == Radio
  }

  predicate GroupAnswered(fields: seq<Field>, k: nat, name: string) {
    exists j :: 0 <= j < |fields| && RadioIn(fields[j], k) && fields[j].name == name && fields[j].entry.checked
  }

  predicate RequiredFilled(fields: seq<Field>, k: nat) {
    forall i :: 0 <= i < |fields| && Checked(fields[i], k) ==> !Blank(fields[i])
  }

  predicate GroupsAnswered(fields: seq<Field>, k: nat) {
    forall i :: 0 <= i < |fields| && RadioIn(fields[i], k) ==> GroupAnswered(fields, k, fields[i].name)
  }

  /** When step `k` may be left: every checked field has non-blank content
      and every radio group of the step has a checked member. */
  predicate StepValid(fields: seq<Field>, k: nat) {
    RequiredFilled(fields, k) && GroupsAnswered(fields, k)
  }

  /** The marker `validateStep(k)` leaves on one field: set on a checked
      blank field, cleared on a checked filled one, untouched otherwise. */
  function FlagField(f: Field, k: nat): (g: Field)
    ensures g.(flagged := f.flagged) == f
  {
    if Checked(f, k) then f.(flagged := Blank(f)) else f
  }

  function Flagged(fields: seq<Field>, k: nat): (r: seq<Field>)
    ensures |r| == |fields| && forall i :: 0 <= i < |fields| ==> r[i] == FlagField(fields[i], k)
  {
    seq(|fields|, i requires 0 <= i < |fields| => FlagField(fields[i], k))
  }

  /** The first pass of `validateStep(k)`: visits every checked field (no
      short-circuit), setting or clearing its marker, and reports whether
      all of them have content. */
  method MarkRequired(fields: seq<Field>, k: nat) returns (filled: bool, marked: seq<Field>)
    ensures filled <==> RequiredFilled(fields, k)
    ensures marked == Flagged(fields, k)
  {
    filled := true;
    marked := [];
    var i := 0;
    while i < |fields|
      invariant 0 <= i <= |fields|
      invariant |marked| == i && forall j :: 0 <= j < i ==> marked[j] == FlagField(fields[j], k)
      invariant filled <==> forall j :: 0 <= j < i && Checked(fields[j], k) ==> !Blank(fields[j])
    {
      var f := fields[i];
      if Checked(f, k) {
        if Trim(f.entry.value) == [] {
          filled := false;
          marked := marked + [f.(flagged := true)];
        } else {
          marked := marked + [f.(flagged := false)];
        }
      } else {
        marked := marked + [f];
      }
      i := i + 1;
    }
  }

  /** The `radioGroups` dictionary: one key per radio name of step `k`,
      mapped to whether some radio of that name is checked. */
  method CollectRadioGroups(fields: seq<Field>, k: nat) returns (radioGroups: map<string, bool>)
    ensures forall n :: n in radioGroups <==>
      exists j :: 0 <= j < |fields| && RadioIn(fields[j], k) && fields[j].name == n
    ensures forall n :: n in radioGroups ==> (radioGroups[n] <==> GroupAnswered(fields, k, n))
  {
    radioGroups := map[];
    var i := 0;
    while i < |fields|
      invariant 0 <= i <= |fields|
      invariant forall n :: n in radioGroups <==>
        exists j :: 0 <= j < i && RadioIn(fields[j], k) && fields[j].name == n
      invariant forall n :: n in radioGroups ==> (radioGroups[n] <==>
        exists j :: 0 <= j < i && RadioIn(fields[j], k) && fields[j].name == n && fields[j].entry.checked)
    {
      var radio := fields[i];
      if RadioIn(radio, k) {
        if radio.name !in radioGroups {
          radioGroups := radioGroups[radio.name := false];
        }
        if radio.entry.checked {
          radioGroups := radioGroups[radio.name := true];
        }
      }
      i := i + 1;
    }
  }

  /** The `for (const groupName in radioGroups)` pass. */
  method AllGroupsAnswered(radioGroups: map<string, bool>) returns (answered: bool)
    ensures answered <==> forall n :: n in radioGroups ==> radioGroups[n]
  {
    answered := true;
    var pending := radioGroups.Keys;
    while pending != {}
      invariant pending <= radioGroups.Keys
      invariant answered <==> forall n :: n in radioGroups && n !in pending ==> radioGroups[n]
      decreases |pending|
    {
      var groupName :| groupName in pending;
      if !radioGroups[groupName] {
        answered := false;
      }
      pending := pending - {groupName};
    }
  }

  /** `validateStep(k)`: the step's verdict and the fields with their new markers. */
  method ValidateFields(fields: seq<Field>, k: nat) returns (isValid: bool, marked: seq<Field>)
    ensures isValid <==> StepValid(fields, k)
    ensures marked == Flagged(fields, k)
  {
    var filled;
    filled, marked := MarkRequired(fields, k);
    var radioGroups := CollectRadioGroups(fields, k);
    var answered := AllGroupsAnswered(radioGroups);
    isValid := filled && answered;
    if answered {
      forall i | 0 <= i < |fields| && RadioIn(fields[i], k)
        ensures GroupAnswered(fields, k, fields[i].name)
      {
        assert fields[i].name in radioGroups;
      }
    } else {
      var n :| n in radioGroups && !radioGroups[n];
      var j :| 0 <= j < |fields| && RadioIn(fields[j], k) && fields[j].name == n;
      assert !GroupAnswered(fields, k, fields[j].name);
    }
  }

  /** Markers never influence validity, and marking twice is marking once. */
  lemma MarkersAreOutputOnly(fields: seq<Field>, k: nat)
    ensures StepValid(Flagged(fields, k), k) <==> StepValid(fields, k)
    ensures Flagged(Flagged(fields, k), k) == Flagged(fields, k)
  {
    var m := Flagged(fields, k);
    assert forall i :: 0 <= i < |fields| ==> m[i].(flagged := fields[i].flagged) == fields[i];
    if StepValid(fields, k) {
      forall i | 0 <= i < |m| && RadioIn(m[i], k) ensures GroupAnswered(m, k, m[i].name) {
        var j :| 0 <= j < |fields| && RadioIn(fields[j], k) && fields[j].name == fields[i].name && fields[j].entry.checked;
        assert RadioIn(m[j], k) && m[j].name == m[i].name && m[j].entry.checked;
      }
    }
    if StepValid(m, k) {
      forall i | 0 <= i < |fields| && RadioIn(fields[i], k) ensures GroupAnswered(fields, k, fields[i].name) {
        var j :| 0 <= j < |m| && RadioIn(m[j], k) && m[j].name == m[i].name && m[j].entry.checked;
        assert RadioIn(fields[j], k) && fields[j].name == fields[i].name && fields[j].entry.checked;
      }
    }
  }

  /** Whatever a hidden field holds, it never makes its step fail, and its
      marker is left untouched. */
  lemma HiddenFieldIgnored(fields: seq<Field>, k: nat, i: nat, v: string)
    requires i < |fields| && fields[i].hidden && fields[i].control != Radio
    ensures StepValid(fields[i := fields[i].(entry := fields[i].entry.(value := v))], k) <==> StepValid(fields, k)
    ensures Flagged(fields, k)[i] == fields[i]
  {
    var g := fields[i := fields[i].(entry := fields[i].entry.(value := v))];
    assert forall j :: 0 <= j < |g| ==> (RadioIn(g[j], k) <==> RadioIn(fields[j], k));
    assert forall j :: 0 <= j < |g| && RadioIn(g[j], k) ==> g[j] == fields[j];
    if GroupsAnswered(fields, k) {
      forall j | 0 <= j < |g| && RadioIn(g[j], k) ensures GroupAnswered(g, k, g[j].name) {
        var t :| 0 <= t < |fields| && RadioIn(fields[t], k) && fields[t].name == fields[j].name && fields[t].entry.checked;
        assert g[t] == fields[t];
      }
    }
    if GroupsAnswered(g, k) {
      forall j | 0 <= j < |fields| && RadioIn(fields[j], k) ensures GroupAnswered(fields, k, fields[j].name) {
        var t :| 0 <= t < |g| && RadioIn(g[t], k) && g[t].name == g[j].name && g[t].entry.checked;
        assert g[t] == fields[t];
      }
    }
  }

  /** For an individual client the two dependent fields are hidden once the
      rule has run, so they are never checked for content. */
  lemma IndividualSkipsDependents(fields: seq<Field>, k: nat, i: nat)
    requires i < |fields| && IsDependent(fields, i) && IsIndividual(fields)
    ensures WithVisibility(fields)[i].hidden && !Checked(WithVisibility(fields)[i], k)
  {
    VisibilityRule(fields);
  }

  // ---------------------------------------------------------------------
  // form.reset()

  /** `form.reset()`: every control gets its default entry back; visibility,
      the required flag and the error markers are kept. */
  function ResetValues(fields: seq<Field>): (r: seq<Field>)
    ensures |r| == |fields|
    ensures forall i :: 0 <= i < |fields| ==>
      r[i].entry == fields[i].defaultEntry && r[i].(entry := fields[i].entry) == fields[i]
  {
    seq(|fields|, i requires 0 <= i < |fields| => fields[i].(entry := fields[i].defaultEntry))
  }

  lemma ResetIdempotent(fields: seq<Field>)
    ensures ResetValues(ResetValues(fields)) == ResetValues(fields)
  {
  }
}
