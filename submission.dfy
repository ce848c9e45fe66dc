/** Building the webhook payload (`collectFormData`), the webhook call as an
    abstract reply (`sendToWebhook`) and the submit decision (`submitFormData`). */
module Submission {
  import opened Wrappers
  import opened Form

  /** A non-radio `<input>` or a `<select>` contributes `id -> value` when both
      are non-empty; there is no trimming, so a value of spaces counts. */
  predicate Contributes(f: Field) {
    f.control != Radio && f.id != "" && f.entry.value != ""
  }

  function FieldKey(f: Field): string { f.id }

  /** A checked radio contributes `name -> value`, whatever the value. */
  predicate CheckedRadio(f: Field) {
    f.control == Radio && f.entry.checked
  }

  function RadioKey(f: Field): string { f.name }

  /** Writes `key(f) -> f`'s value into `m` for every field `f` that `w`
      selects, in document order, a later write replacing an earlier one. */
  function Assign(fields: seq<Field>, m: map<string, string>, w: Field -> bool, key: Field -> string): map<string, string>
    decreases |fields|
  {
    if fields == [] then m
    else
      var before := Assign(fields[..|fields| - 1], m, w, key);
      var f := fields[|fields| - 1];
      if w(f) then before[key(f) := f.entry.value] else before
  }

  /** `collectFormData()`: the field entries, then the checked radios on top. */
  function Payload(fields: seq<Field>): map<string, string> {
    Assign(fields, Assign(fields, map[], Contributes, FieldKey), CheckedRadio, RadioKey)
  }

  /** Field `i` is the last one in document order that writes key `k`. */
  predicate LastWrite(fields: seq<Field>, i: int, k: string, w: Field -> bool, key: Field -> string) {
    0 <= i < |fields| && w(fields[i]) && key(fields[i]) == k &&
    forall j :: i < j < |fields| ==> !(w(fields[j]) && key(fields[j]) == k)
  }

  predicate Writes(fields: seq<Field>, k: string, w: Field -> bool, key: Field -> string) {
    exists i :: 0 <= i < |fields| && w(fields[i]) && key(fields[i]) == k
  }

  /** One pass of writes leaves the keys written and those of `m`. */
  lemma {:induction false} AssignKeys(fields: seq<Field>, m: map<string, string>, w: Field -> bool, key: Field -> string)
    ensures forall k :: k in Assign(fields, m, w, key) <==> k in m || Writes(fields, k, w, key)
  {
    if fields != [] {
      var p := fields[..|fields| - 1];
      var f := fields[|fields| - 1];
      AssignKeys(p, m, w, key);
      forall k ensures k in Assign(fields, m, w, key) <==> k in m || Writes(fields, k, w, key) {
        if Writes(fields, k, w, key) && !(w(f) && key(f) == k) {
          var i :| 0 <= i < |fields| && w(fields[i]) && key(fields[i]) == k;
          assert i < |p| && p[i] == fields[i];
        }
        if Writes(p, k, w, key) {
          var i :| 0 <= i < |p| && w(p[i]) && key(p[i]) == k;
          assert fields[i] == p[i];
        }
      }
    }
  }

  /** A written key holds the value of its last writer. */
  lemma {:induction false} AssignLast(fields: seq<Field>, m: map<string, string>, w: Field -> bool, key: Field -> string)
    ensures forall k :: Writes(fields, k, w, key) ==>
      k in Assign(fields, m, w, key) &&
      exists i :: LastWrite(fields, i, k, w, key) && Assign(fields, m, w, key)[k] == fields[i].entry.value
  {
    if fields != [] {
      AssignLast(fields[..|fields| - 1], m, w, key);
      forall k | Writes(fields, k, w, key)
        ensures k in Assign(fields, m, w, key) &&
          exists i :: LastWrite(fields, i, k, w, key) && Assign(fields, m, w, key)[k] == fields[i].entry.value
      {
        AssignLastStep(fields, fields[..|fields| - 1], m, w, key, k);
      }
    }
  }

  /** The step of `AssignLast` for one key: `p` is `fields` without its last
      field, for which the property already holds. */
  lemma AssignLastStep(fields: seq<Field>, p: seq<Field>, m: map<string, string>, w: Field -> bool, key: Field -> string, k: string)
    requires fields != [] && p == fields[..|fields| - 1] && Writes(fields, k, w, key)
    requires Writes(p, k, w, key) ==>
      k in Assign(p, m, w, key) &&
      exists i :: LastWrite(p, i, k, w, key) && Assign(p, m, w, key)[k] == p[i].entry.value
    ensures k in Assign(fields, m, w, key) &&
      exists i :: LastWrite(fields, i, k, w, key) && Assign(fields, m, w, key)[k] == fields[i].entry.value
  {
    var f := fields[|fields| - 1];
    if w(f) && key(f) == k {
      assert LastWrite(fields, |fields| - 1, k, w, key);
    } else {
      var i0 :| 0 <= i0 < |fields| && w(fields[i0]) && key(fields[i0]) == k;
      assert i0 < |p| && p[i0] == fields[i0];
      var i :| LastWrite(p, i, k, w, key) && Assign(p, m, w, key)[k] == p[i].entry.value;
      LastWriteExtends(fields, p, i, k, w, key);
    }
  }

  lemma LastWriteExtends(fields: seq<Field>, p: seq<Field>, i: int, k: string, w: Field -> bool, key: Field -> string)
    requires fields != [] && p == fields[..|fields| - 1] && LastWrite(p, i, k, w, key)
    requires !(w(fields[|fields| - 1]) && key(fields[|fields| - 1]) == k)
    ensures LastWrite(fields, i, k, w, key) && p[i] == fields[i]
  {
    forall j | i < j < |fields| ensures !(w(fields[j]) && key(fields[j]) == k) {
      if j < |p| {
        assert p[j] == fields[j];
      }
    }
  }

  /** A key nothing writes keeps the value `m` gives it. */
  lemma {:induction false} AssignKeeps(fields: seq<Field>, m: map<string, string>, w: Field -> bool, key: Field -> string)
    ensures forall k :: k in m && !Writes(fields, k, w, key) ==>
      k in Assign(fields, m, w, key) && Assign(fields, m, w, key)[k] == m[k]
  {
    if fields != [] {
      var p := fields[..|fields| - 1];
      AssignKeeps(p, m, w, key);
      forall k | k in m && !Writes(fields, k, w, key)
        ensures k in Assign(fields, m, w, key) && Assign(fields, m, w, key)[k] == m[k]
      {
      }
    }
  }

  /** The payload's keys are the ids of the contributing fields and the names
      of the checked radios. A key some checked radio writes holds the value of
      the last such radio (radios are written after the fields, so they win);
      any other key holds the value of the last field with that id. */
  lemma PayloadSpec(fields: seq<Field>)
    ensures forall k :: k in Payload(fields) <==>
      Writes(fields, k, Contributes, FieldKey) || Writes(fields, k, CheckedRadio, RadioKey)
    ensures forall k :: Writes(fields, k, CheckedRadio, RadioKey) ==>
      exists i :: LastWrite(fields, i, k, CheckedRadio, RadioKey) && Payload(fields)[k] == fields[i].entry.value
    ensures forall k :: Writes(fields, k, Contributes, FieldKey) && !Writes(fields, k, CheckedRadio, RadioKey) ==>
      exists i :: LastWrite(fields, i, k, Contributes, FieldKey) && Payload(fields)[k] == fields[i].entry.value
  {
    var fe := Assign(fields, map[], Contributes, FieldKey);
    AssignKeys(fields, map[], Contributes, FieldKey);
    AssignLast(fields, map[], Contributes, FieldKey);
    AssignKeys(fields, fe, CheckedRadio, RadioKey);
    AssignLast(fields, fe, CheckedRadio, RadioKey);
    AssignKeeps(fields, fe, CheckedRadio, RadioKey);
  }

  /** Nothing is sent exactly when no field contributes and no radio is checked. */
  lemma EmptyPayload(fields: seq<Field>)
    ensures |Payload(fields)| == 0 <==>
      forall i :: 0 <= i < |fields| ==> !Contributes(fields[i]) && !CheckedRadio(fields[i])
  {
    PayloadSpec(fields);
    forall i | 0 <= i < |fields| && Contributes(fields[i]) ensures fields[i].id in Payload(fields) {
      assert Writes(fields, FieldKey(fields[i]), Contributes, FieldKey);
    }
    forall i | 0 <= i < |fields| && CheckedRadio(fields[i]) ensures fields[i].name in Payload(fields) {
      assert Writes(fields, RadioKey(fields[i]), CheckedRadio, RadioKey);
    }
    if |Payload(fields)| != 0 {
      var k :| k in Payload(fields);
    }
  }

  /** The payload depends on ids, names, kinds and entries alone. */
  lemma {:induction false} AssignSameData(a: seq<Field>, b: seq<Field>, m: map<string, string>, w: Field -> bool, key: Field -> string)
    requires |a| == |b|
    requires forall i :: 0 <= i < |a| ==> w(a[i]) == w(b[i]) && key(a[i]) == key(b[i]) && a[i].entry == b[i].entry
    ensures Assign(a, m, w, key) == Assign(b, m, w, key)
  {
    if a != [] {
      AssignSameData(a[..|a| - 1], b[..|b| - 1], m, w, key);
    }
  }

  /** No visibility filter: hiding or showing a field, changing whether it is
      required or marking it leaves the payload as it was, so a hidden CNPJ
      that still holds a value is sent. */
  lemma PayloadIgnoresFormState(a: seq<Field>, b: seq<Field>)
    requires |a| == |b|
    requires forall i :: 0 <= i < |a| ==>
      a[i] == b[i].(hidden := a[i].hidden, required := a[i].required, flagged := a[i].flagged)
    ensures Payload(a) == Payload(b)
  {
    AssignSameData(a, b, map[], Contributes, FieldKey);
    AssignSameData(a, b, Assign(a, map[], Contributes, FieldKey), CheckedRadio, RadioKey);
  }

  lemma PayloadIgnoresVisibility(fields: seq<Field>, k: nat)
    ensures Payload(WithVisibility(fields)) == Payload(fields)
    ensures Payload(Flagged(fields, k)) == Payload(fields)
  {
    VisibilityRule(fields);
    PayloadIgnoresFormState(WithVisibility(fields), fields);
    PayloadIgnoresFormState(Flagged(fields, k), fields);
  }

  /** `collectFormData`: one loop over the inputs and selects, one over the
      checked radios, writing into the same dictionary. */
  method CollectFormData(fields: seq<Field>) returns (formData: map<string, string>)
    ensures formData == Payload(fields)
  {
    formData := map[];
    var i := 0;
    while i < |fields|
      invariant 0 <= i <= |fields|
      invariant formData == Assign(fields[..i], map[], Contributes, FieldKey)
    {
      var field := fields[i];
      if field.control != Radio && field.id != "" && field.entry.value != "" {
        formData := formData[field.id := field.entry.value];
      }
      assert fields[..i + 1][..i] == fields[..i];
      i := i + 1;
    }
    assert fields[..i] == fields;
    ghost var fieldEntries := formData;
    i := 0;
    while i < |fields|
      invariant 0 <= i <= |fields|
      invariant formData == Assign(fields[..i], fieldEntries, CheckedRadio, RadioKey)
    {
      var radio := fields[i];
      if radio.control == Radio && radio.entry.checked {
        formData := formData[radio.name := radio.entry.value];
      }
      assert fields[..i + 1][..i] == fields[..i];
      i := i + 1;
    }
    assert fields[..i] == fields;
  }

  // ---------------------------------------------------------------------
  // The webhook

  datatype Body = Json(text: string) | Malformed

  /** What `fetch` yields: no response at all (a network failure), or a
      status with a body that is or is not valid JSON. */
  datatype HttpReply = NetworkFailure | Response(status: int, body: Body)

  datatype SendError = FetchFailed | HttpStatus(status: int) | InvalidJson

  /** `sendToWebhook`: fails unless the response arrives with an ok status
      (200 to 299) and a body that parses; yields the parsed body. */
  function SendToWebhook(reply: HttpReply): (r: Result<string, SendError>)
    ensures r.Ok? <==> reply.Response? && 200 <= reply.status <= 299 && reply.body.Json?
  {
    match reply
    case NetworkFailure => Err(FetchFailed)
    case Response(status, body) =>
      if !(200 <= status <= 299) then Err(HttpStatus(status))
      else if body.Malformed? then Err(InvalidJson)
      else Ok(body.text)
  }

  /** The content of a successful response has no bearing on the outcome. */
  lemma ResponseContentIrrelevant(status: int, a: string, b: string)
    ensures SendToWebhook(Response(status, Json(a))).Ok? == SendToWebhook(Response(status, Json(b))).Ok?
  {
  }

  /** `submitFormData`: `sent` tells whether the webhook was called. Nothing is
      sent for an empty payload; otherwise the result is whether the call
      succeeded (every failure is caught and reported as `false`). */
  method SubmitFormData(fields: seq<Field>, reply: HttpReply) returns (success: bool, sent: bool)
    ensures sent <==> exists i :: 0 <= i < |fields| && (Contributes(fields[i]) || CheckedRadio(fields[i]))
    ensures success <==> sent && reply.Response? && 200 <= reply.status <= 299 && reply.body.Json?
  {
    var formData := CollectFormData(fields);
    EmptyPayload(fields);
    if |formData| == 0 {
      return false, false;
    }
    var outcome := SendToWebhook(reply);
    success, sent := outcome.Ok?, true;
  }
}
