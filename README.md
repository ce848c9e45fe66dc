# my-form: the multi-step "closed deal" form, modelled in Dafny

The repository is a browser form that records a closed sale. It has four
steps: contact, store, payment, and a summary page. Two scripts drive it:

- `formSteps.js` holds the `FormStepsManager` class, which moves between the
  steps. It also holds the global input masks: CPF, CNPJ, CEP and word
  capitalisation.
- `sendData.js` turns the form into a key/value payload and posts it to a
  webhook.

The model treats the page as a sequence of fields (`Form.Field`). Each field
has:

- an id and a name;
- a kind: text-like input, `<select>` or radio;
- the step it belongs to;
- its current and default entry (value, checked flag, selected option text);
- its `required` attribute;
- its `display: none` state;
- its error marker.

DOM lookups such as `getElementById`, `querySelector(...:checked)` and
`select option:checked` become first-match searches over that sequence. A
failed lookup is an `Option.None`.

The model is split into these modules:

- Masks: the digit filter and the mask filler, as a method with its loop.
  It also proves what a masked value is: the leading digits placed into the
  mask's slots, with the separators that come before the last digit used.
  Further proofs cover idempotence on the three masks used, and worked CPF
  examples.
- Capitalize: `isRomanNumeral` and `capitalizeWords` as functions over
  strings. The proofs cover layout preservation, the per-word cases and
  idempotence.
- Chars: ASCII case mapping and the JavaScript `trim` whitespace set.
- Form: the visibility rule of `updateFieldVisibility` and the validation of
  `validateStep`, whose three loops are methods proved against a predicate
  `StepValid`. It also has `form.reset()`.
- Summary: `populateSummary` as a function from the values it reads to
  three sections of captioned lines.
- Submission: `collectFormData` as a method whose two loops are proved
  against a last-write-wins fold. It also has `sendToWebhook` over an
  abstract HTTP reply, and `submitFormData`.
- Steps: the `FormStepsManager` class with fields `currentStep`, `fields`
  and `summary`, and methods for next, previous, go-to, reset and submit.
  It also has the progress-bar percentage.

## Model

| member | source | states |
|---|---|---|
| Masks.OnlyDigits | formSteps.js:421 | `value.replace(/\D/g, '')`: the result is all ASCII digits, no longer than the value, and a value that is already all digits is left as it is. |
| Masks.OnlyDigitsAppend | formSteps.js:421 | Stripping works piecewise: the digits of `a + b` are the digits of `a` followed by those of `b`. |
| Masks.OnlyDigitsChar | formSteps.js:421 | A single character survives exactly when it is an ASCII digit. With `OnlyDigitsAppend` this determines the result for every value: each digit is kept, in order, and nothing else. |
| Masks.MascaraInteiro | formSteps.js:415-418 | After the non-digits are removed the rest is always all digits, so the check never fails. |
| Masks.FormataCampo | formSteps.js:420-433 | The loop returns `true` and the value `Mask(value, mask)`: the digits of the value (with non-digits dropped) are written into the mask, one per `0`, stopping when either the digits or the mask run out. |
| Masks.FillPicksLeadingDigits | formSteps.js:424-430 | The characters written into the mask's digit slots are exactly the first min(#digits, #slots) digits, in order. |
| Masks.FillSlotsAreDigits | formSteps.js:425-426 | When the poured characters are digits, every slot position of the result holds a digit. |
| Masks.FillKeepsSeparators | formSteps.js:427-429 | Every non-slot position of the result holds the mask's own separator character. |
| Masks.FillStopsAfterLastDigit | formSteps.js:424 | When there are fewer digits than slots, the result ends with the last digit: no trailing separator is written. |
| Masks.SurplusDigitsDropped | formSteps.js:424 | With more digits than slots, the whole mask is written (the result is exactly as long as the mask) and the slots take the first #slots digits; the surplus is dropped. |
| Masks.OnlyDigitsOfFill | formSteps.js:421 | Removing the non-digits from a filled mask gives back the digits that were placed. |
| Masks.MaskIdempotent | formSteps.js:420-433 | For a mask whose separators are not digits and which ends in a slot, masking an already-masked value changes nothing. So re-running the input handler on each keystroke is stable. |
| Masks.TrailingSeparatorBreaksIdempotence | formSteps.js:424-430 | The side condition is needed: under the mask "00-", the value "123" becomes "12-" and then "12". |
| Masks.CpfMaskWellFormed | formSteps.js:437 | The CPF mask "000.000.000-00" has 11 slots, non-digit separators and ends in a slot, so CPF masking is idempotent. |
| Masks.CnpjMaskWellFormed | formSteps.js:442 | The CNPJ mask "00.000.000/0000-00" has 14 slots and is well formed. |
| Masks.CepMaskWellFormed | formSteps.js:447 | The CEP mask "00.000-000" has 8 slots and is well formed. |
| Masks.MascaraCpf | formSteps.js:435-438 | Returns `true` with the value masked by the CPF mask. |
| Masks.MascaraCnpj | formSteps.js:440-443 | Returns `true` with the value masked by the CNPJ mask. |
| Masks.MascaraCep | formSteps.js:445-448 | Returns `true` with the value masked by the CEP mask. |
| Masks.CpfPartialExample | formSteps.js:424-430 | "123" is left as "123": the first separator is written only once a fourth digit arrives. |
| Masks.CpfFirstSeparatorExample | formSteps.js:424-430 | "1234" becomes "123.4": the separator is written once a digit follows it. |
| Masks.CpfCompleteExample | formSteps.js:435-438 | "12345678901" becomes "123.456.789-01". |
| Masks.CpfSurplusExample | formSteps.js:424 | A twelfth digit is dropped: "123456789012" becomes "123.456.789-01". |
| Capitalize.IsRomanNumeral | formSteps.js:450-454 | `/^[ivxlcdm]+$/i`: true exactly for a non-empty word whose every character is one of i, v, x, l, c, d, m in either case. |
| Capitalize.CapitalizeWord | formSteps.js:459-468 | The mapping of one token (empty stays empty, a numeral is upper-cased, anything else gets an upper-case first character and a lower-case rest) changes only the case of letters. |
| Capitalize.Split | formSteps.js:457 | `split(' ')` always yields at least one token (empty tokens included) and no token contains a space. |
| Capitalize.CapitalizeWords | formSteps.js:456-472 | The value written back (split, map each token, join with single spaces) differs from the input only in the case of letters. |
| Capitalize.CapitalizeWordsKeepsLayout | formSteps.js:456-472 | Under the ASCII case mapping of the model, the result has the input's length, its spaces at the same positions, and each character is a case variant of the input's character. |
| Capitalize.CapitalizeWordsPerToken | formSteps.js:457-468 | Splitting on single spaces gives as many tokens as before. An empty token stays empty, a Roman-numeral token is upper-cased in full, and any other token gets an upper-case first letter followed by lower-case letters. |
| Capitalize.CaseVariantKeepsClass | formSteps.js:453 | The Roman-letter test ignores case, so a case variant of a numeral is a numeral. |
| Capitalize.CapitalizeWordsIdempotent | formSteps.js:456-472 | Under the ASCII case mapping of the model, capitalising an already-capitalised value changes nothing, so the per-keystroke handler is stable for ASCII text. |
| Capitalize.JoinSplit | formSteps.js:457-470 | Joining the tokens of a split with single spaces gives back the original string. |
| Capitalize.SplitJoin | formSteps.js:457-470 | Splitting a join of space-free tokens gives back the tokens. |
| Capitalize.NameExample | formSteps.js:467 | "joão da silva" becomes "João Da Silva". |
| Capitalize.NumeralExample | formSteps.js:463-465 | "casa ii" becomes "Casa II". |
| Capitalize.NumeralLetterWordExample | formSteps.js:453 | The test accepts any run of the seven letters: "mix" is treated as a numeral and becomes "MIX". |
| Chars.Trim | formSteps.js:123 | `trim()` is no longer than the value and its result neither starts nor ends with JavaScript whitespace. |
| Chars.TrimIsSlice | formSteps.js:123 | `trim()` yields the slice of the value that starts after its leading whitespace, and every character outside that slice is JavaScript whitespace. |
| Chars.TrimEmptyIffBlank | formSteps.js:123 | `trim()` yields the empty string exactly when every character is JavaScript whitespace. |
| Form.FindFirst | formSteps.js:79-83 | The first-match lookup finds an index exactly when a matching field exists, and it is the least such index. |
| Form.VisibilityRule | formSteps.js:78-106 | The first `input#cnpj` and the first `input#business_name` are hidden and not required exactly when the checked `cliente_tipo` equals the individual-client GUID. Otherwise they are shown and required, including when nothing is checked. No other field and no other attribute changes. |
| Form.VisibilityIdempotent | formSteps.js:78-106 | Applying the rule twice gives the same fields as applying it once. |
| Form.IndividualSkipsDependents | formSteps.js:85-120 | For an individual client the CNPJ and company-name fields are hidden after the rule runs, so validation never checks them. |
| Form.MarkRequired | formSteps.js:113-131 | Reports whether every visible required field of the step has a non-blank trimmed value, and marks exactly the blank ones. |
| Form.CollectRadioGroups | formSteps.js:133-142 | The map's keys are exactly the names of the step's radios. A name maps to `true` exactly when one of its radios is checked. |
| Form.AllGroupsAnswered | formSteps.js:145-149 | `true` exactly when every group in the map is `true`. |
| Form.ValidateFields | formSteps.js:108-152 | The step is valid exactly when `StepValid` holds: every visible required field is non-blank and every radio group of the step has a checked radio. The returned fields carry that step's markers. |
| Form.MarkersAreOutputOnly | formSteps.js:125-129 | Error markers do not affect validity, and marking twice is the same as marking once. |
| Form.HiddenFieldIgnored | formSteps.js:118-120 | Whatever value a hidden non-radio field holds, it does not change its step's verdict, and its marker is untouched. |
| Form.ResetValues | formSteps.js:380 | `form.reset()` gives every field its default entry and leaves everything else as it was. |
| Form.ResetIdempotent | formSteps.js:380 | Resetting a form that was just reset changes nothing. |
| Summary.BuildSummary | formSteps.js:230-335 | The review page has three sections whose edit buttons lead to steps 0, 1 and 2. |
| Summary.SummaryInputOf | formSteps.js:242-324 | The values `populateSummary` reads are available exactly when every one of its reads succeeds (`Readable`); the client type is then the checked `cliente_tipo` radio's value. |
| Summary.SummaryShape | formSteps.js:230-335 | Three sections whose edit buttons lead to steps 0, 1 and 2. They hold 4 and 5 lines in the first and last sections. The store section holds 7 lines, plus 2 for a corporate client, plus 1 when the complement is non-empty. |
| Summary.ClientTypeShown | formSteps.js:242-272 | On a form whose reads succeed, the summary's "Tipo de Cliente" line shows "Jurídica" exactly when the checked `cliente_tipo` radio holds "juridica". For the individual-client GUID it shows "Física" and the store section has no CNPJ or "Razão Social" line. |
| Summary.CompanyLines | formSteps.js:265-272 | The CNPJ and "Razão Social" lines appear exactly for a "juridica" client, with the form's values. |
| Summary.ComplementLine | formSteps.js:283-286 | The "Complemento" line appears exactly when the complement is non-empty. |
| Summary.EditTargetsInRange | formSteps.js:240-302 | Every edit button targets a step before the summary. |
| Summary.NoClientTypeNoSummary | formSteps.js:242 | With no checked client type, the read fails and no summary is built. |
| Summary.SummaryShowsCpf | formSteps.js:248-249 | The built summary's CPF line holds the value of the `cpf` field. |
| Summary.SummaryShowsPaymentType | formSteps.js:308-310 | The "Tipo de Pagamento" line holds the text of the option selected in the `payment_type` select. |
| Summary.SummaryShowsBillDate | formSteps.js:312-314 | The "Vencimento do Boleto" line holds the text of the option selected in the `#bill_date` select. |
| Summary.SummaryShowsCompany | formSteps.js:266-272 | For a "juridica" client, the store section's CNPJ and "Razão Social" lines hold the values of the `cnpj` and `business_name` fields. |
| Summary.ClientTypeTestsDisagree | formSteps.js:266-272 | Take a checked client type that is neither the GUID nor "juridica". The CNPJ field is then shown and required on the form, yet the summary leaves it out. |
| Submission.PayloadSpec | sendData.js:5-23 | A key is in the payload exactly when it is the id of a non-radio field with a non-empty id and value, or the name of a checked radio. Radios are written last, so a radio's key holds the value of the last checked radio with that name. Any other key holds the value of the last field with that id. |
| Submission.EmptyPayload | sendData.js:5-23 | The payload is empty exactly when no field contributes and no radio is checked. |
| Submission.PayloadIgnoresVisibility | sendData.js:9-14 | Visibility and error markers do not change the payload, so a hidden CNPJ that still holds a value is sent. |
| Submission.CollectFormData | sendData.js:5-23 | The two loops build exactly `Payload(fields)`. |
| Submission.SendToWebhook | sendData.js:26-47 | Succeeds exactly when a response arrives with a status from 200 to 299 and a JSON body. |
| Submission.ResponseContentIrrelevant | sendData.js:40-42 | For a given status, the parsed body's content does not decide the outcome. |
| Submission.SubmitFormData | sendData.js:50-66 | The webhook is called exactly when the payload is non-empty. The result is `true` exactly when it was called and the reply was a success. |
| Steps.ProgressPercent | formSteps.js:223-228 | The bar's width is between 0 (exclusive) and 100, and it is 100 exactly on the last step. |
| Steps.ProgressIncreases | formSteps.js:224 | A later step shows a strictly wider bar. |
| Steps.EditTargetsAreSteps | formSteps.js:337-356 | Every edit button of a built summary satisfies `GoToStep`'s precondition. |
| Steps.FormStepsManager.constructor | formSteps.js:3-59 | Starts on step 0 with an empty summary and the visibility rule applied. |
| Steps.FormStepsManager.Progress | formSteps.js:223-228 | The current step's bar width is positive and at most 100, and it is 100 exactly on the summary step. |
| Steps.FormStepsManager.UpdateFieldVisibility | formSteps.js:78-106 | The fields become `WithVisibility` of the old fields. The step and the summary are unchanged. |
| Steps.FormStepsManager.ValidateStep | formSteps.js:108-152 | Returns `StepValid` of the old fields and sets that step's markers. Nothing else changes. |
| Steps.FormStepsManager.PopulateSummary | formSteps.js:230-335 | The summary is rebuilt from the fields when every read succeeds, and is left as it was when one fails. |
| Steps.FormStepsManager.NextStep | formSteps.js:154-195 | The current step's markers are updated in every case. The manager advances by one exactly when the step is valid and not the last. The summary is rebuilt exactly when the move reaches the last step. |
| Steps.FormStepsManager.PrevStep | formSteps.js:197-221 | Moves back one step unless on the first step. Fields and summary are unchanged. |
| Steps.FormStepsManager.GoToStep | formSteps.js:337-356 | Jumps to the target with no validation and no summary rebuild. |
| Steps.FormStepsManager.ResetForm | formSteps.js:378-406 | Restores default entries, re-applies visibility, returns to step 0 and empties the summary. |
| Steps.FormStepsManager.SubmitForm | formSteps.js:358-376 | Succeeds exactly when the payload is non-empty and the reply is a success. On success only the entries are reset. The step and the summary stay. |

## Left out

- Animations, `setTimeout` delays, the shake effect and the step sections' `display`/`active`/`exit` classes: presentation only. Each transition takes effect at once in the model, so a second click during the 400 ms delay is not modelled.
- `init`'s event wiring (buttons, radio change, edit buttons, masks on `input` events): the handlers it attaches are the modelled methods. Of `init` itself, only the first visibility update is kept, in the constructor. The first progress update is `Progress()`.
- The progress bar's CSS width and the null check on the bar element: `Progress()` is the value the bar would show.
- Labels of the CNPJ and company-name fields: only their display style changes, and the model has no labels.
- The markers' exact CSS (border colour, box shadow): a marker is a boolean flag.
- Steps.FormStepsManager.GoToStep: requires a target in 0..3. `goToStep` does no bounds check, but its only callers are the summary's edit buttons, and every edit target is in range (`Steps.EditTargetsAreSteps`).
- Steps.FormStepsManager.PopulateSummary: when a lookup fails, the code throws. The model keeps the old summary but does not model the exception. Nor does it model that the exception also skips the progress update in `nextStep`.
- Summary.SummaryInputOf: the bill-date text is read from `#bill_date option:checked` alone. The code first reads the text of `select[name="payment_type"]:nth-of-type(2) option:checked` and falls back to `#bill_date` only when that text is empty. When that first selector matches nothing, reading its text throws, so on such a page `populateSummary` always fails and no summary is ever built. `Readable` does not have that condition, because whether the selector matches depends on the page's markup, which is not modelled.
- The summary's HTML, `innerHTML` and the edit buttons' listeners: the summary is the list of sections and lines it renders.
- Steps.FormStepsManager.SubmitForm: the `typeof submitFormData === 'function'` guard is not modelled (the function is assumed present); `preventDefault`, the alerts and `console` output are left out.
- Submission.SendToWebhook: the URL, the headers and the JSON body that is sent are left out. The reply `fetch` gives is a parameter, so the model does not capture the network, its timing or JSON serialisation.
- Masks.FormataCampo, Masks.MascaraCpf, Masks.MascaraCnpj, Masks.MascaraCep: return the new value rather than writing `field.value`; the methods also return the masks' boolean result.
- Capitalize.CapitalizeWords: the case mapping is ASCII only. `toUpperCase`/`toLowerCase` on other letters (such as "ã"), and the UTF-16 code units of JavaScript strings, are not modelled. Non-ASCII characters pass through unchanged.
- The dictionaries are maps: the code keys plain JavaScript objects, where a radio name such as `constructor` or `toString` reads an inherited truthy property, so its group is never recorded as unanswered, and a field id `__proto__` is dropped from the payload. The form's names and ids are fixed and none of them is such a name, so the model's maps ignore this.
- The page is the form: `collectFormData` and `form.reset()` touch only the controls inside `#closed_deal`, while the other lookups search the whole document. The model has one field sequence for both, so controls outside the form are not modelled.
- The integers are unbounded, and the progress percentage is an exact rational rather than a floating-point number.
- After a successful submit the visibility rule is not re-run (as in the code), so after `form.reset()` the CNPJ fields keep the visibility of the client type that was selected before the reset.
