# Flow documents: editing, HAR import and execution

The system keeps, for every monitored site, a **flow**: an ordered list of HTTP
steps. Each step has a name, a method, a URL, headers, a body, an optional
condition, an optional expectation and a list of extraction rules. A React
front end edits flows in three generations of pages:

- the drawer editor with up/down buttons;
- the drag-and-drop list editor;
- the site forms with a JSON tab.

Flows can also be generated from a HAR capture. A Python back end does four
things:

- it imports HAR captures;
- it runs a flow step by step, with `${name}` templating, JSON-path extraction
  into variables, expectations and redaction of what it records;
- it resolves the site's bearer token;
- it schedules daily runs and records their outcome on the site.

This project models that core in Dafny. Each source file keeps its own form:

- Pure code becomes functions and lemmas.
- React state and form stores become classes whose methods update their fields.
- The Python loops become methods with loop invariants, proved against
  specification functions.

These are parameters of the model rather than modelled code:

- JSON parse and stringify, as a `Codec` of two functions with stated laws;
- the HTTP server, as a `Client` answering per step position;
- condition evaluation;
- AES-GCM decryption;
- environment lookup;
- cron validity;
- the clock and the random delay.

Modules and files:

| module | file | models |
|---|---|---|
| `Wrappers`, `Dicts`, `JsonValues`, `Strings`, `Lists` | wrappers, dicts, json, strings, lists | Option/Result, insertion-ordered objects, JSON values with JS/Python truthiness and Python `str`/`repr`, string and array helpers |
| `Steps` | steps.dfy | the step document, the header list/map conversion and the body text/value conversion of the drawer editor |
| `StepListEditor` | step_list_editor.dfy | `frontend/src/components/FlowEditor/index.jsx` |
| `Har`, `HarImporter` | har.dfy, har_importer.dfy | `backend/app/api/routers/har.py`, `frontend/src/components/HarImporter.jsx` |
| `SiteEdit` | site_edit.dfy | `frontend/src/pages/SiteEdit.jsx` |
| `FlowForm` | flow_form.dfy | the drag-and-drop `FlowEditor.jsx` and `FlowList.jsx` |
| `SiteEditJson` | site_edit_json.dfy | the site page with the visual/JSON flow tabs |
| `AppSiteForm` | app_site_form.dfy | `SiteForm` and `getStatusBadge` of `frontend/frontend/src/App.jsx` |
| `Credentials`, `FlowContexts` | credentials.dfy, flow_context.dfy | `credential_manager.py`, `FlowContext` |
| `Extraction`, `Templating`, `Redaction` | extraction.dfy, templating.dfy, redaction.dfy | the three `backend/app/utils` modules |
| `FlowEngine` | flow_engine.dfy | `execute_flow`, `_execute_step`, `_validate_expect` |
| `Sites`, `Worker`, `Scheduling` | sites.dfy, worker.dfy, scheduler.dfy | the `Site`/`Run` records, `run_site`, the scheduler's job table |
| `AdminAuth` | admin_auth.dfy | `verify_admin_token` |

## Model

| member | source | states |
|---|---|---|
| Lists.Swap | frontend/src/components/FlowEditor/index.jsx:50-53 | positions i and j exchanged, every other position and the length kept |
| Lists.SwapPermutes | frontend/src/components/FlowEditor/index.jsx:50-53 | a swap is a permutation (same multiset) |
| Lists.SwapTwice | frontend/src/components/FlowEditor/index.jsx:50-53 | swapping back restores the list |
| Lists.RemoveAt | frontend/src/components/FlowEditor/index.jsx:40-41 | `splice(i, 1)`: one element fewer, the elements before i kept and the ones after shifted down; an index past the end changes nothing |
| Lists.RemoveAtMultiset | frontend/src/components/FlowEditor/index.jsx:40-41 | the removed element plus the rest is the original multiset |
| Lists.InsertAt | frontend/frontend/src/pages/Sites/FlowEditor/FlowList.jsx:14 | x inserted at i, the prefix kept and the suffix shifted up |
| Lists.Move | frontend/frontend/src/pages/Sites/FlowEditor/FlowList.jsx:14 | an array move: same length, the moved element lands at `to`, out-of-range indexes change nothing |
| Lists.MovePermutes | frontend/frontend/src/pages/Sites/FlowEditor/FlowList.jsx:14 | a move is a permutation |
| Lists.MoveBack | frontend/frontend/src/pages/Sites/FlowEditor/FlowList.jsx:14 | moving from `to` back to `from` restores the list |
| Lists.MoveAt | frontend/frontend/src/pages/Sites/FlowEditor/FlowList.jsx:14 | every position of a moved list holds the element from one computed source position |
| Lists.MoveSourceInjective | frontend/frontend/src/pages/Sites/FlowEditor/FlowList.jsx:14 | distinct positions come from distinct source positions |
| Lists.MoveDistinct | frontend/frontend/src/pages/Sites/FlowEditor/FlowList.jsx:14 | moving keeps a duplicate-free list (the field keys) duplicate-free |
| Lists.RemoveAtDistinct | frontend/frontend/src/pages/Sites/FlowEditor/FlowList.jsx:37 | removing keeps a duplicate-free list duplicate-free |
| Lists.FindIndex | frontend/frontend/src/pages/Sites/FlowEditor/FlowList.jsx:12-13 | `findIndex`: the first position holding the value, -1 exactly when it is absent |
| Lists.Filter | frontend/src/components/HarImporter.jsx:39 | `filter`: no longer than the input, and every kept element satisfies the predicate |
| Lists.FilterKeeps | frontend/src/components/HarImporter.jsx:39 | the filter result is the input at the strictly increasing list of exactly those positions whose element satisfies the predicate: a subsequence, in order |
| Lists.FilterAppend | backend/app/api/routers/har.py:26-45 | filtering `s + [x]` filters `s` and keeps x exactly when it satisfies the predicate |
| Steps.StepNameInjective | backend/app/api/routers/har.py:59 | `step_{idx+1}` names of different positions differ |
| Steps.Rules | backend/app/services/flow_engine.py:141 | `step.get('extract', [])`: the step's rules, or none when the key is missing |
| Steps.HeadersToRows | frontend/src/components/FlowEditor/index.jsx:24 | one `{name, value}` row per header, in the map's order |
| Steps.RowPairs | frontend/src/components/FlowEditor/index.jsx:61-64 | the rows as (name, value) pairs, position by position |
| Steps.RowsToHeaders | frontend/src/components/FlowEditor/index.jsx:61-64 | the `forEach` loop builds the map of the pairs taken in order |
| Steps.RowsToHeadersLastWins | frontend/src/components/FlowEditor/index.jsx:61-64 | a name's value in the map is its last row's value |
| Steps.HeadersRowsRoundTrip | frontend/src/components/FlowEditor/index.jsx:24 | map to rows and back is the identity |
| Steps.BodyToText | frontend/src/components/FlowEditor/index.jsx:26-29 | an object or array body becomes its JSON text; any other body is kept |
| Steps.CoerceBody | frontend/src/components/FlowEditor/index.jsx:66-73 | a text starting with `{` or `[` that parses becomes the parsed value; anything else is kept as it is |
| Steps.CoerceBodyKeepsScalars | frontend/src/components/FlowEditor/index.jsx:68 | a text such as `123` that does not start with `{` or `[` stays a string even though it parses |
| Steps.BodyRoundTrip | frontend/src/components/FlowEditor/index.jsx:26-29 | for a codec whose object and array texts parse back and start with a bracket, showing a body and saving it again restores it, unless it is a string that itself starts with a bracket and parses |
| Steps.BodyRoundTripParsesText | frontend/src/components/FlowEditor/index.jsx:66-73 | a string body that looks like JSON comes back parsed: the round trip is not the identity for such strings |
| Steps.EditForm | frontend/src/components/FlowEditor/index.jsx:19-35 | the form holding exactly the step's fields, its header rows and its body text: what `setFieldsValue` leaves when the step carries every optional key |
| Steps.MergedEditForm | frontend/src/components/FlowEditor/index.jsx:31-35 | `setFieldsValue` merges: name, method, URL, header rows and body text come from the step; a condition, expectation or extract list the step lacks keeps the form's previous value |
| Steps.MergedEditFormOfFullStep | frontend/src/components/FlowEditor/index.jsx:31-35 | for a step carrying condition, expectation and extract, the merged form is the step's own form whatever the form held before |
| Steps.StepFromForm | frontend/src/components/FlowEditor/index.jsx:75-81 | the saved step takes the form's fields, the rebuilt headers and the coerced body |
| Steps.EditSaveRoundTrip | frontend/src/components/FlowEditor/index.jsx:19-95 | saving the form holding exactly a step gives back that step, except a bracketed JSON string body, which comes back parsed |
| StepListEditor.EmptyForm | frontend/src/components/FlowEditor/StepForm.jsx:77 | a reset form has no headers, body, condition or extraction and expect type `json` |
| StepListEditor.SaveStep | frontend/src/components/FlowEditor/index.jsx:83-88 | with editingIndex > -1 only that slot is replaced and the length kept; otherwise the step is appended |
| StepListEditor.FlowEditor.constructor | frontend/src/components/FlowEditor/index.jsx:9-11 | no step being edited, drawer closed, empty form |
| StepListEditor.FlowEditor.HandleAdd | frontend/src/components/FlowEditor/index.jsx:13-17 | editing index -1, form reset, drawer open |
| StepListEditor.FlowEditor.HandleEdit | frontend/src/components/FlowEditor/index.jsx:19-37 | editing index set, drawer open, and the form becomes the previous form merged with the step (keys the step lacks keep their old values) |
| StepListEditor.FlowEditor.HandleClose | frontend/src/components/FlowEditor/index.jsx:140 | only the drawer closes |
| StepListEditor.FlowEditor.HandleDelete | frontend/src/components/FlowEditor/index.jsx:39-43 | emits the flow without the element at index; the input is not changed |
| StepListEditor.FlowEditor.HandleMove | frontend/src/components/FlowEditor/index.jsx:45-54 | a target outside the flow emits nothing; otherwise emits the flow with index and target swapped |
| StepListEditor.FlowEditor.HandleSave | frontend/src/components/FlowEditor/index.jsx:56-95 | failed validation changes nothing and emits nothing; otherwise emits the flow with the saved step replaced or appended and closes the drawer |
| StepListEditor.MoveIsReversible | frontend/src/components/FlowEditor/index.jsx:45-54 | a move up followed by the opposite move restores the flow, and every move is a permutation |
| StepListEditor.DeleteKeepsOrder | frontend/src/components/FlowEditor/index.jsx:39-43 | deleting keeps the rest in order and removes exactly one occurrence |
| StepListEditor.EditThenSave | frontend/src/components/FlowEditor/index.jsx:19-95 | whatever the form held before, saving an unchanged edit of a step that carries condition, expectation and extract replaces step i by itself (bracketed JSON string bodies excepted) |
| StepListEditor.EditAddsStaleExpect | frontend/src/components/FlowEditor/index.jsx:31-35 | a step without `expect` is saved with the expectation the form held before; after a reset form that is `{type: json}`, so the saved step differs from the step |
| Har.Project | backend/app/api/routers/har.py:38-45 | url, method, status and time copied, headers as a map (later duplicates win), postData text or none |
| Har.ParseHar | backend/app/api/routers/har.py:26-45 | the projections of the surviving entries, in order |
| Har.IsStatic | backend/app/api/routers/har.py:21-22 | the URL ends with one of the twelve static-file extensions |
| Har.IsAnalytics | backend/app/api/routers/har.py:23-24 | the URL contains one of the five analytics domain names anywhere |
| Har.Surviving | backend/app/api/routers/har.py:26-36 | no longer than the input, and no survivor is static or analytics |
| Har.SurvivingCharacterised | backend/app/api/routers/har.py:26-45 | the survivors are exactly the entries that are neither static files nor analytics, in their original order |
| Har.ExamplesDropped | backend/app/api/routers/har.py:21-24 | a `.png` URL counts as static and a Google Analytics URL as analytics |
| Har.LowerHeaders | backend/app/api/routers/har.py:68 | the header map re-keyed by lower-cased names, a later duplicate winning |
| Har.SelectHeaders | backend/app/api/routers/har.py:70-72 | the allow-listed names present in the lower-cased map, with their values, in allow-list order |
| Har.SelectHeadersGet | backend/app/api/routers/har.py:68-72 | a kept header name maps to its lower-cased header's value; every other name is absent |
| Har.GeneratedBody | backend/app/api/routers/har.py:75-79 | no body for missing or empty postData; the parsed value when it parses; otherwise the raw text |
| Har.GeneratedStep | backend/app/api/routers/har.py:57-79 | step `step_{idx+1}` with the entry's method and URL, the four kept headers and the generated body |
| Har.GenerateFlow | backend/app/api/routers/har.py:55-83 | one generated step per selected entry, in input order |
| Har.GeneratedNamesDistinct | backend/app/api/routers/har.py:57-59 | step names within one batch are distinct |
| Har.GeneratedHeaders | backend/app/api/routers/har.py:66-72 | headers keep only accept, content-type, authorization and cookie, matched case-insensitively, under lower-case keys |
| Har.NumericPostDataParsed | backend/app/api/routers/har.py:75-77 | postData `123` becomes the number 123 |
| JsonValues.PyTruthy | backend/app/services/flow_engine.py:142 | Python's `bool(v)`: None, False, 0, empty string, list and dict are false |
| JsonValues.JsTruthy | frontend/frontend/frontend/src/pages/Sites/SiteEdit.jsx:36-38 | JavaScript truthiness for `\|\|`: null, false, 0 and `""` are falsy, every array and object truthy |
| JsonValues.PyStr | backend/app/utils/templating.py:14 | Python's `str(v)`: a string is itself; None, booleans and numbers print as Python does; lists and dicts show their members' repr |
| JsonValues.PyRepr | backend/app/services/flow_engine.py:126 | Python's `repr(v)` of a list or dict member: strings quoted and escaped, anything else as `str` |
| JsonValues.ReprQuote | backend/app/services/flow_engine.py:126 | repr quotes with `"` exactly when the text contains `'` and no `"`, otherwise with `'` |
| JsonValues.EscapeChar | backend/app/services/flow_engine.py:126 | a character is written with a backslash exactly when it is a backslash, the chosen quote, tab, newline, carriage return or a `\x` control character |
| JsonValues.StrRepr | backend/app/services/flow_engine.py:126 | the escaped text between two copies of the chosen quote |
| JsonValues.StrReprRoundTrip | backend/app/services/flow_engine.py:126 | reading a string repr back gives the string: the quoting and escaping lose nothing |
| JsonValues.StrReprQuoteExample | backend/app/services/flow_engine.py:126 | `it's` is shown as `"it's"` |
| JsonValues.StrReprNewlineExample | backend/app/services/flow_engine.py:126 | a newline is shown as `\n` inside single quotes |
| HarImporter.Keyed | frontend/src/components/HarImporter.jsx:20 | each entry's key is its position |
| HarImporter.Payload | frontend/src/components/HarImporter.jsx:39-40 | the entries sent are the selected rows' entries, in order; the row `key` the page adds to each is left out, since the backend never reads it |
| HarImporter.Importer.constructor | frontend/src/components/HarImporter.jsx:9-12 | no entries, no selection, not loading, not processing |
| HarImporter.Importer.HandleUpload | frontend/src/components/HarImporter.jsx:14-30 | on success the entries are keyed by position and the selection is emptied; on failure both are kept; loading ends false |
| HarImporter.Importer.SetSelection | frontend/src/components/HarImporter.jsx:109-111 | only the selection changes |
| HarImporter.Importer.Reset | frontend/src/components/HarImporter.jsx:94 | only the entries are cleared |
| HarImporter.Importer.HandleGenerate | frontend/src/components/HarImporter.jsx:32-48 | an empty selection sends and imports nothing; otherwise the selected entries are sent in original order and the flow is imported only on success; processing ends false |
| HarImporter.SelectionOrderIrrelevant | frontend/src/components/HarImporter.jsx:39 | two selections with the same members select the same entries |
| HarImporter.SelectedAfterUpload | frontend/src/components/HarImporter.jsx:20-39 | after an upload the selected entries are the parsed entries at the selected positions, in increasing order, without duplicates |
| SiteEdit.NewSiteFields | frontend/src/pages/SiteEdit.jsx:31-37 | enabled, auth type `none`, schedule dailyAfter 08:05 with delay 0, empty flow |
| SiteEdit.SiteEditPage.ShouldFetch | frontend/src/pages/SiteEdit.jsx:15-24 | the site is fetched exactly when the id is not `new` |
| SiteEdit.SiteEditPage.constructor | frontend/src/pages/SiteEdit.jsx:13-18 | the route id, an empty form, the modal closed |
| SiteEdit.SiteEditPage.InitForm | frontend/src/pages/SiteEdit.jsx:28-39 | a loaded site is merged into the form; a new page gets the defaults; otherwise nothing changes |
| SiteEdit.SiteEditPage.OpenHarModal | frontend/src/pages/SiteEdit.jsx:149 | only the modal opens |
| SiteEdit.SiteEditPage.HandleImportHar | frontend/src/pages/SiteEdit.jsx:56-65 | the flow becomes the current flow (or the empty list) followed by the new steps; the count is the number of new steps; the modal closes |
| SiteEdit.SiteEditPage.SaveTarget | frontend/src/pages/SiteEdit.jsx:43 | create exactly for id `new`, otherwise update of that id |
| SiteEdit.NewSiteDefaults | frontend/src/pages/SiteEdit.jsx:31-37 | merging the defaults into an empty form yields each default |
| FlowForm.FlowEditor.constructor | frontend/frontend/src/pages/Sites/FlowEditor/FlowEditor.jsx:28 | the list holds the initial steps with keys 0..n-1 |
| FlowForm.FlowEditor.Emitted | frontend/frontend/src/pages/Sites/FlowEditor/FlowEditor.jsx:8-10 | the reported steps, `[]` when the field is missing |
| FlowForm.FlowEditor.AddStep | frontend/frontend/src/pages/Sites/FlowEditor/FlowEditor.jsx:12-23 | exactly one step is appended (`step_{n+1}`, GET, empty URL and headers, null body) and the earlier ones kept; a missing list counts as empty; nothing is reported |
| FlowForm.FlowEditor.Move | frontend/frontend/src/pages/Sites/FlowEditor/FlowList.jsx:14 | items and keys are moved together; a change is reported only when something moved |
| FlowForm.FlowEditor.Remove | frontend/frontend/src/pages/Sites/FlowEditor/FlowList.jsx:37 | the item and its key are removed together and the new list is reported |
| FlowForm.FlowEditor.EditItem | frontend/frontend/src/pages/Sites/FlowEditor/FlowEditor.jsx:8-10 | one item replaced, keys kept, the new list reported |
| FlowForm.FlowEditor.HandleDragEnd | frontend/frontend/src/pages/Sites/FlowEditor/FlowList.jsx:9-16 | a drop on itself does nothing; otherwise exactly one move from the active key's position to the target key's position; the new list is sent to the page only when that move changes positions, and the key counter is unchanged |
| FlowForm.KeysFollowItems | frontend/frontend/src/pages/Sites/FlowEditor/FlowList.jsx:31 | after a move each item still sits next to its own key |
| FlowForm.DragLandsOnTarget | frontend/frontend/src/pages/Sites/FlowEditor/FlowList.jsx:12-14 | the dragged item ends at the position the target key had |
| FlowForm.DragUnknownKey | frontend/frontend/src/pages/Sites/FlowEditor/FlowList.jsx:12-14 | a key that is not in the list moves nothing |
| FlowForm.RemoveTargetsOwnField | frontend/frontend/src/pages/Sites/FlowEditor/FlowList.jsx:37 | removal takes away that item's key and keeps every other key |
| FlowForm.AddStepName | frontend/frontend/src/pages/Sites/FlowEditor/FlowEditor.jsx:16 | the step added to two steps is named `step_3` |
| FlowForm.AddedNamesDistinct | frontend/frontend/src/pages/Sites/FlowEditor/FlowEditor.jsx:16 | steps added at different lengths get different names |
| SiteEditJson.TextOr | frontend/frontend/frontend/src/pages/Sites/SiteEdit.jsx:36-38 | `v \|\| fallback` for a textarea value: a non-empty text, the fallback for a falsy value |
| SiteEditJson.Registered | frontend/frontend/frontend/src/pages/Sites/SiteEdit.jsx:66-160 | the form's registered fields: name, enabled, base_url, auth, flow, schedule, and flowJson exactly once the JSON tab has been shown |
| SiteEditJson.ParseText | frontend/frontend/frontend/src/pages/Sites/SiteEdit.jsx:36-38 | `JSON.parse(v \|\| fallback)`: the parse of the field's text, or of the fallback for a falsy field |
| SiteEditJson.NameGiven | frontend/frontend/frontend/src/pages/Sites/SiteEdit.jsx:66-70 | the name's `required` rule: present, a string, and not empty |
| SiteEditJson.Validated | frontend/frontend/frontend/src/pages/Sites/SiteEdit.jsx:66-160 | the name is a non-empty string (its `required` rule), the auth and schedule texts pass their validators, and the flowJson text too once the JSON tab is mounted |
| SiteEditJson.SubmittedFlow | frontend/frontend/frontend/src/pages/Sites/SiteEdit.jsx:36 | the structured flow in visual mode, the parsed flowJson (or `[]`) in JSON mode |
| SiteEditJson.Outcome | frontend/frontend/frontend/src/pages/Sites/SiteEdit.jsx:32-52 | invalid when a rule of a mounted field rejects, a missing or empty name included; a parse failure makes no call; otherwise update exactly when an id is present, else create, with the registered fields overridden by the parsed flow, auth and schedule |
| SiteEditJson.SiteEditPage.constructor | frontend/frontend/frontend/src/pages/Sites/SiteEdit.jsx:16-64 | visual mode, the JSON tab not yet mounted, and `enabled: true` |
| SiteEditJson.SiteEditPage.Load | frontend/frontend/frontend/src/pages/Sites/SiteEdit.jsx:20-30 | the site merged with the serialised flow (or `[]`), auth and schedule (or `{}`) |
| SiteEditJson.SiteEditPage.SetFlowMode | frontend/frontend/frontend/src/pages/Sites/SiteEdit.jsx:111-113 | only the mode changes, and choosing JSON mounts the JSON tab for good; neither view is rewritten |
| SiteEditJson.SiteEditPage.EditField | frontend/frontend/frontend/src/pages/Sites/SiteEdit.jsx:60-63 | only the edited field changes |
| SiteEditJson.SubmittedFlowOfMode | frontend/frontend/frontend/src/pages/Sites/SiteEdit.jsx:36 | a submitted flow is the structured flow in visual mode and the parsed `flowJson` (or `[]`) in JSON mode |
| SiteEditJson.ValidatedParses | frontend/frontend/frontend/src/pages/Sites/SiteEdit.jsx:87-160 | in JSON mode, values that pass every validator never fail to parse on submit |
| SiteEditJson.ParseTextOfStringify | frontend/frontend/frontend/src/pages/Sites/SiteEdit.jsx:25-27 | a serialised value passes its validator and parses back to itself |
| SiteEditJson.LoadedGet | frontend/frontend/frontend/src/pages/Sites/SiteEdit.jsx:22-27 | after loading, flowJson, auth and schedule hold the serialisations and flow holds the flow or `[]` |
| SiteEditJson.LoadedKeepsSite | frontend/frontend/frontend/src/pages/Sites/SiteEdit.jsx:22-23 | every other field the site has is loaded into the form as the site has it |
| SiteEditJson.SubmittedFields | frontend/frontend/frontend/src/pages/Sites/SiteEdit.jsx:34-35 | a submission has no key outside the registered fields, and each registered field other than flow, auth and schedule is sent as the form holds it |
| SiteEditJson.PausedNotSent | frontend/frontend/frontend/src/pages/Sites/SiteEdit.jsx:34-35 | a `paused` value loaded into the store is never submitted |
| SiteEditJson.SubmittedOverrides | frontend/frontend/frontend/src/pages/Sites/SiteEdit.jsx:36-38 | a submission carries the submitted flow and the parsed auth and schedule |
| SiteEditJson.SubmitParsed | frontend/frontend/frontend/src/pages/Sites/SiteEdit.jsx:34-39 | a submission with a name and valid texts carries the parsed auth, schedule and flow, passes name, enabled and base_url through, and sends no unregistered key |
| SiteEditJson.LoadThenSubmit | frontend/frontend/frontend/src/pages/Sites/SiteEdit.jsx:20-52 | submitting a loaded site that has a name, unchanged, in either mode, sends back its flow, auth and schedule |
| AppSiteForm.StatusBadge | frontend/frontend/src/App.jsx:76-86 | the five known statuses map to their label and class; an unknown status shows its own text with no class |
| AppSiteForm.StatusBadgeStyled | frontend/frontend/src/App.jsx:76-86 | a class is given exactly for a known status, and different known statuses get different classes |
| AppSiteForm.NewSiteForm | frontend/frontend/src/App.jsx:157-163 | empty name, enabled, bearer auth with empty token, empty flow, dailyAfter 08:05 |
| AppSiteForm.WithToken | frontend/frontend/src/App.jsx:198 | the auth object with `token` replaced and its other fields kept |
| AppSiteForm.SiteForm.constructor | frontend/frontend/src/App.jsx:157-163 | the edited site, or the new-form defaults |
| AppSiteForm.SiteForm.EditName | frontend/frontend/src/App.jsx:189 | only `name` changes |
| AppSiteForm.SiteForm.EditToken | frontend/frontend/src/App.jsx:197-198 | only `auth` changes, to the auth with the new token |
| AppSiteForm.SiteForm.TokenShown | frontend/frontend/src/App.jsx:197 | the token field, `""` when falsy |
| AppSiteForm.SiteForm.FlowShown | frontend/frontend/src/App.jsx:205 | the textarea shows the serialisation of the current flow |
| AppSiteForm.SiteForm.EditFlowText | frontend/frontend/src/App.jsx:206-210 | parsable text replaces only the flow; unparsable text leaves the form unchanged |
| AppSiteForm.TokenShownAfterEdit | frontend/frontend/src/App.jsx:197-198 | after a token edit the token field shows the typed text and the other auth fields are kept |
| AppSiteForm.FlowEditTouchesOnlyFlow | frontend/frontend/src/App.jsx:208 | replacing the flow changes no other field |
| AppSiteForm.ShownFlowReparses | frontend/frontend/src/App.jsx:205-210 | re-entering the shown text leaves the form as it was |
| Credentials.NormaliseKey | backend/app/services/credential_manager.py:11-15 | exactly 32 bytes; the first min(len, 32) bytes kept, the rest `0` |
| Credentials.NormaliseKeyFixed | backend/app/services/credential_manager.py:12-15 | a 32-byte key is unchanged, and normalising is idempotent |
| Credentials.NormaliseKeyCollisions | backend/app/services/credential_manager.py:12-15 | bytes past 32 are ignored, and a short key collides with itself followed by `0` |
| Credentials.CredentialManager.constructor | backend/app/services/credential_manager.py:9-17 | the stored key is the normalised key |
| Credentials.ManualToken | backend/app/services/credential_manager.py:44-52 | the decrypted credential when one is present and truthy, otherwise the token or `""` |
| Credentials.EnvToken | backend/app/services/credential_manager.py:54-58 | the environment value of envKey (`""` when missing), or `""` when unset |
| Credentials.ResolveSecret | backend/app/services/credential_manager.py:37-60 | `{}` for non-bearer auth and unknown sources; `{token}` from the manual or environment token otherwise |
| Credentials.ResolvedKeys | backend/app/services/credential_manager.py:37-60 | a resolved secret has no key but `token`, and has it exactly for bearer auth with a manual or environment source |
| Credentials.PlainTokenResolved | backend/app/services/credential_manager.py:48-52 | a plain manual token resolves to itself |
| FlowContexts.InitialVariables | backend/app/services/flow_engine.py:13-37 | the starting variables name at most `token` |
| FlowContexts.InitialVariablesAgree | backend/app/services/flow_engine.py:13-37 | the context's token setup agrees with `resolve_secret` |
| FlowContexts.FlowContext.constructor | backend/app/services/flow_engine.py:13-15 | the auth and the starting variables are stored |
| Extraction.Segment | backend/app/utils/extraction.py:17-23 | a dict segment looks up the key; a list segment must be all digits and in range; anything else leads nowhere |
| Extraction.Walk | backend/app/utils/extraction.py:16-28 | following the segments one by one from a value; the first missing step gives None |
| Extraction.JsonPath | backend/app/utils/extraction.py:10-11 | the empty path is the data itself |
| Extraction.ExtractJsonPath | backend/app/utils/extraction.py:5-28 | the loop returns the value of the path |
| Extraction.WalkAppend | backend/app/utils/extraction.py:13-28 | following `a` then `b` is following `a + b`; a dead end stays one |
| Extraction.PathCompose | backend/app/utils/extraction.py:13-28 | `p.q` is `q` looked up in the value at `p`; a `p` that leads nowhere makes `p.q` lead nowhere |
| Extraction.SingleSegment | backend/app/utils/extraction.py:17-26 | the outcomes of a one-segment path for dicts, lists (all-digit index within bounds) and scalars |
| Extraction.LastJsonRule | backend/app/utils/extraction.py:37-41 | the found rule is a json rule of the list naming the variable |
| Extraction.Extracted | backend/app/utils/extraction.py:34-41 | the variables after applying the rules in order: a json rule stores its path value, other rule types change nothing |
| Extraction.ExtractedGet | backend/app/utils/extraction.py:34-41 | after extraction a variable holds the path value of the last json rule naming it; other variables keep their values |
| Extraction.ExtractVariables | backend/app/utils/extraction.py:30-41 | the rules applied in order to the context's variables |
| Templating.WordPrefix | backend/app/utils/templating.py:16 | the longest run of word characters at the start |
| Templating.PlaceholderAt | backend/app/utils/templating.py:16 | a placeholder `${name}` with a non-empty word-character name starts the text |
| Templating.VariableText | backend/app/utils/templating.py:11-14 | a missing or None variable gives `""`; a string gives itself |
| Templating.Render | backend/app/utils/templating.py:8-9 | an empty template gives `""` |
| Templating.RenderNoPlaceholder | backend/app/utils/templating.py:16 | text without a placeholder is unchanged |
| Templating.PlaceholderReplaced | backend/app/utils/templating.py:11-16 | a placeholder is replaced by its variable's text and scanning resumes after it |
| Templating.SubstitutionNotRescanned | backend/app/utils/templating.py:16 | substituted text is not scanned again |
| Templating.RenderValue | backend/app/utils/templating.py:24-31 | strings rendered, dicts rendered key by key with the same keys, lists of the same length, other values kept |
| Templating.RenderListMember | backend/app/utils/templating.py:28-29 | only a string member of a list is rendered |
| Templating.RenderDict | backend/app/utils/templating.py:18-32 | exactly the input's keys, each value rendered |
| Redaction.RedactValue | backend/app/utils/redaction.py:12-15 | `***` for a sensitive name, otherwise the value |
| Redaction.Redacted | backend/app/utils/redaction.py:6-16 | the same keys in the same order, each value redacted by its name |
| Redaction.RedactHeaders | backend/app/utils/redaction.py:6-16 | the loop builds the redacted headers |
| Redaction.RedactIdempotent | backend/app/utils/redaction.py:6-16 | redacting twice equals redacting once |
| Redaction.RedactedHides | backend/app/utils/redaction.py:4-15 | a present sensitive header reads `***` (case-insensitively); any other name reads as before |
| Redaction.RedactResponse | backend/app/utils/redaction.py:18-29 | `""` for empty text; text within the limit unchanged; longer text cut to the limit plus `...` |
| Redaction.RedactResponseBounds | backend/app/utils/redaction.py:26-29 | at most limit + 3 characters, starting with the first min(len, limit) characters of the text |
| AdminAuth.VerifyAdminToken | backend/app/api/deps.py:11-27 | a missing or empty header, a header that is not two whitespace-separated words with scheme `bearer` (any case), and a wrong token are each refused with 401 and their own message; acceptance is `True` exactly for the admin token |
| AdminAuth.BearerAccepted | backend/app/api/deps.py:19-27 | `Bearer <token>` with any surrounding whitespace and any case of the scheme is accepted |
| AdminAuth.OtherTokenRefused | backend/app/api/deps.py:23-25 | a well-formed header with another token is refused as an invalid token |
| AdminAuth.UnpresentableTokenLocksOut | backend/app/api/deps.py:19-25 | an empty admin token, or one containing whitespace, refuses every header |
| FlowEngine.PyEq | backend/app/services/flow_engine.py:171 | Python `==` on decoded JSON: `True == 1` and `False == 0`, lists element-wise, dicts by key set and per-key equality |
| FlowEngine.PyEqReflexive | backend/app/services/flow_engine.py:171 | Python equality of JSON values is reflexive |
| FlowEngine.PyEqCoarser | backend/app/services/flow_engine.py:171 | `True == 1`, dicts equal regardless of key order, `None != "None"`, `1 != "1"` |
| FlowEngine.ValidateExpect | backend/app/services/flow_engine.py:153-177 | 401/403 fail with auth_failed, whatever the expect type; otherwise fails exactly for a json expect whose path value differs from `equals` |
| FlowEngine.DefaultExpectFails | backend/app/services/flow_engine.py:165-175 | an expect of type json with empty path and no `equals` fails for every non-null response |
| FlowEngine.SentBody | backend/app/services/flow_engine.py:100-102 | no body when falsy; a non-empty dict body rendered; any other body sent as it is |
| FlowEngine.BuildRequest | backend/app/services/flow_engine.py:98-113 | the URL rendered and the headers rendered under the same names |
| FlowEngine.ExecStep | backend/app/services/flow_engine.py:80-151 | a step result keeps the step name and is never RUNNING; a skipped step sends no request; variables change only on success |
| FlowEngine.ConditionFalseSkips | backend/app/services/flow_engine.py:90-95 | a condition evaluating false skips the step before any request |
| FlowEngine.AuthFailureIsUnauthorized | backend/app/services/flow_engine.py:131-138 | auth_failed is reported only for a failed step whose response was 401 or 403 |
| FlowEngine.ExpectThenExtract | backend/app/services/flow_engine.py:131-143 | extraction runs only after the expect passed and only on a truthy response JSON |
| FlowEngine.PrepareRequest | backend/app/services/flow_engine.py:97-113 | the imperative request building (headers and a dict body rendered key by key) sends exactly the request BuildRequest specifies |
| FlowEngine.ExecuteStep | backend/app/services/flow_engine.py:80-151 | the imperative step has the outcome ExecStep specifies |
| FlowEngine.RunFrom | backend/app/services/flow_engine.py:56-72 | one result per step run from position i up to and including the first that stops: none exactly when nothing is left, never more than the steps left |
| FlowEngine.FlowStatus | backend/app/services/flow_engine.py:61-75 | never RUNNING: SUCCESS, or the status of the last result |
| FlowEngine.Summary | backend/app/services/flow_engine.py:63-76 | the success summary exactly when the run's status is SUCCESS; otherwise the skip or failure text naming the stopping step |
| FlowEngine.RunFromAppend | backend/app/services/flow_engine.py:56-72 | one loop iteration appends the step's result and either stops or continues with the updated variables |
| FlowEngine.RunShape | backend/app/services/flow_engine.py:56-72 | results come in document order, at most one per step; all but the last are SUCCESS; the run covers the whole flow unless its last result is SKIPPED or FAILED |
| FlowEngine.SuccessIffNoStop | backend/app/services/flow_engine.py:74-76 | the flow status is SUCCESS exactly when no result is SKIPPED or FAILED |
| FlowEngine.EmptyFlowSucceeds | backend/app/services/flow_engine.py:74-76 | the empty flow succeeds with no auth failure and the success summary |
| FlowEngine.FlowResult.constructor | backend/app/services/flow_engine.py:39-45 | RUNNING, no steps, no auth failure, empty summary |
| FlowEngine.RecordStop | backend/app/services/flow_engine.py:60-71 | a SKIPPED or FAILED step sets the flow status, summary and auth_failed to those the finished run determines, leaving the steps as they are |
| FlowEngine.RunStep | backend/app/services/flow_engine.py:56-71 | one loop iteration keeps the invariant "results so far plus the rest of the run is the whole run"; on a stop the result is final |
| FlowEngine.RunSteps | backend/app/services/flow_engine.py:56-76 | the loop records exactly the specified run, with its status, summary and auth_failed |
| FlowEngine.RecordSuccess | backend/app/services/flow_engine.py:74-76 | a run no step stopped gets SUCCESS and the success summary, with the steps unchanged |
| FlowEngine.ExecuteFlow | backend/app/services/flow_engine.py:50-78 | none exactly when token setup raises; otherwise the steps, status, summary and auth_failed of the specified run |
| Sites.Site.constructor | backend/app/db/models.py:6-22 | a new site is enabled, unpaused and has not run |
| Sites.Run.constructor | backend/app/services/worker.py:31-38 | a new run has its id and is RUNNING with no outcome |
| Worker.RunSite | backend/app/services/worker.py:15-85 | a missing site gives not found; a disabled or paused site is skipped with no run; otherwise a RUNNING run is committed, then its outcome, copied to the run and site, with the site paused on auth failure; an exception fails the run and leaves the site alone; a notification only for FAILED with a webhook; the completed reply and the payload carry the run's id |
| Worker.RecordOutcome | backend/app/services/worker.py:49-61 | run fields from the flow result; last run time and status on the site; paused set on auth failure and otherwise kept |
| Worker.SendNotification | backend/app/services/worker.py:87-114 | nothing without a webhook URL; otherwise the payload of the site and run, run id included |
| Worker.RunStatusSettled | backend/app/services/worker.py:49-57 | a completed run's status is SUCCESS, FAILED or SKIPPED |
| Worker.AuthFailureIsFailure | backend/app/services/worker.py:60-67 | a run with auth_failed has status FAILED, so it is notified and pauses the site |
| Scheduling.JobIdInjective | backend/app/services/scheduler.py:34 | different sites have different job ids |
| Scheduling.AsPyInt | backend/app/services/scheduler.py:75-89 | an integer is itself, a non-number nothing |
| Scheduling.ScheduleType | backend/app/services/scheduler.py:32 | the schedule's type, `dailyAfter` when the key is missing |
| Scheduling.NextSlot | backend/app/services/scheduler.py:77-82 | today at the configured hour and minute, or tomorrow when that is not after now |
| Scheduling.NextSlotBounds | backend/app/services/scheduler.py:77-82 | the next slot is strictly after now, within 24 hours, at the configured time of day |
| Scheduling.TimeOfDay | backend/app/services/scheduler.py:77-82 | the time of day of a slot is its offset within the day |
| Scheduling.ComputeNextDailyRun | backend/app/services/scheduler.py:75-89 | a run exactly for a valid hour and minute and an integer delay; it lies between the slot and the slot plus the delay, and is the slot when the delay is not positive |
| Scheduling.RescheduleGuardAsWritten | backend/app/services/scheduler.py:110 | the reschedule check as written: the type key must be present and equal `dailyAfter` |
| Scheduling.RescheduleGuard | backend/app/services/scheduler.py:110 | the corrected check: the type, defaulting to `dailyAfter` as in schedule_site, is `dailyAfter` |
| Scheduling.DefaultDailyNeverRescheduled | backend/app/services/scheduler.py:107-111 | a site with no schedule type is scheduled daily but fails the reschedule check as written |
| Scheduling.RescheduleGuardIsDaily | backend/app/services/scheduler.py:106-111 | the corrected check holds exactly for the type schedule_site treats as daily, and is implied by the check as written |
| Scheduling.Scheduler.constructor | backend/app/services/scheduler.py:14-16 | an empty job table |
| Scheduling.Scheduler.OneJobPerSite | backend/app/services/scheduler.py:34-38 | no two jobs belong to one site |
| Scheduling.Scheduler.ScheduleSite | backend/app/services/scheduler.py:26-67 | nothing for a disabled or paused site; otherwise the site's old job is replaced by a daily date job (at or after the next slot, by at most the random delay), a cron job or none, by type and defaults; other jobs untouched |
| Scheduling.Scheduler.UnscheduleSite | backend/app/services/scheduler.py:69-73 | the site's job is removed if present |
| Scheduling.Scheduler.RescheduleSite | backend/app/services/scheduler.py:98-111 | with the corrected guard (a missing type counts as daily): schedules again only an enabled, unpaused daily site; otherwise the table is unchanged |
| Scheduling.Scheduler.RunSiteJob | backend/app/services/scheduler.py:91-96 | runs the site, then reschedules with the corrected guard; a paused site's fired date job is gone; an enabled, unpaused, accepted daily site has a new date job; other sites' jobs untouched |

## Left out

- I/O and foreign code are parameters:
  - the HTTP server is a `Client` answering per step position;
  - condition evaluation is an `Evaluator`;
  - decryption and base64 are `decrypt`;
  - the environment is `getenv`;
  - cron parsing is `cronValid`;
  - the clock is explicit `now`/`finishedAt` arguments;
  - an exception inside `run_site` is the `crash` text;
  - `conditions.py` is not part of this model.
- JSON parse and stringify are a `Codec` with stated laws, not a JSON grammar.
- Floating-point numbers: `JNum` holds integers only.
- `elapsed_ms`, `started_at` timestamps and time zones: the scheduler counts local seconds with days of 86400 seconds (no daylight saving).
- Word characters, `isdigit`, `lower()` and `upper()` (the request method in FlowEngine.BuildRequest) are ASCII only, not Unicode.
- JsonValues.StrRepr treats every character above U+00FF as printable; Python's repr also escapes the non-printable ones among them.
- Objects are insertion-ordered association lists. `PyEq` gives Python's order-insensitive equality where the engine compares values, but equality of whole `Json` values elsewhere is order-sensitive.
- Steps are typed records with the `.get` defaults applied. A step or rule missing a required key (a `KeyError` in the source) is not modelled.
- Repeated request headers are merged by `httpx`; the model keeps one value per name.
- The antd form store is a flat ordered map of top-level fields. `setFieldsValue` merges top-level keys, as modelled by Steps.MergedEditForm, but its deep merge of nested objects is not modelled.
- StepListEditor.FlowEditor.HandleEdit: a step's `expect` replaces the form's whole expectation. antd would deep-merge its `type`, `path` and `equals` subkeys into the previous ones.
- FlowForm.FlowEditor.HandleDragEnd takes the drop target as a key, so it cannot express a drop outside every item. There `over` is null and `over.id` throws a TypeError.
- A status string that is an `Object.prototype` key (such as `constructor`) would hit the badge map's prototype; not modelled.
- The `AUTH_FAILED` status is never produced by the backend: an auth failure is a FAILED run with `auth_failed` set. The status type therefore has no such value, and the notification check for it is vacuous.
- Redaction.RedactResponse: `max_length` is a natural number; negative limits are not modelled.
- Credentials.NormaliseKey works on bytes; the UTF-8 encoding of the configured key is not modelled.
- Database sessions, commits and refreshes are the `commits` list of statuses in Worker.RunSite.
- Webhook posting is not modelled; the payload is returned instead.
- Sites.Site types `auth` and `schedule` as JSON objects (or unset), though the database and the JSON tab accept any JSON value. A truthy non-object auth makes the flow context's `auth.get` raise, which Worker.RunSite would record as a crashed run. A non-object schedule makes `.get` raise in Scheduling.Scheduler.ScheduleSite. Neither path is modelled.
- AppSiteForm.WithToken: spreading a non-object `auth` is modelled as starting from an empty object.
- Scheduling.Scheduler.ScheduleSite: APScheduler's trigger semantics, and jobs of other schedulers, are not modelled; the job table is a map from job id to job.
- HTTP client wrappers, presentation-only pages and database CRUD routers are outside the modelled core.

## Findings

| source | as written | input that shows it | evidently intended | confidence | as-written member | corrected member |
|---|---|---|---|---|---|---|
| backend/app/services/scheduler.py:110 | `_reschedule_site` reads the schedule type without the `dailyAfter` default that `schedule_site` uses | a site whose schedule is missing or `{"hour": 9}`: it is scheduled once as a daily date job and is never rescheduled after it runs | the same default as `schedule_site`, so every daily site is rescheduled; Scheduling.Scheduler.RescheduleSite and RunSiteJob use this corrected guard | not executed | Scheduling.DefaultDailyNeverRescheduled | Scheduling.RescheduleGuardIsDaily |
