# Profile setup form of a tutoring marketplace, modelled in Dafny

The React component `ProfileSetup` lets a signed-in student or tutor edit a
profile. It holds the fields role, name, school, major, grade, hourly rate,
subjects, bio and photo URL, plus the `uploading` and `saving` flags. Its
logic is:

- it fills the form once from a stored profile;
- it toggles subjects in a multi-select;
- it uploads an avatar image to object storage under a fresh key;
- it validates the form and sends a profile record;
- it tells the user, with an alert, how each step ended.

This project models that logic and proves what the component promises.

Modules, one file each:

- `JsValues`: missing values, numbers (restricted to whole numbers and
  NaN), and truthiness. Truthiness drives every `a || b` fallback.
- `JsStrings`: the string operations the handlers use. These are `trim()`
  (with the exact ECMA-262 white-space set), `startsWith`, `split('.')`
  followed by `pop()`, the decimal rendering of the timestamp, and
  `Number(text)`.
- `Forms`: the `user` prop, and every alert as a `Notice` value. `Text`
  gives the exact alert string.
- `Subjects`: the subject catalog and the toggle.
- `Profile`: the loader's merge of a stored record into the form, the
  save validation, the payload, and the notice and `onSaved` call after the
  answer.
- `Avatar`: the four upload checks, the file extension, the storage key,
  the storage request and the upload notice.
- `ProfileSetup`: the class `FormState`. Its fields are the component's
  state hooks. Its methods are the handlers: `LoadProfile`,
  `ToggleSubject`, and `UploadPhoto` and `SaveProfile`. Upload and save are
  each split into a `Start…` and a `Finish…` half, so that the in-flight
  flag is visible between the two. Each method is specified by the pure
  functions of the modules above.

Inputs that come from outside the component are parameters:

- the GET and POST answers (`LoadReply`, `SaveResponse`);
- the outcome of the storage call (`StorageResult`);
- the `Date.now()` timestamp (`ts`);
- the storage service's public-URL resolution (a function from key to URL).

Four behaviours of the code are easy to miss, and the model keeps them:

- The loader falls back to fixed defaults (`'student'`, `''`, `[]`), and
  for the name to `user.name || ''`. It does not fall back to whatever the
  form held before.
- The loader stores a non-zero `hourly_rate` as a number, not as text. So
  after a load the rate field holds a number (`RateField.Loaded`). A stored
  rate of 0 becomes the empty field.
- A size of exactly 5 MiB is accepted, although the alert says "less than
  5MB".
- A save without any `user` gets past validation. Then `user.id` throws
  inside the `try`. The user sees "Save failed: " followed by the TypeError
  message, and `saving` goes true, then false.

## Model

| member | source | states |
|---|---|---|
| JsStrings.Trim | client/src/ProfileSetup.js:142-149 | `trim()` yields "" exactly for all-white-space text, and otherwise text that neither starts nor ends with white space |
| JsStrings.TrimIdempotent | client/src/ProfileSetup.js:142-149 | trimming an already trimmed field changes nothing |
| JsStrings.Split | client/src/ProfileSetup.js:80 | `split('.')` returns at least one piece and no piece holds a dot; there is exactly one piece iff the name has no dot; joining the pieces with '.' gives the name back |
| JsStrings.DecimalRoundTrip | client/src/ProfileSetup.js:81 | the decimal text of the timestamp reads back as the same number |
| JsStrings.DecimalInjective | client/src/ProfileSetup.js:81 | different timestamps render as different text |
| JsValues.NumTruthy | client/src/ProfileSetup.js:37 | a number is truthy unless it is 0 or NaN, as `p.hourly_rate \|\| ''` tests it |
| JsValues.StrTruthy | client/src/ProfileSetup.js:32-40 | a possibly missing string is truthy when present and non-empty |
| JsValues.StrOr | client/src/ProfileSetup.js:32-40 | `a \|\| b` on a possibly missing string: the value when truthy, else the fallback; also used at lines 12, 160 and 164; its uses are stated field by field in `HydrateFallbacks` and `SaveNoticeText` |
| JsStrings.Last | client/src/ProfileSetup.js:80 | `pop()` on the pieces of `split('.')`: the last piece, which is one of them |
| JsStrings.StartsWith | client/src/ProfileSetup.js:65 | `startsWith`: the prefix is the first part of the text; used by the image check, see `Avatar.UploadRejectionOrder` |
| JsStrings.Decimal | client/src/ProfileSetup.js:81 | the rendering of the timestamp in the template literal is non-empty and all digits; it reads back by `DecimalRoundTrip` |
| JsStrings.ToNumber | client/src/ProfileSetup.js:146 | `Number()` of blank text is 0 |
| JsStrings.ToNumberOfDigits | client/src/ProfileSetup.js:146 | `Number()` of a digit string is its decimal value |
| Subjects.Toggle | client/src/ProfileSetup.js:50 | the toggled subject is in the result exactly when it was not in the selection; its lemmas below give the whole result |
| Subjects.RemoveAll | client/src/ProfileSetup.js:50 | the filter removes every occurrence of the subject and keeps every occurrence of every other element |
| Subjects.RemoveAllKeepsOrder | client/src/ProfileSetup.js:50 | the elements the filter keeps stay in their original relative order |
| Subjects.ToggleResult | client/src/ProfileSetup.js:50 | a present subject loses all its occurrences, the rest in order; an absent subject is appended at the end |
| Subjects.ToggleMembers | client/src/ProfileSetup.js:50 | as a set, the selection becomes its symmetric difference with the toggled subject |
| Subjects.ToggleKeepsNoDuplicates | client/src/ProfileSetup.js:50 | a selection without duplicates stays without duplicates |
| Subjects.ToggleTwiceAbsent | client/src/ProfileSetup.js:50 | toggling an absent subject twice restores the exact list |
| Subjects.ToggleTwicePresent | client/src/ProfileSetup.js:50 | toggling a present subject twice gives the same members, with the subject moved to the end |
| Subjects.ToggleTwicePresentReorders | client/src/ProfileSetup.js:50 | a concrete case where the double toggle changes the order |
| Subjects.ToggleStaysInCatalog | client/src/ProfileSetup.js:225-230 | toggling catalog subjects keeps a catalog-only selection inside the catalog |
| Profile.RateTruthy | client/src/ProfileSetup.js:146 | the `hourlyRate` condition: typed text is truthy when non-empty, a loaded number when neither 0 nor NaN; `PayloadRate` ties it to the sent rate |
| Profile.RateNumber | client/src/ProfileSetup.js:146 | `Number(hourlyRate)`: `Number` of the typed text, and the loaded number itself (`Number` of a number is that number) |
| Profile.LoadApplies | client/src/ProfileSetup.js:27-30 | the loader's guard: a user with a truthy id and an answer with `success` and a profile; `Load` changes nothing otherwise |
| Profile.InitialDraft | client/src/ProfileSetup.js:11-19 | the state hooks' initial values: a student, `user?.name \|\| ''`, everything else empty; see `FormState.constructor` and `HydrateEmptyRecord` |
| Profile.Hydrate | client/src/ProfileSetup.js:32-40 | the nine setters of the loader; the role is never empty and the rate field is empty or a truthy number; field by field in `HydrateFallbacks` |
| Profile.Load | client/src/ProfileSetup.js:27-41 | the form changes only for a user with an id and an answer with `success` and a profile; then it becomes the hydrated record, whose role is never empty and whose rate field is empty or a truthy number |
| Profile.LoadMissKeepsDefaults | client/src/ProfileSetup.js:27-44 | a failed, refused or profile-less load leaves a new form at its defaults |
| Profile.HydrateEmptyRecord | client/src/ProfileSetup.js:32-40 | every record with no truthy field (subjects missing or empty) hydrates to exactly the initial form |
| Profile.HydrateFallbacks | client/src/ProfileSetup.js:32-40 | for each of the nine fields, a truthy remote value wins and anything else gives the default: "student", the user's name and then "", "", an empty rate field, [] |
| Profile.SaveCheck | client/src/ProfileSetup.js:127-135 | the validation refuses with "enter your name" or "select a subject" and nothing else; order in `SaveValidationOrder` |
| Profile.BuildPayload | client/src/ProfileSetup.js:139-150 | the payload carries the user's id, the role and the subjects as they are; name, school, major, grade and bio are the trimmed draft fields; the photo URL is sent as is, or null when empty; a non-null rate is `Number` of the rate field, and `PayloadRate` says when it is non-null |
| Profile.PlanSave | client/src/ProfileSetup.js:125-150 | a save is refused exactly when validation fails, cannot build its payload exactly when it passes without a user, and otherwise sends exactly the payload built from the user's id and the draft |
| Profile.SaveValidationOrder | client/src/ProfileSetup.js:127-135 | a blank name is refused first for every role; then a tutor without subjects; a payload is sent exactly when both pass and there is a user |
| Profile.BlankNameRefused | client/src/ProfileSetup.js:127-130 | a name of white space alone is refused |
| Profile.PayloadRate | client/src/ProfileSetup.js:146 | `hourly_rate` is non-null iff role is "tutor" and the rate field is truthy; then it is `Number` of the typed text |
| Profile.PayloadStable | client/src/ProfileSetup.js:139-150 | the payload's text fields carry no surrounding white space, and building it again from its own values gives the same payload |
| Profile.TutorScenario | client/src/ProfileSetup.js:139-150 | tutor "Ada" with Algebra and rate "30" sends rate 30, the subjects and role as entered, and a null photo |
| Profile.StudentScenario | client/src/ProfileSetup.js:146 | a student's typed rate "30" is sent as null |
| Profile.SaveNotice | client/src/ProfileSetup.js:156-164 | the success notice exactly for `success: true`, a "Save failed: " notice exactly for a thrown error; the texts in `SaveNoticeText` |
| Profile.SavedCallback | client/src/ProfileSetup.js:156-158 | `onSaved` is called iff the answer has `success`, and with the answer's profile |
| Profile.SaveNoticeText | client/src/ProfileSetup.js:156-164 | success shows the success text; otherwise the server's message is shown when present, else "Save failed" or the error's own message |
| Profile.SaveReloadSave | client/src/ProfileSetup.js:32-40 | reloading a saved record and saving again sends the same record, provided the role was set and the rate sent was null or truthy |
| Profile.ZeroRateLostOnReload | client/src/ProfileSetup.js:37 | for every draft that sends a rate of 0, the reloaded record has an empty rate field and the next save sends null |
| Avatar.FileExt | client/src/ProfileSetup.js:80 | `split('.').pop()` holds no dot; which tail it is in `FileExtIsLastSegment` |
| Avatar.StorageKey | client/src/ProfileSetup.js:81-82 | the key `avatars/<id>-<ts>.<ext>`; it determines timestamp and extension by `StorageKeyInjective` |
| Avatar.PlanUpload | client/src/ProfileSetup.js:54-82 | a refusal is one of the four check notices; an upload begins only with a file of at most 5 MiB and a user id; order in `UploadRejectionOrder` |
| Avatar.FileExtIsLastSegment | client/src/ProfileSetup.js:80 | the extension is the dot-free tail after the last '.', or the whole name when there is no dot |
| Avatar.StorageKeyInjective | client/src/ProfileSetup.js:81-82 | a user's key determines the timestamp and the extension, so uploads at different times never share a key |
| Avatar.UploadRejectionOrder | client/src/ProfileSetup.js:54-74 | no file, then no user id, then a non-image type, then a size over 5·1024·1024 bytes are refused in that order; otherwise the key is `avatars/<id>-<ts>.<ext>` |
| Avatar.FiveMebibytesAccepted | client/src/ProfileSetup.js:71 | an image of exactly 5 MiB passes the checks |
| Avatar.StorageCallFor | client/src/ProfileSetup.js:87-92 | the upload goes to the avatars bucket under the key and never overwrites |
| Avatar.UploadNotice | client/src/ProfileSetup.js:108-113 | success shows the uploaded text; a failure shows "Upload failed: " and the storage message |
| Forms.HasId | client/src/ProfileSetup.js:59 | `user?.id` is truthy: a user is present with a non-empty id; the guard of the loader (line 27) and of the upload |
| Forms.Text | client/src/ProfileSetup.js:55-164 | the exact string each `alert` call passes, one per notice |
| ProfileSetup.FormState.constructor | client/src/ProfileSetup.js:11-21 | the form starts as a student with the user's name and everything else empty, not uploading and not saving |
| ProfileSetup.FormState.LoadProfile | client/src/ProfileSetup.js:26-45 | the nine setters run exactly when the load applies; the flags are untouched |
| ProfileSetup.FormState.ToggleSubject | client/src/ProfileSetup.js:49-51 | the selection becomes the toggle of the old one, flips the subject's membership, keeps duplicate-freedom, and nothing else changes |
| ProfileSetup.FormState.StartUpload | client/src/ProfileSetup.js:53-82 | the checks as in `PlanUpload`; `uploading` is set only when an upload begins |
| ProfileSetup.FormState.FinishUpload | client/src/ProfileSetup.js:94-116 | on success the photo becomes the key's public URL, on failure it is unchanged; `uploading` ends false |
| ProfileSetup.FormState.UploadPhoto | client/src/ProfileSetup.js:53-117 | a refused upload makes no storage request and changes nothing; a begun one requests storage under the derived key, ends with `uploading` false and changes no field but the photo |
| ProfileSetup.FormState.StartSave | client/src/ProfileSetup.js:125-150 | the validation and payload as in `PlanSave`; `saving` is set unless the save is refused |
| ProfileSetup.FormState.FinishSave | client/src/ProfileSetup.js:156-167 | the notice and the `onSaved` call for the answer; `saving` ends false for success, `success:false` and a thrown error alike |
| ProfileSetup.FormState.SaveProfile | client/src/ProfileSetup.js:125-168 | the draft never changes; a refused save sends nothing and leaves `saving`; a missing user fails with the TypeError message; otherwise the payload is sent and `saving` ends false |
| ProfileSetup.RefusedSaveKeepsDraft | client/src/ProfileSetup.js:159-161 | a `success:false` answer with "Name taken" shows "Name taken" and leaves the draft as entered |

## Left out

- JSX rendering, markup, CSS classes and the chip order in the view (lines 170-276). The `onChange` setters of the inputs are plain field assignments on `FormState`.
- The UI serialisation through `disabled={uploading}` and `disabled={saving || uploading}`. Interleaving of the load, upload and save also stays outside: a late load clobbering edits, `useEffect` re-running when `user` changes. Each method runs to completion.
- `axios.get`/`axios.post` and the storage client are foreign network calls. Their outcomes are inputs. JSON serialisation of the payload (for one, NaN sent as null) is not modelled.
- `alert`, `console.log` and `console.error`. Each alert is a returned `Notice`; logging is dropped.
- `Date.now()`: the timestamp is a parameter. Its rendering covers whole numbers only; JavaScript's exponent form for numbers of 10^21 and more is not modelled.
- `fileRef` and `handleFileChange` (lines 22, 119-123), beyond "no file, no upload" (`file` is an `Option`).
- JsStrings.ToNumber: only blank text and plain digit strings get their JavaScript value. Every other text maps to NaN, so fractions, exponents, signs, hex and "Infinity" are weaker than in JavaScript. IEEE floating point is not modelled.
- Profile.SavedCallback: assumes the `onSaved` prop is given and returns normally. Without the prop the code calls nothing, where the model still reports `CalledWith`. If `onSaved` throws after the success alert, the `catch` raises a second alert "Save failed: <message>", which `SaveNotice` does not express.
- Remote field values are strings, numbers or arrays as the record is written. Remote values of other JavaScript types (`false` as a name, say) are not modelled.
- The TypeError text when there is no `user` is V8's wording for a null `user`. The wording differs for `undefined` and between engines.
- A falsy non-string `id` (0, `false`) is represented by the empty id.
- Profile.SaveReloadSave: it assumes that the backend stores the sent fields unchanged and returns them on the next load. The backend is not part of this model.
- The hourly-rate input of `type="number"` may sanitise what the browser reports as its value. The model takes the reported text as given.
