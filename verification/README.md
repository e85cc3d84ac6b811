# DeepVision decision rules, modelled in Dafny

DeepVision is an underwater surveillance system with three parts: an Express
server, a React client and a Python detection service. It has no algorithmic
centre. Its logic is a set of small decision and formatting rules, and this
project models each of them and proves what it promises:

- **Enhancement forwarding** (`Enhancement`). `enhanceImage` forwards an
  uploaded image to the remote enhancement service. It classifies how that
  call ended into one HTTP reply and builds the `/view/` address of the
  result.
- **Alert e-mail** (`AlertEmail`). `sendAlertEmail` builds the message: one
  list item per threat, a fallback item for an empty list, the subject with
  the threat count, and the default operator name. It reports the
  transport's answer as a boolean.
- **Operator profiles.**
  - `ProfileSchema` models the Mongoose schema: the trim and lower-case
    setters, the defaults, the required paths, and the email validator. The
    validator's regular expression is proved equal to the language L@D.T.
    Its repeated final group `(\.\w{2,3})+` is a single `.T` there,
    because every group but the last is absorbed into the dotted word D.
  - `ProfileStore` models `saveProfile` and `getProfile`. The collection is
    a map from the normalised email to the record, held in a field of the
    class `Store`. `SaveProfile` upserts into it, and `GetProfile` scans it
    for the latest `lastUpdated`.
- **Client pages.**
  - `ProfilePage` holds the client's email check, proved equal to its
    regular expression and strictly weaker than the server's. It also holds
    the form state of the profile page as a class.
  - `HomePage` holds the image acceptance rule (an `image/` type of at most
    16 MiB) and the state of the enhancement page as a class.
- **Raw upload** (`RawUpload`, `Base64`). `uploadingFile` builds a `data:`
  URI as in section 3 of RFC 2397. Its payload is the padded base 64 of
  section 4 of RFC 4648; a reference decoder proves that the payload
  decodes back to the file.
- **Video jobs** (`VideoJobs`). The detection service keeps a job table.
  A job is absent, then `processing`, then exactly one of `complete` or
  `failed`. The table is a map field of the class `JobTable`. The module
  also builds the temporary, repository and result paths.

Everything outside the process is a parameter standing for how the call
ended. That covers the HTTP client, the object store, the database, the
mail transport, the dataset repository, the vision model, the clock and
UUID generation. Two support modules complete the project. `Js` holds
JavaScript truthiness, the `||` default and template printing of a missing
field. `Text` holds `trim` with the white-space set of `\s`, ASCII
`toLowerCase`, character positions and decimal rendering.

The code is followed where it differs from a plain reading of its intent,
in three places. The one exception is the output path of the background
video task, which is a finding (see "## Findings"): the job table uses the
corrected path.

- On an upsert with `runValidators`, Mongoose runs the update validators
  only on the paths of the update. Those are `name`, `designation`,
  `organization` and `lastUpdated`. The email is part of the filter, so
  its setters run but its regex validator does not. The model therefore
  stores any non-empty email after lower-casing and trimming it.
  `SavedConforms` states what holds when the email is valid.
- A reply body of `null` in the enhancement controller makes reading
  `response.data.error` throw. That exception carries neither `response`
  nor `request`, so the controller answers 500 "Failed to create the request
  to the AI service.".
- A missing `output_file` is printed as `undefined` in the result address.

## Model

| member | source | states |
|---|---|---|
| Enhancement.ViewUrl | Server/controllers/enhancementController.js:40 | the address starts with the service's `/view/` base and the rest of it is the output file, or `undefined` when the file is missing |
| Enhancement.ViewUrlInjective | Server/controllers/enhancementController.js:40 | different output files are shown at different addresses, so the file can be read back from the address |
| Enhancement.Form | Server/controllers/enhancementController.js:17-22 | the upstream form has exactly one part, named `file`, carrying the uploaded bytes under their original name and MIME type |
| Enhancement.Classify | Server/controllers/enhancementController.js:35-67 | every outcome gets exactly one of 200, 500 and 504; 200 exactly for a body with truthy `success`, and then the view address; 504 exactly when no answer came; the upstream body is passed on exactly for an error answer, always with 500 |
| Enhancement.EnhanceImage | Server/controllers/enhancementController.js:12-67 | without a file, 400 "No image file uploaded." and no upstream call; with one, exactly one POST of that file to `/upload` with a 90000 ms timeout; the status is always one of 200, 400, 500 and 504, and it is 400 exactly when the file is missing |
| Enhancement.StructuredFailure | Server/controllers/enhancementController.js:47-51 | a 2xx answer without `success` gives 500 and no address; the message is the service's `error` when that is truthy, the default text otherwise |
| AlertEmail.Threats | Server/utils/emailService.js:15 | a missing threat list is the empty list; a present one is kept |
| AlertEmail.OperatorName | Server/utils/emailService.js:16 | the name is never empty: the given name when it is truthy, and "Operator" exactly otherwise |
| AlertEmail.ThreatItem | Server/utils/emailService.js:19 | each threat's item is an `<li>` element |
| AlertEmail.ThreatItemShows | Server/utils/emailService.js:19 | a threat's item reads back to the threat: the opening `<li>` text, the type, the fixed middle text, then only digits that read back as the percentage, and it closes with `%)</li>` |
| AlertEmail.Items | Server/utils/emailService.js:17-20 | one item per threat, in input order: item i is the item of threat i |
| AlertEmail.Join | Server/utils/emailService.js:21 | `join('')` with no separator; `JoinEmpty` and `JoinConcat` state its properties |
| AlertEmail.JoinEmpty | Server/utils/emailService.js:21 | the joined text is empty exactly when every part is empty |
| AlertEmail.JoinConcat | Server/utils/emailService.js:21 | joining two lists one after the other is the concatenation of the two joins |
| AlertEmail.ThreatList | Server/utils/emailService.js:17-21 | the threats' items joined; `ThreatListEmpty` and `ThreatListAt` state what it holds |
| AlertEmail.ThreatListEmpty | Server/utils/emailService.js:17-21 | the joined items are empty exactly when there are no threats |
| AlertEmail.ThreatListAt | Server/utils/emailService.js:17-21 | for every threat i, the list is the items before i, then the item of threat i, then the items after it |
| AlertEmail.ListBody | Server/utils/emailService.js:33 | no threats gives exactly the fallback item; otherwise the joined items |
| AlertEmail.Subject | Server/utils/emailService.js:25 | the subject line for a count; `SubjectCount` states that the count reads back from it |
| AlertEmail.Html | Server/utils/emailService.js:26-42 | the body: the heading, the operator's name, the list body and the closing text; `ComposeAlert` ties it to the detection data and `ListBody` states the list |
| AlertEmail.SubjectCount | Server/utils/emailService.js:25 | the subject holds only digits between its fixed prefix and suffix, and those digits read back as the number of threats |
| AlertEmail.ComposeAlert | Server/utils/emailService.js:22-43 | the message goes to the recipient, from the configured account; the subject counts the threats and the body names the operator and lists the threats |
| AlertEmail.SendAlertEmail | Server/utils/emailService.js:45-56 | the result is true exactly when the transport delivered the message, and a transport failure gives false instead of an exception |
| Text.Trim | Server/models/OperatorProfileModel.js:4 | the trimmed text neither starts nor ends with white space and is no longer than the input |
| Text.TrimIsInfix | Server/models/OperatorProfileModel.js:4 | the trimmed text occurs in the input, and only white space surrounds it there |
| Text.TrimIdempotent | Server/models/OperatorProfileModel.js:4 | trimming twice is trimming once |
| Text.TrimNoSpace | Server/models/OperatorProfileModel.js:4 | text without white space is its own trim |
| Text.ToLower | Server/models/OperatorProfileModel.js:9 | same length; every ASCII capital becomes its small letter and every other character is kept |
| Text.DecimalRoundTrip | Server/utils/emailService.js:25 | reading the decimal rendering of a count gives the count back |
| Text.DecimalInjective | Server/utils/emailService.js:25 | different counts render differently |
| ProfileSchema.DottedWordChars | Server/models/OperatorProfileModel.js:12 | a dotted word holds only word characters and `.`/`-`, and ends with a word character |
| ProfileSchema.ValidEmail | Server/models/OperatorProfileModel.js:12 | the validator as a split at the first `@` and the last `.` after it; `ValidEmailMatchesPattern` proves it equal to the regular expression |
| ProfileSchema.WordIsDotted | Server/models/OperatorProfileModel.js:12 | a non-empty run of word characters matches `\w+([\.-]?\w+)*` |
| ProfileSchema.DottedAppend | Server/models/OperatorProfileModel.js:12 | two dotted words joined by `.` form one dotted word |
| ProfileSchema.TopLabelsAbsorbed | Server/models/OperatorProfileModel.js:12 | an address ending in two `.\w{2,3}` groups has the form L@D.T with the first group inside D, so one final group covers the pattern's repetition |
| ProfileSchema.ValidEmailMatchesPattern | Server/models/OperatorProfileModel.js:12 | the validator accepts a string exactly when it has the form L@D.T: L and D are word runs joined by single `.` or `-`, and T is 2 or 3 word characters |
| ProfileSchema.ValidEmailSound | Server/models/OperatorProfileModel.js:12 | every accepted string has the form L@D.T |
| ProfileSchema.ValidEmailPieces | Server/models/OperatorProfileModel.js:12 | an accepted string has explicit pieces L, D and T of the right kinds that glue back to it |
| ProfileSchema.PatternSplits | Server/models/OperatorProfileModel.js:12 | every string of the form L@D.T is accepted |
| ProfileSchema.FailingPaths | Server/models/OperatorProfileModel.js:4-16 | `name` fails exactly when it is missing or empty after trimming, and so does `designation`; `email` fails exactly when it is missing, empty after trimming, or rejected by the validator once normalised |
| ProfileSchema.CastFields | Server/models/OperatorProfileModel.js:3-19 | a document is cast exactly when no path fails, and is otherwise rejected with exactly the failing paths; a cast document conforms to the schema, holds the trimmed name and designation and the lower-cased trimmed email, takes the default organization and `lastUpdated` when those are missing, and trims a given organization |
| ProfileSchema.SetFieldsConform | Server/models/OperatorProfileModel.js:4-17 | once the setters and defaults have run, a document with present required paths and a valid email conforms to the schema |
| ProfileSchema.NormalisedEmailIsLower | Server/models/OperatorProfileModel.js:9-10 | a lower-cased and trimmed email has no capital letters |
| ProfileSchema.CastConforming | Server/models/OperatorProfileModel.js:4-18 | normalisation is idempotent: casting the fields of a conforming profile gives that same profile |
| ProfileStore.Upserted | Server/controllers/profileController.js:11-15 | the written record has the normalised email and `lastUpdated` = now, with the trimmed name and designation; the organization is the trimmed one sent, otherwise the one stored under the key, or the default on insert |
| ProfileStore.Save | Server/controllers/profileController.js:3-24 | succeeds exactly with 200; a reply other than 200 leaves the collection unchanged; no save touches any key but the request's |
| ProfileStore.SaveReplies | Server/controllers/profileController.js:3-24 | every save replies 200, 400 or 500, and succeeds exactly with 200; 200 exactly when all three fields are truthy, the update validators pass and the write goes through; missing fields give 400 "Missing required profile fields."; a duplicate key gives 400 "Profile with this email already exists."; failed update validators or any other write error give 500 "Server failed to save profile."; every reply other than 200 leaves the collection unchanged and carries no profile |
| ProfileStore.SaveIsUpsert | Server/controllers/profileController.js:11-15 | after a successful save the keys are the old keys plus the request's key, and the size grows only when that key is new; every other record is unchanged; the keyed record holds the trimmed name and designation and `lastUpdated` = now |
| ProfileStore.UpsertedIsStored | Server/controllers/profileController.js:11-15 | the record an accepted save writes satisfies the collection invariant under its key |
| ProfileStore.SavePreservesValid | Server/controllers/profileController.js:11-15 | every save keeps the invariant: each record is stored under its own email, which is lower-case and trimmed, with a non-empty trimmed name and designation and a trimmed organization |
| ProfileStore.SavedConforms | Server/controllers/profileController.js:11-15 | a saved record whose email passes the schema's validator conforms to the whole schema |
| ProfileStore.EmailsUnique | Server/models/OperatorProfileModel.js:8 | two different keys of a valid collection hold records with different emails |
| ProfileStore.Store.SaveProfile | Server/controllers/profileController.js:3-24 | the reply and the new collection are those of the `Save` function on the old collection, and the collection invariant is kept |
| ProfileStore.Store.GetProfile | Server/controllers/profileController.js:26-40 | a failed query gives 500 "Failed to fetch profile data."; otherwise 200; the profile is empty exactly when the collection is empty, and any profile returned is a stored record whose `lastUpdated` is greatest |
| ProfilePage.ValidateEmail | Client/src/pages/Profile.jsx:59-61 | the client's check as a split at the first `@`; `ValidateEmailMatchesPattern` proves it equal to the regular expression |
| ProfilePage.ValidateEmailMatchesPattern | Client/src/pages/Profile.jsx:59-61 | the client's check accepts exactly the strings A@B.C whose three pieces are non-empty and free of white space and `@` |
| ProfilePage.ClientPieces | Client/src/pages/Profile.jsx:59-61 | an accepted address has explicit pieces A, B and C of the regular expression's form |
| ProfilePage.PatternValidates | Client/src/pages/Profile.jsx:59-61 | every string of the form A@B.C passes the check |
| ProfilePage.ServerValidImpliesClientValid | Client/src/pages/Profile.jsx:59-61 | every address the server's validator accepts passes the client's check |
| ProfilePage.ClientAcceptsMore | Client/src/pages/Profile.jsx:59-61 | "a@b.c" passes the client's check and fails the server's validator |
| ProfilePage.WithField | Client/src/pages/Profile.jsx:56 | the named field takes the value and every other field keeps its own |
| ProfilePage.AfterLoad | Client/src/pages/Profile.jsx:29-35 | with loaded data that has a truthy email, the form takes that email, the name and designation or `''`, and the organization or the default; otherwise the form is unchanged |
| ProfilePage.ProfilePage.constructor | Client/src/pages/Profile.jsx:10-18 | the form starts empty except for the default organization; not saving, and loading |
| ProfilePage.ProfilePage.LoadProfile | Client/src/pages/Profile.jsx:24-46 | a fetch that returned fills the form as `AfterLoad` says and one that threw leaves the form as it was; in every case the initial loading ends, and the notice says which case happened |
| ProfilePage.ProfilePage.HandleChange | Client/src/pages/Profile.jsx:54-57 | the form becomes `WithField` of the old form; the flags are unchanged |
| ProfilePage.ProfilePage.HandleSubmit | Client/src/pages/Profile.jsx:63-83 | the form is sent exactly when its email passes the check; when sent, `isLoading` is raised during the save and lowered afterwards whether the save succeeded or not; when not sent, `isLoading` is unchanged and the notice is the invalid-email one |
| ProfilePage.SubmitInvalidFromStart | Client/src/pages/Profile.jsx:65-68 | on a fresh page, submitting an invalid email sends nothing and leaves `isLoading` false |
| HomePage.AcceptsImage | Client/src/pages/Home.jsx:20-27 | the acceptance rule; `CheckFile` accepts exactly the files it holds of |
| HomePage.CheckFile | Client/src/pages/Home.jsx:20-27 | a file is accepted exactly when its type starts with `image/` and it has at most 16 MiB; otherwise it is refused as not an image first, and as too large second |
| HomePage.SizeBoundary | Client/src/pages/Home.jsx:24 | an image of exactly 16777216 bytes is accepted and one of 16777217 is refused |
| HomePage.ResultUrl | Client/src/pages/Home.jsx:64 | the page shows a result at the same address as the server's `ViewUrl` |
| HomePage.SameServiceAsServer | Client/src/pages/Home.jsx:54 | the address `HandleEnhance` posts to is the upload address the server forwards to |
| HomePage.ErrorText | Client/src/pages/Home.jsx:68-73 | for an error answer: its `detail` when truthy, else its `message` when truthy, else the default; for any other failure, the default |
| HomePage.HomePage.constructor | Client/src/pages/Home.jsx:10-13 | nothing is selected or shown at first, and no upload is running |
| HomePage.HomePage.HandleFileChange | Client/src/pages/Home.jsx:17-33 | the check reported is `CheckFile`; an accepted file becomes the selection shown from its object URL and clears the result; a refused file, or no file, changes nothing |
| HomePage.HomePage.HandleEnhance | Client/src/pages/Home.jsx:41-79 | a request is made exactly when a file is selected, and it posts that file to `DirectUploadUrl`; while it runs `isUploading` is true and afterwards it is false; the result address is set only on success; a failure shows `ErrorText`; without a selection the notice asks for an image and nothing changes |
| Base64.Encode | Server/controllers/upload.js:11 | the padded encoding of n bytes has 4·⌈n/3⌉ characters |
| Base64.GroupRoundTrip | Server/controllers/upload.js:11 | a group of three bytes decodes back from its four characters |
| Base64.RoundTrip | Server/controllers/upload.js:11 | decoding the encoding of any buffer gives the buffer back |
| Base64.EncodeInjective | Server/controllers/upload.js:11 | different buffers have different encodings |
| RawUpload.DataUri | Server/controllers/upload.js:11 | the URI is `data:` + MIME type + `;base64,` followed by exactly 4·⌈n/3⌉ characters, and those characters decode back to the buffer |
| RawUpload.UploadingFile | Server/controllers/upload.js:3-28 | without a file, 400 "No file uploaded" and no upload; with one, exactly one upload of its data URI into folder "DeepVision" with resource type "auto"; then 200 exactly when the store answered, with its URL and id, and 500 exactly when it threw, with "Upload failed" and the thrown message |
| VideoJobs.Name | object_detection/app.py:30 | a path's name holds no `/` and ends the path, and a `/` stands right before it unless it is the whole path |
| VideoJobs.NameAfterSlash | object_detection/app.py:30 | the name of a directory, `/` and a plain name is that name |
| VideoJobs.Extension | object_detection/app.py:107 | the suffix of a name is empty or starts with its only `.`, has at least one more character, and ends the name |
| VideoJobs.ExtensionFromLastDot | object_detection/app.py:107 | the suffix is non-empty exactly when the name has a last `.` that is neither its first nor its last character |
| VideoJobs.Suffix | object_detection/app.py:107 | the suffix of a file name holds no `/` and at most one `.`, which starts it; it is empty or at least two characters long, and it ends the file name |
| VideoJobs.SuffixFromLastDot | object_detection/app.py:107 | the suffix of a file name is non-empty exactly when its last component has a last `.` that is neither that component's first nor its last character |
| VideoJobs.LocalTempPath | object_detection/app.py:108 | the upload is written under `/tmp/`, in a file named by the job id and the suffix |
| VideoJobs.RepoPath | object_detection/app.py:110 | the upload is stored under `uploads/`, under the same file name as the local copy |
| VideoJobs.NewTask | object_detection/app.py:106-110 | the background task carries the job id, the temporary path `/tmp/` + id + suffix and the repository path `uploads/` + id + suffix |
| VideoJobs.PathsDistinct | object_detection/app.py:106-110 | job ids of one length give different temporary paths, repository paths and result addresses |
| VideoJobs.ResultUrl | object_detection/app.py:80 | the address is the dataset's `resolve/main/processed/` base followed by the repository path |
| VideoJobs.OutputPathAsWritten | object_detection/app.py:30 | the output path as written lies under `/tmp/` and keeps the input's file name |
| VideoJobs.OutputOverwritesInput | object_detection/app.py:30 | for every job, the output path as written is the input path itself |
| VideoJobs.OutputOverwritesName | object_detection/app.py:30 | a plain name under `/tmp/` is its own output path as written |
| VideoJobs.OutputPath | object_detection/app.py:30 | the corrected output path is never the input path |
| VideoJobs.Outcome | object_detection/app.py:80-84 | a finished job is never `processing`; it is `complete` exactly when processing succeeded, with the result address of its repository path, and otherwise `failed` with the error |
| VideoJobs.StatusSpec | object_detection/app.py:117-121 | an unknown job gives 404 "Job not found."; a known one gives 200 with its record |
| VideoJobs.DetectVideoEffect | object_detection/app.py:102-116 | replies are 202 or 500; 202 exactly when the token is configured and the upload was stored, and then the job is `processing` with its task scheduled; with 500 nothing is scheduled and the table is unchanged; other jobs are never touched |
| VideoJobs.JobLifecycle | object_detection/app.py:80-121 | a new job is unknown, then `processing`, then `complete` with the result address of its own upload or `failed` with the error, and `get_status` reports each stage |
| VideoJobs.DetectVideoSpec | object_detection/app.py:102-116 | a task is scheduled exactly when the token is configured and the upload was stored; it is the job's own task, and the job becomes `processing`; otherwise the table is unchanged |
| VideoJobs.JobTable.DetectVideo | object_detection/app.py:102-116 | the reply, the scheduled background task and the new table are those of `DetectVideoSpec` on the old table |
| VideoJobs.JobTable.ProcessVideoInBackground | object_detection/app.py:27-88 | the job's record becomes its `Outcome` and the other records are unchanged; the output is written to the corrected `OutputPath`, a file other than the input |
| VideoJobs.JobTable.GetStatus | object_detection/app.py:117-121 | the reply is `StatusSpec` of the table |
| VideoJobs.RunJob | object_detection/app.py:102-121 | a job reads `processing` between the upload and the end of its task, then `complete` with its own result address or `failed` with the error |
| VideoJobs.DetectImage | object_detection/app.py:94-101 | 503 exactly when no model is loaded, and then "Model not loaded." without reading the upload; otherwise 200 with the model's detections |

## Left out

- The remote services are parameters, not models: the enhancement service, the object store, the database, the mail transport, the dataset repository and the vision model. Each appears only as how its call ended. The environment (the mail account, `HF_TOKEN`), the clock and UUID generation are parameters too.
- Logging to the console is left out everywhere.
- AlertEmail.ThreatItem: the confidence percentage is taken as an integer already rounded; `Math.round(confidence * 100)` on floating point is not modelled.
- AlertEmail: a `detectionData` of `null` or `undefined` makes reading `threat_detections` throw a `TypeError` before the `try`, so the call rejects instead of returning false; the model's `DetectionData` is always present and this case is not modelled.
- AlertEmail.Html: the inline styles and indentation of the message body are left out; its text and structure are kept.
- Text.ToLower: lower-cases ASCII letters only, not the full Unicode case mapping of `toLowerCase`.
- Strings are sequences of Unicode scalar values, not UTF-16 code units, so lengths of text with emoji differ from JavaScript's.
- ProfileStore.Save: body fields are strings or missing. Numbers, arrays and other JSON values are not modelled.
- ProfileStore.Save: the model assumes that Mongoose drops keys whose value is `undefined` from an update, so a missing organization keeps the stored one.
- ProfileStore.Save: the `createdAt` and `updatedAt` timestamps are left out, and `lastUpdated` is an integer time.
- ProfileStore.Save: a concurrent upsert that races to a duplicate key is the `DuplicateKey` parameter.
- ProfileStore.SavedConforms: requires a valid email. The upsert does not run the email validator, so the model promises only that a stored email is normalised.
- ProfileStore.Store.GetProfile: returns any record with the greatest `lastUpdated`; which one of several ties MongoDB returns is not modelled.
- Toasts are modelled only as `Notice` values; rendering, routing and styling are left out.
- The client's `fetchProfile` and `saveProfile` calls are left out, and so is `handleUploadClick`, which only clicks a hidden input. The pages see their calls as parameters saying how each ended.
- HomePage.HomePage.HandleFileChange: `URL.createObjectURL` is the parameter `objectUrl`.
- The frame loop of `process_video_in_background` is left out: reading, drawing, inference and writing, object_detection/app.py:32-70. Its result is the `ProcessOutcome` parameter.
- Deleting the temporary files is left out, object_detection/app.py:86-88.
- The background task runs as one sequential step after `detect_video`; concurrency between requests and tasks is not modelled.
- VideoJobs.Name: takes the text after the last `/`. The normalisation `pathlib` applies to repeated or trailing slashes and to `.` components is not modelled. The paths under `/tmp/` and `uploads/` have neither, but the client's upload name can: for `a/b.mp4/` Python's suffix is `.mp4`, while the model's `Suffix` is empty.
- VideoJobs.JobTable.ProcessVideoInBackground: writes the processed video to the corrected `OutputPath`, not to the path object_detection/app.py:30 builds, which is the input file itself (see "## Findings", `OutputPathAsWritten` and `OutputOverwritesInput`).
- VideoJobs.DetectVideoSpec: a missing upload file name makes `Path(None)` throw inside the `try`, which is covered by `StageFailed`, like any failure to write or store the upload.
- VideoJobs.DetectImage: the detections are a parameter. Their floating-point confidences and the decoding of the image are not modelled.
- The `/` health endpoint of object_detection/app.py is left out; it returns a constant.

## Findings

| source | as written | input that shows it | evidently intended | confidence | as-written member | corrected member |
|---|---|---|---|---|---|---|
| object_detection/app.py:30 | the output video path is `/tmp/` + the input's file name, and the input lives at `/tmp/` + id + suffix, so the two paths are the same file | any job, e.g. id `x` and upload `v.mp4`: input and output are both `/tmp/x.mp4`, so the video writer truncates the video the capture is still reading | the processed video goes to a file of its own | not executed | VideoJobs.OutputOverwritesInput | VideoJobs.OutputPath |
