# LibreSign (simplified): a Dafny model of its core

LibreSign is a Next.js application for uploading PDF documents and
managing drawn signatures, on top of a hosted backend. The backend
provides authentication, two storage buckets (`documents` and
`signatures`) and the tables `users`, `documents`, `form_fields` and
`signatures`. This project models the parts of the application that
decide something:

- **Route gate** (`src/middleware.ts`). It decides which pathnames pass
  without a session, and what happens to the others.
- **Bucket provisioning** (`src/lib/utils.ts`). `ensureStorageBuckets`
  visits `documents` and then `signatures`. It creates a bucket, private
  and with a size cap, when asking for it reports an error.
- **Storage check route** (`src/app/api/storage-test/route.ts`). It lists
  the buckets, creates the missing ones, counts their entries and reports
  `{ exists, created, fileCount }` per bucket.
- **New-document page** (`src/app/documents/new/page.tsx`):
  - choosing a PDF derives a default name from the file name;
  - submitting validates, uploads the file under
    `documents/<user>/<ms>_<name>`, and only then inserts a `draft` row.
- **Signature pad** (`src/components/signatures/SignaturePad.tsx`). Saving
  a drawing uploads `signatures/<user>/<ms>.png`, then inserts a row with
  the "default" checkbox value.
- **Signature manager** (`src/components/signatures/SignatureManager.tsx`):
  - fetch the user's signatures, default first, then newest first;
  - delete one: the row first, then its image;
  - make one the default: clear all the user's defaults, then set one.
- **Data model and client factory** (`src/lib/supabase.ts`). These are the
  row and insert shapes, and `createSupabaseClient`'s check of its two
  settings.

Modules:

- `Common`: `Option`, and the outcome of a backend call. A `Reply` is
  supplied by the environment: a normal answer with data, a normal answer
  with null data, an error result, or an exception.
- `JsString`: the JavaScript string operations the code relies on:
  - `trim`;
  - `replace(/\s+/g, "_")`;
  - decimal rendering of `Date.now()`;
  - splitting at a character, used to read keys back.
- `Schema`: the rows, the inserts and the column defaults, plus
  `createSupabaseClient`.
- `Backend`: the class `Store`, holding the buckets map and the
  `documents` and `signatures` tables. It has one method per SDK call the
  core makes. Each method's contract gives the new state as a function of
  the old state and the reply.
- `Middleware`, `Buckets`, `StorageTest`, `DocumentUpload`,
  `SignaturePadComponent` and `SignatureManagerComponent`: one module per
  source file.

How the model is shaped:

- Code that changes state is written as methods. Examples are the React
  state of a page or component, kept as class fields, and the bucket map
  and tables of the `Store`.
- Each such method is proved against a pure function or a case-by-case
  description of the new state.
- The properties the code promises are lemmas about those functions.
- Clock readings (`Date.now()`, `new Date().toISOString()`) are `nat`
  parameters, and so are the session lookup and every backend reply.
- Values the store assigns (row id, `created_at`, column defaults) come
  from a `StoreAssigned` parameter.

## Model

| member | source | states |
|---|---|---|
| Middleware.MatchesAnyIff | src/middleware.ts:21-23 | the `some` over the public list holds iff some listed path equals the pathname or is a prefix of it |
| Middleware.MatchesAny | src/middleware.ts:21-23 | the `pathname === path` test adds nothing: a listed pathname always matches, and every match is a prefix match with some listed path |
| Middleware.IsPublicPath | src/middleware.ts:10-23 | only pathnames that begin with `/` are public, since every listed path does |
| Middleware.Gate | src/middleware.ts:10-54 | the request passes iff its pathname is public or a session was found; every redirect goes to `/login`, and it carries `from=<pathname>` exactly when no session was found |
| Middleware.PublicPathIff | src/middleware.ts:10-23 | a pathname is public iff it equals or starts with one of the seven listed paths |
| Middleware.PrefixMatchIgnoresSegments | src/middleware.ts:21-23 | matching is on characters, not path segments: `/apix`, `/loginx`, `/signup-old` are public |
| Middleware.EveryRootedPathIsPublic | src/middleware.ts:14 | because `/` is listed and matched as a prefix, every pathname beginning with `/` is public |
| Middleware.ProtectedIffNotRooted | src/middleware.ts:10-23 | a pathname is protected iff it is empty or does not begin with `/` |
| Middleware.RootedPathsAlwaysPass | src/middleware.ts:25-27 | every pathname beginning with `/` passes whatever the session lookup returns |
| Middleware.DashboardServedWithoutSession | src/middleware.ts:25-27 | `/dashboard` with no session, and `/documents/new` when the lookup throws, are passed through |
| Middleware.PublicPathsIgnoreSession | src/middleware.ts:25-27 | a public pathname passes and the lookup's outcome does not matter |
| Middleware.ProtectedPathDecision | src/middleware.ts:29-54 | for a protected pathname: no session redirects to `/login?from=<pathname>`, a session passes, an exception redirects to `/login?error=auth_error` |
| Middleware.RedirectsOnlyToLogin | src/middleware.ts:39-54 | every redirect goes to `/login`; the gate never redirects to the dashboard |
| Middleware.CorrectedIsNarrower | src/middleware.ts:10-23 | with `/` matched exactly, every path public under the corrected list is public under the list as written |
| Middleware.CorrectedGate | src/middleware.ts:10-54 | the same decision with `/` matched exactly: passes iff the pathname is public under the corrected list or a session was found; redirects go to `/login` as in the gate as written |
| Middleware.CorrectedGateProtectsDashboard | src/middleware.ts:10-54 | under the corrected gate `/dashboard` redirects without a session, redirects with `error` when the lookup throws, passes with a session; `/` and `/login` stay public |
| Middleware.CorrectedGateOnlyAddsRedirects | src/middleware.ts:25-54 | the two gates differ only where the written gate passes and the corrected one redirects |
| Buckets.Provision | src/lib/utils.ts:12-34 | existing buckets are kept unchanged; each new bucket is one of the visited names with its private, capped settings; only visited names are attempted |
| Buckets.SizeLimitFor | src/lib/utils.ts:22 | the cap is 10 MiB for `documents` and 5 MiB for every other bucket |
| Buckets.ProvisionStep | src/lib/utils.ts:14-30 | a create is attempted iff `getBucket` reports an error; the map gains at most the new private, capped bucket, and the bucket is present afterwards iff it was before or the attempted create was accepted |
| Buckets.EnsureStorageBuckets | src/lib/utils.ts:10-35 | the loop leaves the buckets and the list of create attempts equal to `Provision` over `documents` then `signatures`; tables untouched |
| Buckets.ProvisionOutcome | src/lib/utils.ts:12-30 | create is attempted for exactly the names whose `getBucket` errored, in the order `documents`, `signatures`; a bucket exists afterwards iff it existed or its create succeeded |
| Buckets.CreatedBucketsArePrivate | src/lib/utils.ts:20-23 | every bucket created is private, empty, capped at 10485760 bytes for `documents` and 5242880 for `signatures` |
| Buckets.ProvisionIdempotent | src/lib/utils.ts:14-30 | when both buckets exist nothing changes, and with normal `getBucket` answers no create is attempted |
| Buckets.SecondCallMakesNoAttempt | src/lib/utils.ts:12-34 | after a call that leaves both buckets, a second call makes no create attempt and changes nothing |
| Buckets.SecondBucketIndependent | src/lib/utils.ts:13-33 | a failure on `documents` does not affect `signatures`: its outcome depends only on its own replies |
| StorageTest.CreateStage | src/app/api/storage-test/route.ts:40-53 | a listed bucket is not created and its report is kept; an unlisted, absent bucket whose create is accepted is added with its settings and reported `created`; an error answer (or an unlisted bucket that is in fact present) only logs and keeps the report; a throw ends the stage with no report |
| StorageTest.CountStage | src/app/api/storage-test/route.ts:72-81 | a bucket neither listed nor created keeps its report; otherwise a normal listing with data of a present bucket sets the count to its number of objects, any other non-throwing answer keeps the report, and a throw gives no report |
| StorageTest.StorageCheck | src/app/api/storage-test/route.ts:5-106 | every error answer has status 500; "Failed to list buckets" is answered exactly on a listing error; a success answer carries the completion message and needs a normal listing; a failed listing leaves the buckets as they were |
| StorageTest.ListErrorCreatesNothing | src/app/api/storage-test/route.ts:14-23 | an error or exception from `listBuckets` answers 500 and creates no bucket |
| StorageTest.StorageCheckOnlyAddsNamedBuckets | src/app/api/storage-test/route.ts:39-69 | existing buckets are never changed; new buckets are only `documents` or `signatures`, private with their cap |
| StorageTest.StorageCheckReports | src/app/api/storage-test/route.ts:25-93 | in a report `exists` mirrors the listing, `exists` and `created` never both hold, `created` means absent before and present after, a non-zero count comes from a normal listing |
| StorageTest.StorageCheckCompletes | src/app/api/storage-test/route.ts:25-98 | a failed create or listing does not abort: with the bucket listing answered and no later throw the response is the report, each bucket `created` exactly when unlisted, absent and its create accepted, present afterwards iff present before or created, and its count the object count exactly when listed or created and listed normally |
| StorageTest.StagesComplete | src/app/api/storage-test/route.ts:39-93 | for one bucket, when neither its create nor its listing throws, both stages give a report and it has the completed form |
| StorageTest.CreateStageOnlyAddsNamed | src/app/api/storage-test/route.ts:40-69 | one create stage keeps every bucket and adds at most the named one, freshly made |
| StorageTest.CreateUnlessListed | src/app/api/storage-test/route.ts:40-53 | the bucket creation step on the store equals `CreateStage` |
| StorageTest.CountUnlessMissing | src/app/api/storage-test/route.ts:72-81 | the counting step on the store equals `CountStage` |
| StorageTest.Get | src/app/api/storage-test/route.ts:5-106 | the handler's new buckets and response equal `StorageCheck` of the buckets on entry; tables untouched |
| JsString.TrimStart | src/app/documents/new/page.tsx:52 | the result is the suffix of the input that begins with the first non-whitespace character |
| JsString.TrimEnd | src/app/documents/new/page.tsx:52 | the result is the prefix of the input that ends with the last non-whitespace character |
| JsString.Trim | src/app/documents/new/page.tsx:52 | the result is no longer than the input and starts and ends with non-whitespace; a string already without whitespace at either end is returned unchanged; which characters are dropped is pinned by `TrimStart` and `TrimEnd`, and the `!trim()` test by `TrimEmptyIffBlank` |
| JsString.TrimEmptyIffBlank | src/app/documents/new/page.tsx:52 | `!documentName.trim()` holds exactly when the name is empty or all whitespace |
| JsString.ReplaceWhitespaceRuns | src/app/documents/new/page.tsx:71 | the result contains no whitespace and is no longer than the input |
| JsString.ReplaceKeepsCleanNames | src/app/documents/new/page.tsx:71 | a name without whitespace is left unchanged |
| JsString.ReplaceIdempotent | src/app/documents/new/page.tsx:71 | applying the replacement twice gives the same as once |
| JsString.ReplaceRunThenRest | src/app/documents/new/page.tsx:71 | after a clean prefix, a whole whitespace run becomes a single `_` and the replacement carries on with what follows the run |
| JsString.ReplaceCleanPrefix | src/app/documents/new/page.tsx:71 | characters before the first whitespace are copied one for one, and the replacement continues on the rest |
| JsString.ReplaceRunFirst | src/app/documents/new/page.tsx:71 | a leading whitespace run becomes one `_`, and the replacement resumes where the run ends |
| JsString.ReplaceJoinsAtRun | src/app/documents/new/page.tsx:71 | a whole whitespace run between two clean parts becomes a single `_` |
| JsString.ReplaceTwoRuns | src/app/documents/new/page.tsx:71 | two separate whitespace runs between clean parts become one `_` each |
| JsString.TrimStartOverBlank | src/app/documents/new/page.tsx:71 | a whitespace run in front of a part that is empty or begins with a non-whitespace character is skipped entirely |
| JsString.DecimalString | src/app/documents/new/page.tsx:71 | the rendering of a timestamp is a non-empty string of digits |
| JsString.DecimalRoundTrip | src/app/documents/new/page.tsx:71 | parsing the rendered timestamp gives the timestamp back |
| JsString.SplitAtFirst | src/app/documents/new/page.tsx:71 | a split gives the part before the first occurrence and the rest, and fails only when the character is absent |
| JsString.SplitAtFirstOf | src/app/documents/new/page.tsx:71 | splitting `a + c + b`, with `c` not in `a`, gives back `a` and `b` |
| Common.Resolve | src/lib/utils.ts:13-32 | a call succeeds iff its reply is normal and the store accepts it, and it throws iff the reply is an exception |
| Schema.ParseStatus | src/lib/supabase.ts:27 | a status text is accepted iff it is `draft`, `sent` or `completed`, and reading it back gives the same text |
| Schema.StatusTextRoundTrip | src/lib/supabase.ts:27-36 | every status survives writing and reading |
| Schema.ParseFieldType | src/lib/supabase.ts:56 | a field type is accepted iff it is `signature`, `text` or `date` |
| Schema.DocumentRowOf | src/lib/supabase.ts:23-41 | the stored row carries every column the insert supplied; an omitted id or status takes the store's value |
| Schema.SignatureRowOf | src/lib/supabase.ts:90-106 | the stored row carries every column the insert supplied; an omitted id or `is_default` takes the store's value |
| Schema.CreateSupabaseClient | src/lib/supabase.ts:121-145 | a client is made iff both settings are present and non-empty, with exactly those settings and `persistSession`; otherwise the fixed error message |
| Backend.WithoutId | src/components/signatures/SignatureManager.tsx:88-91 | the delete keeps exactly the rows with another id, each as often as the table holds it |
| Backend.SetDefaultWhereUser | src/components/signatures/SignatureManager.tsx:117-120 | same length and same ids; only `is_default` changes, and it takes the new value exactly on the user's rows |
| Backend.SetDefaultWhereId | src/components/signatures/SignatureManager.tsx:123-126 | same length and same ids; only `is_default` changes, and it takes the new value exactly on the rows with the id |
| Backend.Fits | src/lib/utils.ts:20-23 | an uncapped bucket admits any size, and a size the cap admits admits every smaller size; the cap test itself is the predicate's definition, and what it decides is stated by `Backend.Store.Upload` |
| Backend.OfUser | src/components/signatures/SignatureManager.tsx:33-36 | the filter keeps exactly the user's rows, each exactly as often as the table holds it, and no other row |
| Backend.InsertInOrder | src/components/signatures/SignatureManager.tsx:37-38 | inserting into an ordered list keeps it ordered and adds exactly the one row |
| Backend.DisplayOrder | src/components/signatures/SignatureManager.tsx:37-38 | the result is ordered default first, then newest first, and is a permutation of the input |
| Backend.WithObject | src/app/documents/new/page.tsx:72-77 | writing an object keeps the set of buckets, puts the blob at the key (the bucket's keys become the old keys plus that one), keeps every other object's blob, the bucket's visibility and size cap, and every other bucket |
| Backend.AppendKeepsUnique | src/lib/supabase.ts:90-106 | appending a row whose id is not taken keeps the ids of `signatures` distinct |
| Backend.WithoutIdKeepsUnique | src/components/signatures/SignatureManager.tsx:88-91 | deleting by id keeps the ids of `signatures` distinct |
| Backend.Store.constructor | src/lib/supabase.ts:3-118 | a new backend has no buckets and empty tables |
| Backend.Store.GetBucket | src/lib/utils.ts:14 | an error exactly when the bucket is missing (or the reply is an error) |
| Backend.Store.CreateBucket | src/lib/utils.ts:20-23 | adds the bucket with the given visibility and cap on success, which requires it to be absent; nothing else changes |
| Backend.Store.ListBuckets | src/app/api/storage-test/route.ts:14-16 | returns the set of bucket names on a normal reply with data |
| Backend.Store.ListFiles | src/app/api/storage-test/route.ts:73-76 | returns the bucket's object count on a normal reply for an existing bucket |
| Backend.Store.Upload | src/app/documents/new/page.tsx:72-77 | on success, which needs an existing bucket and a blob within its cap, the object is put at the key, replacing any; otherwise nothing changes |
| Backend.Store.Remove | src/components/signatures/SignatureManager.tsx:98-100 | on success the keys are removed from the bucket; otherwise nothing changes |
| Backend.Store.InsertDocument | src/app/documents/new/page.tsx:84-94 | the insert is refused when the row's id is already taken; on success the row is appended; the row is returned only on success with a normal reply |
| Backend.Store.InsertSignature | src/components/signatures/SignaturePad.tsx:71-80 | the insert is refused when the row's id is already taken; on success the row is appended; the row is returned only on success with a normal reply; distinct ids stay distinct |
| Backend.Store.DeleteSignature | src/components/signatures/SignatureManager.tsx:88-91 | on success the rows with that id are gone; distinct ids stay distinct |
| Backend.Store.UpdateDefaultByUser | src/components/signatures/SignatureManager.tsx:117-120 | on success every row of the user gets the flag; distinct ids stay distinct |
| Backend.Store.UpdateDefaultById | src/components/signatures/SignatureManager.tsx:123-126 | on success the row with that id gets the flag; distinct ids stay distinct |
| Backend.Store.SelectSignatures | src/components/signatures/SignatureManager.tsx:33-38 | on a normal reply returns the user's rows in display order |
| DocumentUpload.DefaultDocumentName | src/app/documents/new/page.tsx:37 | the default name is the file name or the file name without a trailing `.pdf`, and differs from it exactly when it ends in `.pdf` |
| DocumentUpload.DefaultNameRoundTrip | src/app/documents/new/page.tsx:37 | removing the suffix undoes appending `.pdf`, once |
| DocumentUpload.DefaultNameExamples | src/app/documents/new/page.tsx:37 | only one trailing lower-case `.pdf` is removed: `a.pdf.pdf` gives `a.pdf`, `SCAN.PDF` and `notes.pdf.txt` are kept |
| DocumentUpload.DocumentKeyRoundTrip | src/app/documents/new/page.tsx:71 | the key gives back its owner, its timestamp and the whitespace-free file name |
| DocumentUpload.DocumentKey | src/app/documents/new/page.tsx:71 | the key lies in the uploader's `documents/<user>/` folder, and nothing after that folder is whitespace |
| DocumentUpload.DocumentKeysDistinct | src/app/documents/new/page.tsx:71 | uploads by different users or at different milliseconds get different keys |
| DocumentUpload.DraftRowFields | src/app/documents/new/page.tsx:84-92 | the inserted row has status `draft`, the submitter as creator, the key as path, the chosen name and the update time |
| DocumentUpload.DraftInsert | src/app/documents/new/page.tsx:84-92 | id and `created_at` are left to the store; status is sent as `draft` with the given `updated_at`, the name, the submitter and the key |
| DocumentUpload.Recorded | src/app/documents/new/page.tsx:68-103 | the outcome is an upload failure, a save failure or the editor of the new row; a failed upload changes nothing; the table gains at most the draft row, and a row or the editor only comes with the PDF stored at its key |
| DocumentUpload.RecordedOutcomes | src/app/documents/new/page.tsx:68-103 | a refused upload (error, throw, no bucket, over the cap) is `UploadFailed` and changes nothing; an accepted one stores the PDF at its key; the row is added exactly when the insert is accepted (normal reply, id free); the editor `/documents/<id>/edit` opens exactly when the row came back |
| DocumentUpload.RecordedKeepsBacked | src/app/documents/new/page.tsx:68-103 | a submit never leaves a document row whose file is missing |
| DocumentUpload.UploadAndRecord | src/app/documents/new/page.tsx:68-103 | the buckets, the table and the outcome afterwards are those of `Recorded` for the replies given; a failed upload changes nothing; a row is added only together with its uploaded object; the store keeps "every document row has its file" |
| DocumentUpload.NewDocumentPage.constructor | src/app/documents/new/page.tsx:14-16 | no file, empty name, not uploading |
| DocumentUpload.NewDocumentPage.HandleFileChange | src/app/documents/new/page.tsx:25-42 | no file or a non-PDF leaves the state unchanged; a PDF is selected and names an empty document after itself |
| DocumentUpload.NewDocumentPage.HandleSubmit | src/app/documents/new/page.tsx:44-109 | no file or a blank name is refused with nothing changed; no session goes to `/login` with no upload; otherwise the upload comes before the row, an upload error stops before the row, success opens `/documents/<id>/edit`, all as `Recorded` states for a signed-in user with a file and a non-blank name; a throwing session lookup is reported as an error; `isUploading` ends false; every document row keeps its file |
| SignaturePadComponent.SignatureKeyRoundTrip | src/components/signatures/SignaturePad.tsx:51 | the key gives back its owner and timestamp |
| SignaturePadComponent.SignatureKey | src/components/signatures/SignaturePad.tsx:51 | the key lies in the signer's `signatures/<user>/` folder and ends in `.png` |
| SignaturePadComponent.SignatureKeysDistinct | src/components/signatures/SignaturePad.tsx:51 | saves by different users or at different milliseconds get different keys |
| SignaturePadComponent.PadRowFields | src/components/signatures/SignaturePad.tsx:73-78 | the inserted row carries the user, the name, the key and the checkbox value |
| SignaturePadComponent.PadInsert | src/components/signatures/SignaturePad.tsx:73-78 | id and `created_at` are left to the store; `is_default` is always sent with the checkbox value, with the user, name and key |
| SignaturePadComponent.SavedEffect | src/components/signatures/SignaturePad.tsx:45-90 | the outcome is an upload failure, a save failure or success; a failed upload changes nothing; success happens iff the table gained the pad's row, whose PNG is then stored at its key; `onSave` is only ever told the new row's id, and only when there is a handler |
| SignaturePadComponent.CountDefaultsAppend | src/components/signatures/SignaturePad.tsx:73-78 | a new row raises its owner's default count by one exactly when it is marked default |
| SignaturePadComponent.SavingDefaultAddsADefault | src/components/signatures/SignaturePad.tsx:73-78 | saving with "default" ticked adds a default without clearing the others, so there is no single-default rule on save |
| SignaturePadComponent.SavedOutcomes | src/components/signatures/SignaturePad.tsx:45-90 | a refused upload is `UploadFailed` and changes nothing; an accepted one stores the PNG at its key; the row is added, and the save reported done, exactly when the insert is accepted; `onSave` gets the new id exactly when there is a handler and the row came back |
| SignaturePadComponent.SavedKeepsUniqueIds | src/components/signatures/SignaturePad.tsx:71-80 | a save keeps the ids of `signatures` distinct |
| SignaturePadComponent.UploadAndRecordSignature | src/components/signatures/SignaturePad.tsx:45-90 | the buckets, the table and the outcome afterwards are those of `SavedEffect` for the replies given; a failed upload changes nothing; a row is added only with its uploaded image; `onSave` receives the new id exactly when it exists and the insert returned the row; ids stay distinct |
| SignaturePadComponent.SignaturePad.constructor | src/components/signatures/SignaturePad.tsx:20-22 | name `My Signature`, not default, not saving |
| SignaturePadComponent.SignaturePad.SaveSignature | src/components/signatures/SignaturePad.tsx:35-96 | an empty or missing canvas is refused with nothing changed; otherwise the store and outcome are those of `SavedEffect` for the pad's name and checkbox; `isSaving` ends false; ids stay distinct |
| SignatureManagerComponent.FindById | src/components/signatures/SignatureManager.tsx:81 | the result is the first row with that id, and none exactly when no row has it |
| SignatureManagerComponent.ClearThenSet | src/components/signatures/SignatureManager.tsx:117-126 | same length and same ids; only `is_default` changes; among the user's rows exactly those with the chosen id are default |
| SignatureManagerComponent.ClearThenSetMarks | src/components/signatures/SignatureManager.tsx:117-126 | after both updates only `is_default` has changed; among the user's rows exactly the target is default; other users' rows other than the target are unchanged |
| SignatureManagerComponent.NoDefaults | src/components/signatures/SignatureManager.tsx:117-120 | no row marked default gives a count of zero |
| SignatureManagerComponent.OneDefault | src/components/signatures/SignatureManager.tsx:123-126 | one row marked default gives a count of one |
| SignatureManagerComponent.SameDefaultsSameCount | src/components/signatures/SignatureManager.tsx:117-126 | the default count depends only on which rows are the user's defaults |
| SignatureManagerComponent.ClearThenSetLeavesOneDefault | src/components/signatures/SignatureManager.tsx:117-126 | if the target row is the user's, the user has exactly one default afterwards |
| SignatureManagerComponent.ClearThenSetKeepsOtherUsers | src/components/signatures/SignatureManager.tsx:117-126 | other users keep their default counts |
| SignatureManagerComponent.SecondChoiceWins | src/components/signatures/SignatureManager.tsx:114-126 | choosing one default and then another leaves the second as the user's only default |
| SignatureManagerComponent.FailedClearCanLeaveTwoDefaults | src/components/signatures/SignatureManager.tsx:117-126 | when the clearing step fails and is ignored, the set step can leave a user with two defaults |
| SignatureManagerComponent.FetchedRowsAreTheUsers | src/components/signatures/SignatureManager.tsx:33-38 | a fetch shows exactly the user's rows, each as often as the table holds it, in display order |
| SignatureManagerComponent.AfterRemove | src/components/signatures/SignatureManager.tsx:98-100 | the set of buckets is kept and every bucket but `signatures` is unchanged; that bucket keeps its settings and every other object; its keys become the old keys less the path when the removal is accepted, so nothing is added; an error or a throw changes nothing |
| SignatureManagerComponent.RemovingOnePath | src/components/signatures/SignatureManager.tsx:98-100 | `remove([path])` on the `signatures` bucket leaves exactly the storage `AfterRemove` describes |
| SignatureManagerComponent.DeleteRowThenImage | src/components/signatures/SignatureManager.tsx:88-103 | a failed row delete changes nothing; after a row delete the image is removed per `AfterRemove`, and a thrown removal is reported; ids stay distinct |
| SignatureManagerComponent.SignatureManager.constructor | src/components/signatures/SignatureManager.tsx:22-23 | empty list, loading |
| SignatureManagerComponent.SignatureManager.FetchSignatures | src/components/signatures/SignatureManager.tsx:31-51 | a normal reply shows the user's rows in display order, null data an empty list, an error keeps the list; `loading` ends false |
| SignatureManagerComponent.SignatureManager.Mount | src/components/signatures/SignatureManager.tsx:53-57 | fetches only for a non-empty user id |
| SignatureManagerComponent.SignatureManager.HandleDeleteSignature | src/components/signatures/SignatureManager.tsx:78-112 | an unlisted id changes nothing; a failed row delete stops before the image; after a row delete the image is removed, a removal error is only logged, a thrown removal is reported; ids stay distinct |
| SignatureManagerComponent.SignatureManager.SetDefaultSignature | src/components/signatures/SignatureManager.tsx:114-138 | clear the user's defaults and then set the target; an error from the clear is ignored, a throw skips the set; only the set's failure is reported; ids stay distinct; with distinct ids, both steps answered and the target the user's own, the user ends with exactly one default and no other user's count changes |

## Findings

| source | as written | input that shows it | evidently intended | confidence | as-written member | corrected member |
|---|---|---|---|---|---|---|
| src/middleware.ts:14 | `"/"` is in the public list and public paths are matched with `startsWith`, so every pathname beginning with `/` is public and the session check never runs | pathname `/dashboard` with no session: the gate passes the request instead of redirecting to `/login?from=/dashboard` | `/` is public only as the exact root page; every other listed path stays a prefix | not executed | Middleware.DashboardServedWithoutSession | Middleware.CorrectedGateProtectsDashboard |

`Middleware.Gate` is the gate as written, and `Middleware.CorrectedGate`
is the gate with `/` matched exactly.
`Middleware.CorrectedGateOnlyAddsRedirects` shows that the two differ
only by redirecting where the written gate lets the request through.

## Left out

- The SDK itself, its HTTP traffic and row-level security are not modelled. Each call is a `Store` method whose outcome is given by a `Reply`.
- A `Reply` of `Throws` on a call that changes data is modelled as not applied.
- An error reply to an insert is modelled as nothing inserted. The primary key is the only constraint modelled: an insert whose id is taken is refused like an error reply.
- The session cookie refresh inside `getSession` is not modelled.
- Middleware: the `config.matcher` pattern is not modelled. It only decides which requests reach the gate.
- The auth callback, the login, signup, dashboard and signatures pages, and the UI components are not part of this model.
- The document editor and all form-field operations are not part of this model.
- Document status transitions are not part of this model.
- `form_fields` is modelled as a row shape and a field-type parser only.
- `setupStoragePolicies` (the two policy RPCs) catches its own errors and changes no bucket or table, so the route model leaves it out.
- `list()` returns at most its first page and groups entries by folder. `Store.ListFiles` counts the bucket's objects instead.
- Public URLs (`getPublicUrl`) and `handleSelectSignature` are left out: a URL is a string built by the SDK.
- `onSave` is modelled as receiving only the new row's id.
- Converting the drawing with `fetch(dataUrl).then(r => r.blob())` is assumed to succeed. If it rejected, the source would catch the error and report it, with no upload, no insert and `isSaving` back to false; `SaveSignature` has no outcome for that case.
- Canvas rendering and PNG encoding are reduced to a `Canvas` value: whether it is empty, and the size of its image.
- Toasts, console output and router navigation become outcome values (`SubmitOutcome`, `SaveOutcome`, `DeleteOutcome`, `DefaultOutcome`, `FetchOutcome`). The message texts are not kept.
- The refetch issued after a delete, a set-default or a save is not awaited in the source. It is modelled as a separate call to `FetchSignatures`, not as part of those operations.
- Closing the dialog in `handleSignatureSaved` is left out.
- React's asynchronous state updates and concurrent event handlers are not modelled. Each handler runs to completion on the state it starts from.
- Timestamps are `nat`: `Date.now()` as a millisecond count, ISO strings as the instant they denote. `created_at` ordering compares those numbers.
- The order among rows that tie on both sort keys is left open: `DisplayOrder` fixes one order, which the database need not match.
- The column defaults the store applies (`status`, `is_default`, id, `created_at`) come from a `StoreAssigned` parameter. The schema file does not state them.
- The debug log in `createSupabaseClient` and the browser `localStorage` choice are left out.
- Two behaviours sometimes expected of such an application are absent from the code, so the model has them neither. The gate does not send a signed-in user from `/login` to `/dashboard`. A user's first signature does not become the default automatically: the row's `is_default` is the checkbox value (`SignaturePadComponent.PadRowFields`), and the checkbox starts unticked (`SignaturePadComponent.SignaturePad.constructor`).
