# Mel & Beans video archive — a Dafny model of its record store and form logic

The application is a single-user, browser-only video archive. A shared access code
unlocks it; the user uploads videos (metadata plus an in-browser object URL), searches
the library, and keeps a list of video ideas. Everything persists in three
browser-storage slots.

This project models, as pure functions over immutable datatypes:

- **the persistence store** (`storage.dfy`, module `Storage`): the video slot, the idea
  slot and the authentication slot, with prepend-on-add, delete-by-id (every match),
  update-by-id (first match only, shallow merge of a partial record), and the
  authentication flag that counts as set only when the slot holds exactly `"true"`;
- **the application controller** (`app.dfy`, module `App`): the in-memory mirror of
  the store, the initialisation effect, every handler, the authentication gate, and
  an event loop (`Step`, `Run`) that dispatches user actions through whichever view is
  rendered;
- **the components' input rules**: the access-code form (`login_page.dfy`), the upload
  form's validation, submit and per-field error clearing (`video_upload.dfy`), the idea
  form's add-or-edit state machine (`video_ideas.dfy`) and the library search filter
  (`video_library.dfy`);
- **helpers**: `Option` (`wrappers.dfy`), the string primitives `trim`, `toLowerCase`
  and `includes` (`text.dfy`), and `filter`/`findIndex` with a subsequence relation
  (`seqs.dfy`), with the record shapes in `types.dfy`.

Ids and timestamps (`Date.now()`, `toISOString()`) and the object URL
(`URL.createObjectURL`) are parameters. A chosen file is its size and MIME type.
localStorage is three `Option` slots; the JSON encoding is abstracted away, so a list
slot holds the decoded sequence and `None` stands for an absent key.

The model follows the code as written, including where a stricter store might be expected:

- a corrupted list slot is not read as empty: `JSON.parse` throws, and that path is not modelled;
- `setAuthenticated(false)` stores the string `"false"` rather than removing the key;
  it still reads as not authenticated;
- the controller does not re-validate uploaded data; it trusts the form;
- a patch's `id` and `createdAt` fields are not ignored by the store: they overwrite.
  Only the idea form's own patches are restricted to title and description, which
  `VideoIdeas.EditKeepsIdentity` relies on;
- delete removes every record with the id, update changes only the first one.

## Model

| member | source | states |
|---|---|---|
| Storage.GetVideos | src/utils/storage.ts:8-11 | an absent video slot reads as the empty list |
| Storage.SaveVideos | src/utils/storage.ts:13-15 | reading the video list back after a save yields exactly the saved sequence; the idea and auth slots are untouched |
| Storage.AddVideo | src/utils/storage.ts:17-21 | the list grows by one, the new video is first, and the old list follows unchanged and in order; other slots untouched |
| Storage.DeleteVideo | src/utils/storage.ts:23-26 | no remaining video has the id; every other video is kept with its multiplicity and relative order; an absent id leaves the list unchanged; other slots untouched |
| Storage.DeleteVideoIdempotent | src/utils/storage.ts:23-26 | deleting the same id twice equals deleting it once |
| Storage.GetIdeas | src/utils/storage.ts:28-31 | an absent idea slot reads as the empty list |
| Storage.SaveIdeas | src/utils/storage.ts:33-35 | reading the idea list back after a save yields exactly the saved sequence; the video and auth slots are untouched |
| Storage.AddIdea | src/utils/storage.ts:37-41 | the list grows by one, the new idea is first, and the old list follows unchanged and in order; other slots untouched |
| Storage.Merge | src/utils/storage.ts:47 | each field present in the patch overwrites, each absent field keeps the idea's value |
| Storage.MergeIdempotent | src/utils/storage.ts:47 | merging the same patch twice equals merging it once |
| Storage.UpdateIdea | src/utils/storage.ts:43-50 | with no idea carrying the id the whole store is unchanged (no save); otherwise the length is kept, the first matching idea becomes the merge and every other entry is unchanged; other slots untouched |
| Storage.UpdateIdeaIdempotent | src/utils/storage.ts:43-50 | a patch without an id field applied twice equals applying it once |
| Storage.DeleteIdea | src/utils/storage.ts:52-55 | no remaining idea has the id; every other idea is kept with its multiplicity and relative order; an absent id leaves the list unchanged; other slots untouched |
| Storage.DeleteIdeaIdempotent | src/utils/storage.ts:52-55 | deleting the same id twice equals deleting it once |
| Storage.IsAuthenticated | src/utils/storage.ts:57-59 | the flag is set exactly when the slot holds "true"; an absent key or any other string reads as unset |
| Storage.SetAuthenticated | src/utils/storage.ts:61-63 | reading the flag after setting it to v yields v; the collections are untouched |
| Storage.Logout | src/utils/storage.ts:65-67 | after logout the flag slot is absent and reads as not authenticated; the collections are untouched |
| Seqs.Filter | src/utils/storage.ts:24 | `filter` keeps exactly the elements satisfying the predicate, each with its original multiplicity, and never grows the list |
| Seqs.FilterIsSubsequence | src/utils/storage.ts:24 | the filtered list is a subsequence of the original, so order is preserved |
| Seqs.FilterKeepsAll | src/utils/storage.ts:53 | filtering a list whose elements all pass returns it unchanged |
| Seqs.FilterAgreeing | src/components/VideoLibrary.tsx:15 | two predicates that agree on every element filter a list to the same result |
| Seqs.FindIndex | src/utils/storage.ts:45 | `findIndex` returns -1 exactly when no element matches, otherwise an index that matches with no match before it |
| App.Init | src/App.tsx:18-22 | after the mount effect the state equals the three stored slots and the store is unchanged |
| App.HandleLogin | src/App.tsx:24-27 | both the stored flag and the state become authenticated; collections untouched in store and state |
| App.HandleLogout | src/App.tsx:29-32 | both the stored flag and the state become unauthenticated; videos and ideas stay, in store and in state |
| App.HandleUploadVideo | src/App.tsx:34-47 | the state's videos equal the stored list, whose head has the given title, description, date, URL, id and upload time and no thumbnail, followed by the old list |
| App.HandleDeleteVideo | src/App.tsx:49-52 | the state's videos equal the stored list, which keeps every old video without the id, with its multiplicity and in its order, and no video with the id |
| App.HandleAddIdea | src/App.tsx:54-62 | the state's ideas equal the stored list, whose head has the given title, description, id and creation time, followed by the old list |
| App.HandleUpdateIdea | src/App.tsx:64-67 | the state's ideas equal the stored list; an unknown id changes nothing; otherwise only the first match is merged |
| App.HandleDeleteIdea | src/App.tsx:69-72 | the state's ideas equal the stored list, which keeps every old idea without the id, with its multiplicity and in its order, and no idea with the id |
| App.UploadThenDeleteRestores | src/App.tsx:34-52 | uploading with an id not yet in the list and then deleting that id restores the previous video list |
| App.AddIdeaThenDeleteRestores | src/App.tsx:54-72 | adding an idea with an id not yet in the list and then deleting that id restores the previous idea list |
| App.IdeaLifecycle | src/App.tsx:54-72 | from an empty store: add an idea, retitle it (description kept), delete it, and the list is empty again |
| App.Render | src/App.tsx:74-76 | the login screen is produced exactly when unauthenticated; otherwise the views show the state's collections |
| App.InitialStateShowsLogin | src/App.tsx:14-16 | before the mount effect runs, the initial state is unauthenticated and shows the login page |
| App.Step | src/App.tsx:74-96 | while unauthenticated, every event other than the correct code leaves store and state untouched (a refused code does not write the flag); the auth state changes only by the correct code when logged out or by logout when logged in; the mirror stays equal to the store |
| App.RunStaysSynced | src/App.tsx:18-72 | after initialisation, the state equals the store after any sequence of user events |
| App.LockedRunKeepsCollections | src/App.tsx:74-76 | while unauthenticated, no sequence of events without the access code changes anything, stored or in memory |
| LoginPage.Submit | src/components/LoginPage.tsx:12-20 | `onLogin` is called exactly when the code equals "mel8beans"; otherwise the error message is set and the code cleared |
| LoginPage.ChangeCode | src/components/LoginPage.tsx:41-44 | typing replaces the code and clears the error |
| LoginPage.UpperCaseCodeRefused | src/components/LoginPage.tsx:14 | the code comparison is case-sensitive |
| VideoUpload.FileError | src/components/VideoUpload.tsx:33-44 | a file error exists exactly when the file is missing, larger than 500 MiB or of an unlisted type; the type message overwrites the size message |
| VideoUpload.Validate | src/components/VideoUpload.tsx:21-48 | each field has an error exactly when its rule fails (blank trimmed title or description, empty date, file error), and the form is valid exactly when all six requirements hold |
| VideoUpload.SizeBoundary | src/components/VideoUpload.tsx:36-39 | a file of exactly 500·1024·1024 bytes is accepted and one byte more is refused |
| VideoUpload.WrongTypeWinsOverSize | src/components/VideoUpload.tsx:37-43 | an oversized file of the wrong type reports the type message |
| VideoUpload.BlankTitleRefusedBlankDateNot | src/components/VideoUpload.tsx:24-32 | a whitespace-only title is refused while a whitespace-only date passes |
| VideoUpload.Submit | src/components/VideoUpload.tsx:50-75 | `onUpload` is called exactly when the form is valid, with trimmed title and description, the date as typed and the file URL, after which the form is reset; an invalid submit only records the errors |
| VideoUpload.SubmittedTextIsTrimmed | src/components/VideoUpload.tsx:57-64 | the uploaded title and description are non-empty and start and end with a non-whitespace character |
| VideoUpload.ClearError | src/components/VideoUpload.tsx:108-111 | a field edit empties that field's error entry and keeps every other entry |
| VideoUpload.EditTitle | src/components/VideoUpload.tsx:108-111 | editing the title sets it and clears only its error; nothing else changes |
| VideoUpload.EditDescription | src/components/VideoUpload.tsx:133-136 | editing the description sets it and clears only its error; nothing else changes |
| VideoUpload.EditDate | src/components/VideoUpload.tsx:160-163 | editing the date sets it and clears only its error; nothing else changes |
| VideoUpload.ChooseFile | src/components/VideoUpload.tsx:77-82 | choosing files takes the first and clears only the file error; an empty choice changes nothing |
| VideoIdeas.Submit | src/components/VideoIdeas.tsx:18-41 | a blank title or description makes no call and keeps the form; otherwise an editing form calls only update with a trimmed title/description patch, any other form calls only add, and the form ends empty and closed |
| VideoIdeas.Edit | src/components/VideoIdeas.tsx:43-48 | editing loads the idea's title and description, sets its id as the one being edited and opens the modal |
| VideoIdeas.CloseModal | src/components/VideoIdeas.tsx:50-55 | closing yields the empty, closed form |
| VideoIdeas.OpenModal | src/components/VideoIdeas.tsx:65-71 | the add button opens the modal and changes nothing else |
| VideoIdeas.EditThenSubmit | src/components/VideoIdeas.tsx:25-29 | editing an idea with a non-empty id and submitting it calls update on that id |
| VideoIdeas.EditKeepsIdentity | src/components/VideoIdeas.tsx:26-29 | an edit applied through the application keeps every idea's id and creation time and gives the changed idea the trimmed title and description |
| VideoLibrary.Search | src/components/VideoLibrary.tsx:15-19 | the listed videos are exactly the matching ones, with their multiplicities, as a subsequence of the library |
| VideoLibrary.MatchesIff | src/components/VideoLibrary.tsx:15-19 | a video matches exactly when the lower-cased term occurs at some position of the lower-cased title or description, or the term occurs in the date |
| VideoLibrary.EmptyTermListsAll | src/components/VideoLibrary.tsx:15-19 | an empty search term lists the whole library |
| VideoLibrary.MatchIgnoresTextCase | src/components/VideoLibrary.tsx:15-19 | two terms with the same lower-cased form match the same video unless its case-sensitive date tells them apart |
| VideoLibrary.SearchIgnoresTextCase | src/components/VideoLibrary.tsx:15-19 | searching with two terms that differ only in ASCII case lists the same videos in the same order when no date tells the terms apart |
| VideoLibrary.DateMatchIsCaseSensitive | src/components/VideoLibrary.tsx:16-18 | date matching is exact: "jan" does not find "Jan" in a date, while a title match ignores case |
| Text.Trim | src/components/VideoUpload.tsx:24-29 | the trimmed string is the piece of the input left after removing a whitespace-only prefix and suffix, it starts and ends with non-whitespace, and it is empty exactly when the input is all whitespace |
| Text.TrimStart | src/components/VideoIdeas.tsx:21 | the result is the suffix after the leading whitespace |
| Text.TrimEnd | src/components/VideoIdeas.tsx:21 | the result is the prefix before the trailing whitespace |
| Text.Lower | src/components/VideoLibrary.tsx:16-17 | lower-casing keeps the length, leaves no upper-case ASCII letter, keeps every other character and maps each upper-case letter to its lower-case partner |
| Text.LowerIdempotent | src/components/VideoLibrary.tsx:16-17 | lower-casing twice equals lower-casing once |
| Text.ContainsIff | src/components/VideoLibrary.tsx:16-18 | `includes` holds exactly when the term occurs at some position of the string |
| Text.ContainsEmpty | src/components/VideoLibrary.tsx:15-19 | every string includes the empty string |

## Left out

- JSON encoding and decoding of the lists: a slot holds the decoded sequence. A malformed stored value makes `JSON.parse` throw in the source; that path is not modelled. An empty stored string reads as the empty list, the same as an absent key, so both are `None`.
- Clock values: ids and timestamps are parameters. The source derives ids from `Date.now()` and guarantees no uniqueness, so the upload-then-delete property takes freshness as a precondition.
- Browser file and dialog APIs: a file is its size and MIME type, the object URL is a parameter, and the `confirm()` prompts before deleting are not modelled (the handlers are called as if the user confirmed).
- The three-second timer that hides the upload success banner: only the banner being set is modelled.
- Text.Lower: folds only the ASCII letters A–Z, whereas `toLowerCase` applies full Unicode case mapping.
- Text.Trim: uses the ECMAScript whitespace and line-terminator characters listed in `IsWhitespace`, which is what `trim` removes; no other normalisation.
- The title and description `onChange` setters of the idea form and the search box setter: each only replaces one string.
- The library's detail view for a selected video, and the home page's counts: presentation only.
- Rendering, styling, routing, the navigation and hamburger menus, and the animated background (floating point, randomness, animation frames).
- Access from several browser tabs: the source does not coordinate it.
