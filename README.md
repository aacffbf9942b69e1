# Blog-post form and CV editor, modelled in Dafny

This project models the logic of two browser forms.

- **The CV builder's first step** (`CvEditor`, in `cv_editor.dfy`). A CV record holds five personal details, a summary and five ordered sections: experience, education, skills, portfolio and references. Each item in a section carries an `id` and the fields of its section's shape. Five handlers rebuild the record:
  - set a personal detail;
  - set the summary;
  - set one field of the item at an index;
  - append a blank item whose `id` is the rendered timestamp;
  - remove the item at an index.

  The handlers are pure functions on the record value. Two methods model how the update and remove handlers do their list work: each copies the section into a fresh array, then writes one field in place, or splices one element out in place by shifting the rest left.
- **The admin "create post" form** (`CreatePost`, in `create_post.dfy`). The tag parser splits the tags field at every comma and trims each piece. The submit handler is a method on a page object. That object holds the form's fields, the `loading` flag, the shown error and a log of every effect the handler makes, in order:
  - calls to the `setLoading` and `setError` state setters;
  - the storage upload and the public-URL lookup;
  - the row insert;
  - the navigation.

  The signed-in user, `Date.now()`, the answers of the upload and the insert, and the public URL are all parameters. A spec function `SubmitEffects` gives the effects of one submission. `HandleSubmit` is proved to produce exactly those effects. Lemmas about `SubmitEffects` state the abort and ordering rules.
- **The JavaScript built-ins these rely on** (`JsBuiltins`, in `js_builtins.dfy`):
  - `Number.prototype.toString` on non-negative integers, with a decimal reading that inverts it;
  - `String.prototype.split(",")`, with `join(",")` as its inverse;
  - `String.prototype.trim`, with an explicit whitespace set;
  - `Array.prototype.splice(start, 1)`, including its rules for negative and out-of-range starts.

Facts about the code that the model keeps:
- The CV record has five sections: experience, education, skills, portfolio and references.
- Removing an item uses `splice`, which is defined for every integer index, so `RemoveItem` takes any integer. For a section of n items:
  - an index at or past n removes nothing;
  - an index in [-n, 0) counts from the end and removes item n + index;
  - an index below -n clamps to 0 and removes the first item.
- Ids come from `Date.now()`. Two items added in the same millisecond get the same id (`SameMillisecondIdsCollide`). Ids are not unique among siblings.
- The post form has five text fields (title, content, excerpt, category and tags) and one optional image file.

## Model

| member | source | states |
|---|---|---|
| `JsBuiltins.NumberToString` | src/pages/resume-builder/Step1_CreateCV.tsx:33-37 | the rendered timestamp is a non-empty string of decimal digits with no leading zero; it starts with '0' exactly when the timestamp is 0 |
| `JsBuiltins.DecimalValueOfNumberToString` | src/pages/resume-builder/Step1_CreateCV.tsx:33 | reading the rendered digits back as a decimal number gives the timestamp |
| `JsBuiltins.NumberToStringInjective` | src/pages/resume-builder/Step1_CreateCV.tsx:33-37 | two timestamps render to the same id string exactly when they are equal |
| `JsBuiltins.Split` | src/pages/admin/CreatePostPage.tsx:51 | splitting on ',' gives at least one piece, and no piece contains a comma |
| `JsBuiltins.SplitCount` | src/pages/admin/CreatePostPage.tsx:51 | there is exactly one piece more than the input has commas, so "" splits into one empty piece |
| `JsBuiltins.JoinSplit` | src/pages/admin/CreatePostPage.tsx:51 | the split pieces, joined with ',' in order, reproduce the input exactly |
| `JsBuiltins.SplitJoin` | src/pages/admin/CreatePostPage.tsx:51 | splitting a ','-join of comma-free pieces gives back those pieces in order |
| `JsBuiltins.Trim` | src/pages/admin/CreatePostPage.tsx:51 | the trimmed string has no whitespace at either end; it is the slice of the input just after the leading whitespace, with only whitespace after it |
| `JsBuiltins.TrimUnique` | src/pages/admin/CreatePostPage.tsx:51 | any slice with no whitespace at its ends and only whitespace around it is the trim |
| `JsBuiltins.TrimIdempotent` | src/pages/admin/CreatePostPage.tsx:51 | trimming twice equals trimming once |
| `JsBuiltins.SpliceStart` | src/pages/resume-builder/Step1_CreateCV.tsx:45 | splice starts at an in-range index as given; a negative index counts from the end; a start below -n clamps to 0 and one above n to n |
| `JsBuiltins.ShiftLeftFrom` | src/pages/resume-builder/Step1_CreateCV.tsx:45 | splice's in-place work on an array: after shifting left from k, the first n-1 slots hold the old array without its element at k, the rest in order |
| `JsBuiltins.SpliceOne` | src/pages/resume-builder/Step1_CreateCV.tsx:45 | splice(i, 1) with 0 <= i < n leaves n-1 elements: those before i in place, those after i shifted left one, and the multiset less exactly the removed element; a start in [-n, 0) removes element n+start; one below -n removes the first; one at or past the end changes nothing |
| `CvEditor.WithPersonal` | src/pages/resume-builder/Step1_CreateCV.tsx:15 | the named personal field takes the new value and the other four keep theirs |
| `CvEditor.PersonalInfoChange` | src/pages/resume-builder/Step1_CreateCV.tsx:14-16 | only the named personal field changes; the summary and all five sections are unchanged |
| `CvEditor.SummaryChange` | src/pages/resume-builder/Step1_CreateCV.tsx:18-20 | only the summary changes; the personal details and all five sections are unchanged |
| `CvEditor.SetField` | src/pages/resume-builder/Step1_CreateCV.tsx:26 | writing a field of the item's shape sets that field, and keeps the shape, the id and every other field |
| `CvEditor.WithSection` | src/pages/resume-builder/Step1_CreateCV.tsx:27 | replacing one section leaves the other four, the personal details and the summary as they were |
| `CvEditor.UpdatedItems` | src/pages/resume-builder/Step1_CreateCV.tsx:24-26 | the list keeps its length; only the named field of the item at the index changes, and that item keeps its id and shape; every other item is unchanged |
| `CvEditor.DynamicChange` | src/pages/resume-builder/Step1_CreateCV.tsx:22-28 | editing an item keeps the section's length; the item at the index gets the new value in the named field and keeps its id and other fields; every other item, every other section, the details and the summary are unchanged; well-formedness is kept |
| `CvEditor.WriteIntoCopy` | src/pages/resume-builder/Step1_CreateCV.tsx:24-26 | copying the section into a fresh array and writing the field into the copy yields the updated list |
| `CvEditor.DefaultItem` | src/pages/resume-builder/Step1_CreateCV.tsx:31-38 | the new item has the section's shape, every editable field is "", and the id is the rendered timestamp (never empty) |
| `CvEditor.AddItem` | src/pages/resume-builder/Step1_CreateCV.tsx:30-41 | the section grows by exactly one; the old items remain as its prefix; the last item is the blank item of that section; the other sections, the details and the summary are unchanged |
| `CvEditor.RemoveItem` | src/pages/resume-builder/Step1_CreateCV.tsx:43-47 | the section becomes splice(index, 1) of itself, so for 0 <= index < n it is s[..index] + s[index+1..]; the other sections, the details and the summary are unchanged; well-formedness is kept |
| `CvEditor.RemoveFromCopy` | src/pages/resume-builder/Step1_CreateCV.tsx:44-45 | copying into a fresh array and splicing in place by shifting left yields exactly splice(index, 1) of the section |
| `CvEditor.SpliceKeepsKind` | src/pages/resume-builder/Step1_CreateCV.tsx:45 | removing an item from a section whose items all have the section's shape leaves only items of that shape |
| `CvEditor.RemoveUndoesAdd` | src/pages/resume-builder/Step1_CreateCV.tsx:30-47 | removing the item just appended restores the record |
| `CvEditor.DynamicChangeUndo` | src/pages/resume-builder/Step1_CreateCV.tsx:22-28 | writing a field's previous value back restores the record |
| `CvEditor.SameMillisecondIdsCollide` | src/pages/resume-builder/Step1_CreateCV.tsx:33-40 | two appends with the same timestamp add two items with the same id |
| `CvEditor.DistinctTimestampsDistinctIds` | src/pages/resume-builder/Step1_CreateCV.tsx:33-37 | appends at different timestamps produce different ids |
| `CreatePost.ParseTags` | src/pages/admin/CreatePostPage.tsx:51 | there is one tag more than the field has commas; each tag is the trimmed piece at its position; no tag has a comma or whitespace at either end |
| `CreatePost.ParseTagsPieces` | src/pages/admin/CreatePostPage.tsx:51 | the untrimmed pieces joined with ',' reproduce the field, and tag i is the trim of piece i |
| `CreatePost.ParseTagsWithoutComma` | src/pages/admin/CreatePostPage.tsx:51 | a field without commas gives exactly one tag, its trim; the empty field gives [""] |
| `CreatePost.ParseTagsExample` | src/pages/admin/CreatePostPage.tsx:51 | "a, b ,c" parses to ["a", "b", "c"] |
| `CreatePost.ParseTagsPair` | src/pages/admin/CreatePostPage.tsx:51 | "a,b" parses to ["a", "b"] |
| `CreatePost.TrimPadded` | src/pages/admin/CreatePostPage.tsx:51 | " b " trims to "b" |
| `CreatePost.UploadKey` | src/pages/admin/CreatePostPage.tsx:37 | the storage key starts with the user's id and '/', ends with '_' and the file name, and in between holds decimal digits that read back as the timestamp |
| `CreatePost.RowFor` | src/pages/admin/CreatePostPage.tsx:51-63 | the inserted row holds the draft's title, content, excerpt and category; one tag per comma-separated piece of the tags field, each the trimmed piece; the given image URL; and the user's id as author |
| `CreatePost.InsertEffects` | src/pages/admin/CreatePostPage.tsx:53-70 | three effects: the insert of the row into "posts", then the insert's message if it failed or navigation to "/blog" if it succeeded, then clearing `loading` |
| `CreatePost.SignedInEffects` | src/pages/admin/CreatePostPage.tsx:35-70 | three or five effects ending with clearing `loading`; the first is the upload to "post-images" under the line-37 key exactly when there is a file; there are five exactly when a file uploads successfully; the third from last is the insert unless the upload failed |
| `CreatePost.SubmitEffects` | src/pages/admin/CreatePostPage.tsx:26-71 | without a user, only the login message is shown; with one, at least five effects, starting with setting `loading` and clearing the error and ending with clearing `loading` |
| `CreatePost.SubmitError` | src/pages/admin/CreatePostPage.tsx:28-69 | no error is left shown exactly when there is a user, the upload (if any) succeeded and the insert succeeded; without a user the login message is left |
| `CreatePost.CreatePostPage.constructor` | src/pages/admin/CreatePostPage.tsx:11-18 | the form mounts with empty fields, no file, loading false, no error and no effects |
| `CreatePost.CreatePostPage.SetError` | src/pages/admin/CreatePostPage.tsx:18 | setting the error updates it and logs the call |
| `CreatePost.CreatePostPage.SetLoading` | src/pages/admin/CreatePostPage.tsx:17 | setting loading updates it and logs the call |
| `CreatePost.CreatePostPage.HandleSubmit` | src/pages/admin/CreatePostPage.tsx:26-71 | the handler appends exactly SubmitEffects of the current draft to the log. `loading` ends false, except that without a user it keeps its old value. The error shown is the login message, else the upload's message, else the insert's message, else none. The form's fields are untouched |
| `CreatePost.CreatePostPage.SubmitSignedIn` | src/pages/admin/CreatePostPage.tsx:35-70 | for a signed-in user, logs the upload and the URL lookup if there is a file, stopping with the upload's message if it fails; otherwise logs the insert; `loading` ends false |
| `CreatePost.CreatePostPage.InsertPost` | src/pages/admin/CreatePostPage.tsx:51-70 | logs the insert of the row with the parsed tags, then the insert's error or the navigation, then clears loading |
| `CreatePost.InsertEffectsFinal` | src/pages/admin/CreatePostPage.tsx:65-70 | replaying the insert step ends with `loading` false; it shows the insert's message on failure and keeps the old error on success; it navigates once on success and never on failure |
| `CreatePost.SignedInFinal` | src/pages/admin/CreatePostPage.tsx:35-70 | replaying a signed-in submission after its start ends with `loading` false. It shows the failed upload's message, or else the failed insert's message. It navigates once exactly when the upload, if any, and the insert both succeed |
| `CreatePost.SubmitFinalState` | src/pages/admin/CreatePostPage.tsx:26-70 | the log agrees with the page: replaying a submission's effects over the old flag and error gives exactly the `loading` and error that HandleSubmit leaves |
| `CreatePost.LoggedOutSubmission` | src/pages/admin/CreatePostPage.tsx:28-31 | with no user: no storage or database call, no navigation, loading never set, the login message shown |
| `CreatePost.ErrorClearedBeforeBackend` | src/pages/admin/CreatePostPage.tsx:32-33 | with a user: loading is set to true, then the error is cleared, before any backend call |
| `CreatePost.FailedUploadAborts` | src/pages/admin/CreatePostPage.tsx:36-46 | a failed upload shows its message and ends with loading false; no insert and no navigation |
| `CreatePost.UploadKeyShape` | src/pages/admin/CreatePostPage.tsx:36-40 | an upload happens exactly when there is a user and a file; it goes to "post-images" under user.id + "/" + timestamp + "_" + file name |
| `CreatePost.InsertedRow` | src/pages/admin/CreatePostPage.tsx:35-63 | a row is inserted exactly when there is a user and either no file or a successful upload; it holds the draft's fields, the parsed tags, author_id = user id, and image_url = "" without a file or the public URL with one |
| `CreatePost.InsertOutcomeReported` | src/pages/admin/CreatePostPage.tsx:65-70 | a failed insert shows its message and does not navigate; a successful one navigates to "/blog" exactly once with no error shown; loading ends false either way |
| `CreatePost.UploadPosition` | src/pages/admin/CreatePostPage.tsx:32-47 | an upload only happens with a user and a file, as the third effect; the URL lookup only happens after a successful upload, as the fourth |
| `CreatePost.InsertPosition` | src/pages/admin/CreatePostPage.tsx:32-68 | the insert can only be the third effect (no file) or the fifth (with a file), and a navigation can only come right after it |
| `CreatePost.SingleUploadSingleInsert` | src/pages/admin/CreatePostPage.tsx:36-63 | a submission uploads at most one image and inserts at most one row |
| `CreatePost.BackendCallsInOrder` | src/pages/admin/CreatePostPage.tsx:36-68 | the upload precedes the URL lookup, which precedes the insert; navigation comes only after the insert |
| `CreatePost.PublishWithoutImage` | src/pages/admin/CreatePostPage.tsx:26-71 | user "u1" submits "Hello"/"World"/"Tech" with tags "a,b", no file, and a successful insert: the result is exactly one insert with tags ["a","b"], image_url "" and author "u1", then navigation to "/blog" |

## Left out

- Rendering, animation, icons and styling (the JSX of both components) are not modelled. Neither is the `nextStep` button.
- The form's field setters are left out: `setTitle`, `setContent`, `setExcerpt`, `setCategory`, `setTags` and `handleFileChange`. They only bind DOM input to state, and `handleFileChange` depends on the DOM `FileList`.
- `e.preventDefault()` is not logged as an effect.
- The Supabase storage, public-URL and insert calls are foreign network I/O. The model logs each call and takes its answer (success or a message) and the public URL as parameters.
- `CreatePost.CreatePostPage.HandleSubmit`: an upload or insert call that rejects (throws) or never settles is not modelled; each call is taken to answer with success or an error message. The handler has no try/catch/finally around its two awaits (CreatePostPage.tsx:38-40, 53-63), so on that path the source leaves `loading` true, shows no error, and keeps the submit button disabled. The promise that `loading` ends false (in `HandleSubmit`, `SubmitSignedIn`, `SignedInFinal` and `InsertOutcomeReported`) holds only for calls that answer.
- `useAuth`, `useNavigate` and `Date.now()` are parameters. Navigation is a logged effect.
- React's asynchronous, batched `setState` is not modelled. Each setter takes effect at once and is logged in call order. The update and remove handlers read the `cvData` snapshot, not `prev`; in this sequential model the two coincide.
- Concurrency is not modelled. This includes a second submit while one is in flight. The disabled button is only advisory.
- Items are values. The model does not capture the object aliasing that comes from the shallow array copy followed by an in-place field write.
- `CvEditor.DynamicChange` requires an in-range index and a field name from the item's shape. The form only ever calls it with the index from mapping over the current section (Step1_CreateCV.tsx:70-80, 88-97, 105-108, 116-121, 129-135) and the names of that section's inputs. Outside these conditions the source would throw on `undefined`, or add a stray property.
- `JsBuiltins.NumberToString`: above 10^21, JavaScript renders numbers in exponent form. Timestamps are far below that, so only the decimal form is modelled.
- `JsBuiltins.IsWhitespace` lists ECMAScript's WhiteSpace and LineTerminator code points explicitly. It does not consult a Unicode database.
- The `./types` module (the `CvData` type) is not part of this model. The record's shape comes from the default items and the inputs of the form.
