/**
 * The admin form that publishes a blog post: the tag parser and the submit
 * handler. The form's state (its fields, the `loading` flag and the shown
 * error) lives in a page object; the handler's observable effects (the
 * state setters it calls, the storage and database calls, the navigation)
 * are appended to a log in the order it makes them. The signed-in user,
 * the clock, the backend's answers and the public URL are parameters.
 */
module CreatePost {
  import opened JsBuiltins

  const LOGIN_REQUIRED := "You must be logged in to create a post."
  const IMAGE_BUCKET := "post-images"
  const POSTS_TABLE := "posts"
  const BLOG_PATH := "/blog"

  datatype User = User(id: string)

  datatype File = File(name: string)

  /** What a backend call answered: success, or an error carrying its message. */
  datatype Outcome = Succeeded | Failed(message: string)

  /** The form's fields as they stand when it is submitted. */
  datatype Draft = Draft(title: string, content: string, excerpt: string, category: string,
                         tags: string, imageFile: Option<File>)

  /** The row written to the posts table. */
  datatype PostRow = PostRow(title: string, content: string, excerpt: string, category: string,
                             tags: seq<string>, imageUrl: string, authorId: string)

  /** One observable effect of the submit handler. */
  datatype Effect =
    | ShowError(error: Option<string>)
    | MarkLoading(on: bool)
    | UploadImage(bucket: string, key: string, file: File)
    | ResolvePublicUrl(bucket: string, key: string)
    | InsertRow(table: string, row: PostRow)
    | NavigateTo(path: string)

  predicate IsBackendCall(e: Effect) {
    e.UploadImage? || e.ResolvePublicUrl? || e.InsertRow?
  }

  // ---------------------------------------------------------------------
  // Tags
  // ---------------------------------------------------------------------

  /**
   * The tags field split at every comma with each piece trimmed: one tag
   * more than there are commas, none with a comma or with whitespace at
   * either end, each one the trimmed piece of the input at its position.
   */
  function ParseTags(tags: string): (r: seq<string>)
    ensures |r| == multiset(tags)[','] + 1
    ensures forall i :: 0 <= i < |r| ==> ',' !in r[i] && Trimmed(r[i])
    ensures |r| == |Split(tags)| && forall i :: 0 <= i < |r| ==> r[i] == Trim(Split(tags)[i])
  {
    var pieces := Split(tags);
    SplitCount(tags);
    seq(|pieces|, i requires 0 <= i < |pieces| => Trim(pieces[i]))
  }

  /** Splitting, then joining the untrimmed pieces, reproduces the tags field. */
  lemma ParseTagsPieces(tags: string)
    ensures Join(Split(tags)) == tags
    ensures forall i :: 0 <= i < |ParseTags(tags)| ==> ParseTags(tags)[i] == Trim(Split(tags)[i])
  {
    JoinSplit(tags);
  }

  /** Without commas the whole field is one tag; the empty field is the single empty tag. */
  lemma ParseTagsWithoutComma(tags: string)
    requires ',' !in tags
    ensures ParseTags(tags) == [Trim(tags)]
    ensures tags == "" ==> ParseTags(tags) == [""]
  {
    SplitJoin([tags]);
  }

  lemma SplitExample()
    ensures Split("a, b ,c") == ["a", " b ", "c"]
  {
    var parts := ["a", " b ", "c"];
    assert parts[1..] == [" b ", "c"] && parts[1..][1..] == ["c"];
    assert Join(parts) == "a" + "," + (" b " + "," + "c");
    assert Join(parts) == "a, b ,c";
    SplitJoin(parts);
  }

  /** A string with no whitespace at either end is its own trim. */
  lemma TrimOfTrimmed(t: string)
    requires Trimmed(t)
    ensures Trim(t) == t
  {
    assert t[0..0 + |t|] == t && t[..0] == [] && t[0 + |t|..] == [];
    TrimUnique(t, 0, t);
  }

  /** " b " trims to "b". */
  lemma TrimPadded()
    ensures Trim(" b ") == "b"
  {
    var padded := " b ";
    assert padded[1..1 + 1] == "b" && padded[..1] == " " && padded[2..] == " ";
    assert SliceBetweenWhitespace(padded, 1, "b");
    TrimUnique(padded, 1, "b");
  }

  /** Single letters are their own trim. */
  lemma TrimLetters()
    ensures Trim("a") == "a" && Trim("b") == "b" && Trim("c") == "c"
  {
    TrimOfTrimmed("a");
    TrimOfTrimmed("b");
    TrimOfTrimmed("c");
  }

  /**
   * A three-element sequence is the display of its elements; stated apart so
   * that the extensionality step does not meet the string literals above.
   */
  lemma ThreeElements(tags: seq<string>, x: string, y: string, z: string)
    requires |tags| == 3 && tags[0] == x && tags[1] == y && tags[2] == z
    ensures tags == [x, y, z]
  {
  }

  /** "a, b ,c" gives the tags "a", "b" and "c". */
  lemma ParseTagsExample()
    ensures ParseTags("a, b ,c") == ["a", "b", "c"]
  {
    SplitExample();
    TrimPadded();
    TrimLetters();
    ThreeElements(ParseTags("a, b ,c"), "a", "b", "c");
  }

  // ---------------------------------------------------------------------
  // What the submit handler does
  // ---------------------------------------------------------------------

  /**
   * The storage key of an image: it starts with the user's id and a '/',
   * ends with a '_' and the file name, and between them holds decimal digits
   * that read back as the timestamp.
   */
  function UploadKey(user: User, now: nat, file: File): (key: string)
    ensures |key| > |user.id| + |file.name| + 2
    ensures key[..|user.id|] == user.id && key[|user.id|] == '/'
    ensures key[|key| - |file.name|..] == file.name && key[|key| - |file.name| - 1] == '_'
    ensures var stamp := key[|user.id| + 1..|key| - |file.name| - 1];
            AllDigits(stamp) && DecimalValue(stamp) == now
  {
    var stamp := NumberToString(now);
    DecimalValueOfNumberToString(now);
    var key := user.id + "/" + stamp + "_" + file.name;
    assert key[|user.id| + 1..|key| - |file.name| - 1] == stamp;
    key
  }

  /**
   * The row inserted for a draft: its four text fields, the tags field
   * parsed into one tag per comma-separated piece, the image URL, and the
   * user as author.
   */
  function RowFor(d: Draft, user: User, imageUrl: string): (row: PostRow)
    ensures row.title == d.title && row.content == d.content
    ensures row.excerpt == d.excerpt && row.category == d.category
    ensures |row.tags| == multiset(d.tags)[','] + 1
    ensures |row.tags| == |Split(d.tags)|
    ensures forall i :: 0 <= i < |row.tags| ==> row.tags[i] == Trim(Split(d.tags)[i])
    ensures row.imageUrl == imageUrl && row.authorId == user.id
  {
    PostRow(d.title, d.content, d.excerpt, d.category, ParseTags(d.tags), imageUrl, user.id)
  }

  /**
   * The insert, then the error shown or the navigation, then clearing
   * `loading`: the insert is the only backend call, and the navigation
   * happens exactly when the insert succeeds.
   */
  function InsertEffects(d: Draft, user: User, imageUrl: string, insert: Outcome): (effects: seq<Effect>)
    ensures |effects| == 3
    ensures effects[0] == InsertRow(POSTS_TABLE, RowFor(d, user, imageUrl))
    ensures effects[1].NavigateTo? <==> insert.Succeeded?
    ensures insert.Succeeded? ==> effects[1] == NavigateTo(BLOG_PATH)
    ensures insert.Failed? ==> effects[1] == ShowError(Some(insert.message))
    ensures effects[2] == MarkLoading(false)
  {
    var row := InsertRow(POSTS_TABLE, RowFor(d, user, imageUrl));
    if insert.Failed? then [row, ShowError(Some(insert.message)), MarkLoading(false)]
    else [row, NavigateTo(BLOG_PATH), MarkLoading(false)]
  }

  /**
   * The effects of a submission by a signed-in user once `loading` is set and
   * the old error cleared: the upload of the chosen file, if any (stopping
   * with its message if it fails), then the insert.
   */
  function SignedInEffects(d: Draft, u: User, now: nat, upload: Outcome, publicUrl: string,
                           insert: Outcome): (effects: seq<Effect>)
    ensures |effects| == 3 || |effects| == 5
    ensures effects[|effects| - 1] == MarkLoading(false)
    ensures effects[0].UploadImage? <==> d.imageFile.Some?
    ensures d.imageFile.Some? ==>
              effects[0] == UploadImage(IMAGE_BUCKET, UploadKey(u, now, d.imageFile.value), d.imageFile.value)
    ensures |effects| == 5 <==> d.imageFile.Some? && upload.Succeeded?
    ensures effects[|effects| - 3].InsertRow? <==> !(d.imageFile.Some? && upload.Failed?)
  {
    match d.imageFile
    case None => InsertEffects(d, u, "", insert)
    case Some(file) =>
      var key := UploadKey(u, now, file);
      if upload.Failed? then
        [UploadImage(IMAGE_BUCKET, key, file), ShowError(Some(upload.message)), MarkLoading(false)]
      else
        [UploadImage(IMAGE_BUCKET, key, file), ResolvePublicUrl(IMAGE_BUCKET, key)]
        + InsertEffects(d, u, publicUrl, insert)
  }

  /**
   * The effects of one submission, in order, given who is signed in, the
   * clock, the upload's answer, the public URL storage hands back and the
   * insert's answer.
   */
  function SubmitEffects(d: Draft, user: Option<User>, now: nat, upload: Outcome, publicUrl: string,
                         insert: Outcome): (effects: seq<Effect>)
    ensures user.None? ==> effects == [ShowError(Some(LOGIN_REQUIRED))]
    ensures user.Some? ==> |effects| >= 5 && effects[..2] == [MarkLoading(true), ShowError(None)]
    ensures user.Some? ==> effects[|effects| - 1] == MarkLoading(false)
  {
    if user.None? then [ShowError(Some(LOGIN_REQUIRED))]
    else [MarkLoading(true), ShowError(None)] + SignedInEffects(d, user.value, now, upload, publicUrl, insert)
  }

  /**
   * The error a submission leaves shown: the login message without a user,
   * else the failed upload's message, else the failed insert's message,
   * else none.
   */
  function SubmitError(d: Draft, user: Option<User>, upload: Outcome, insert: Outcome): (error: Option<string>)
    ensures error.None? <==> user.Some? && (d.imageFile.None? || upload.Succeeded?) && insert.Succeeded?
    ensures user.None? ==> error == Some(LOGIN_REQUIRED)
  {
    if user.None? then Some(LOGIN_REQUIRED)
    else if d.imageFile.Some? && upload.Failed? then Some(upload.message)
    else if insert.Failed? then Some(insert.message)
    else None
  }

  /** The `loading` flag after the effects, starting from `init`: the last value set, if any. */
  function FinalLoading(effects: seq<Effect>, init: bool): bool {
    if effects == [] then init
    else if effects[|effects| - 1].MarkLoading? then effects[|effects| - 1].on
    else FinalLoading(effects[..|effects| - 1], init)
  }

  /** The error shown after the effects, starting from `init`: the last one set, if any. */
  function FinalError(effects: seq<Effect>, init: Option<string>): Option<string> {
    if effects == [] then init
    else if effects[|effects| - 1].ShowError? then effects[|effects| - 1].error
    else FinalError(effects[..|effects| - 1], init)
  }

  function CountNavigations(effects: seq<Effect>): nat {
    if effects == [] then 0
    else CountNavigations(effects[..|effects| - 1]) + (if effects[|effects| - 1].NavigateTo? then 1 else 0)
  }

  // ---------------------------------------------------------------------
  // The page object and the handler
  // ---------------------------------------------------------------------

  class CreatePostPage {
    var title: string
    var content: string
    var excerpt: string
    var category: string
    var tags: string
    var imageFile: Option<File>
    var loading: bool
    var error: Option<string>
    /** Every effect the page has made, oldest first. */
    var effects: seq<Effect>

    /** A freshly mounted form: every field empty, no file, not loading, no error. */
    constructor ()
      ensures title == "" && content == "" && excerpt == "" && category == "" && tags == ""
      ensures imageFile == None && !loading && error == None && effects == []
    {
      title, content, excerpt, category, tags := "", "", "", "", "";
      imageFile := None;
      loading, error := false, None;
      effects := [];
    }

    function CurrentDraft(): Draft
      reads this
    {
      Draft(title, content, excerpt, category, tags, imageFile)
    }

    method SetError(e: Option<string>)
      modifies this`error, this`effects
      ensures error == e && effects == old(effects) + [ShowError(e)]
    {
      error := e;
      effects := effects + [ShowError(e)];
    }

    method SetLoading(on: bool)
      modifies this`loading, this`effects
      ensures loading == on && effects == old(effects) + [MarkLoading(on)]
    {
      loading := on;
      effects := effects + [MarkLoading(on)];
    }

    method Record(e: Effect)
      modifies this`effects
      ensures effects == old(effects) + [e]
    {
      effects := effects + [e];
    }

    /**
     * Submits the form. The effects it makes are SubmitEffects of the
     * current draft; `loading` ends false unless nobody is signed in, and the
     * error shown is SubmitError. The form's fields are not touched.
     */
    method HandleSubmit(user: Option<User>, now: nat, upload: Outcome, publicUrl: string, insert: Outcome)
      modifies this`loading, this`error, this`effects
      ensures effects == old(effects) + SubmitEffects(CurrentDraft(), user, now, upload, publicUrl, insert)
      ensures loading == (user.None? && old(loading))
      ensures error == SubmitError(CurrentDraft(), user, upload, insert)
    {
      if user.None? {
        SetError(Some(LOGIN_REQUIRED));
        return;
      }
      ghost var before := effects;
      SetLoading(true);
      SetError(None);
      SubmitSignedIn(user.value, now, upload, publicUrl, insert);
      assert effects == before + ([MarkLoading(true), ShowError(None)]
        + SignedInEffects(CurrentDraft(), user.value, now, upload, publicUrl, insert));
    }

    /** Lines 35-70 of the handler, for a signed-in user after `loading` is set and the error cleared. */
    method SubmitSignedIn(u: User, now: nat, upload: Outcome, publicUrl: string, insert: Outcome)
      modifies this`loading, this`error, this`effects
      ensures effects == old(effects) + SignedInEffects(CurrentDraft(), u, now, upload, publicUrl, insert)
      ensures !loading
      ensures error == if imageFile.Some? && upload.Failed? then Some(upload.message)
                       else if insert.Failed? then Some(insert.message) else old(error)
    {
      var imageUrl := "";
      if imageFile.Some? {
        var file := imageFile.value;
        var fileName := u.id + "/" + NumberToString(now) + "_" + file.name;
        Record(UploadImage(IMAGE_BUCKET, fileName, file));
        if upload.Failed? {
          SetError(Some(upload.message));
          SetLoading(false);
          return;
        }
        Record(ResolvePublicUrl(IMAGE_BUCKET, fileName));
        imageUrl := publicUrl;
      }
      InsertPost(u, imageUrl, insert);
    }

    /** Lines 51-70 of the handler: parse the tags, insert the row, then report or navigate, then clear `loading`. */
    method InsertPost(u: User, imageUrl: string, insert: Outcome)
      modifies this`loading, this`error, this`effects
      ensures effects == old(effects) + InsertEffects(CurrentDraft(), u, imageUrl, insert)
      ensures !loading && error == if insert.Failed? then Some(insert.message) else old(error)
    {
      var tagsArray := ParseTags(tags);
      Record(InsertRow(POSTS_TABLE, PostRow(title, content, excerpt, category, tagsArray, imageUrl, u.id)));
      if insert.Failed? {
        SetError(Some(insert.message));
      } else {
        Record(NavigateTo(BLOG_PATH));
      }
      SetLoading(false);
    }
  }

  lemma FinalErrorAppend(a: seq<Effect>, b: seq<Effect>, init: Option<string>)
    ensures FinalError(a + b, init) == FinalError(b, FinalError(a, init))
    decreases |b|
  {
    if b != [] {
      assert (a + b)[..|a + b| - 1] == a + b[..|b| - 1];
      FinalErrorAppend(a, b[..|b| - 1], init);
    } else {
      assert a + b == a;
    }
  }

  lemma FinalLoadingAppend(a: seq<Effect>, b: seq<Effect>, init: bool)
    ensures FinalLoading(a + b, init) == FinalLoading(b, FinalLoading(a, init))
    decreases |b|
  {
    if b != [] {
      assert (a + b)[..|a + b| - 1] == a + b[..|b| - 1];
      FinalLoadingAppend(a, b[..|b| - 1], init);
    } else {
      assert a + b == a;
    }
  }

  lemma CountNavigationsAppend(a: seq<Effect>, b: seq<Effect>)
    ensures CountNavigations(a + b) == CountNavigations(a) + CountNavigations(b)
    decreases |b|
  {
    if b != [] {
      assert (a + b)[..|a + b| - 1] == a + b[..|b| - 1];
      CountNavigationsAppend(a, b[..|b| - 1]);
    } else {
      assert a + b == a;
    }
  }

  /** The insert step clears `loading`, shows the insert's message on failure, and navigates once on success. */
  lemma InsertEffectsFinal(d: Draft, u: User, imageUrl: string, insert: Outcome, loading: bool,
                           error: Option<string>)
    ensures var e := InsertEffects(d, u, imageUrl, insert);
      !FinalLoading(e, loading) &&
      FinalError(e, error) == (if insert.Failed? then Some(insert.message) else error) &&
      CountNavigations(e) == (if insert.Failed? then 0 else 1)
  {
    var e := InsertEffects(d, u, imageUrl, insert);
    var e2, e1 := e[..2], e[..1];
    assert e[..|e| - 1] == e2 && e2[..|e2| - 1] == e1 && e1[..|e1| - 1] == [];
    assert FinalError(e1, error) == error && FinalError(e, error) == FinalError(e2, error);
    assert CountNavigations(e1) == 0 && CountNavigations(e2) == CountNavigations(e);
  }

  /**
   * After `loading` is set and the error cleared, a signed-in submission
   * clears `loading`, shows the failed upload's or the failed insert's
   * message, and navigates once exactly when both succeed.
   */
  lemma SignedInFinal(d: Draft, u: User, now: nat, upload: Outcome, publicUrl: string, insert: Outcome,
                      loading: bool, error: Option<string>)
    ensures var e := SignedInEffects(d, u, now, upload, publicUrl, insert);
      var uploadFailed := d.imageFile.Some? && upload.Failed?;
      !FinalLoading(e, loading)
      && FinalError(e, error) == (if uploadFailed then Some(upload.message)
                                  else if insert.Failed? then Some(insert.message) else error)
      && CountNavigations(e) == (if uploadFailed || insert.Failed? then 0 else 1)
  {
    match d.imageFile
    case None =>
      InsertEffectsFinal(d, u, "", insert, loading, error);
    case Some(file) =>
      var key := UploadKey(u, now, file);
      var e := SignedInEffects(d, u, now, upload, publicUrl, insert);
      if upload.Failed? {
        var e2, e1 := e[..2], e[..1];
        assert e[..|e| - 1] == e2 && e2[..|e2| - 1] == e1 && e1[..|e1| - 1] == [];
        assert CountNavigations(e1) == 0 && CountNavigations(e2) == 0;
      } else {
        var calls := [UploadImage(IMAGE_BUCKET, key, file), ResolvePublicUrl(IMAGE_BUCKET, key)];
        var tail := InsertEffects(d, u, publicUrl, insert);
        assert calls[..|calls| - 1] == calls[..1] && calls[..1][..0] == [];
        assert FinalError(calls[..1], error) == error && CountNavigations(calls[..1]) == 0;
        assert FinalError(calls, error) == error && CountNavigations(calls) == 0;
        InsertEffectsFinal(d, u, publicUrl, insert, FinalLoading(calls, loading), error);
        FinalErrorAppend(calls, tail, error);
        FinalLoadingAppend(calls, tail, loading);
        CountNavigationsAppend(calls, tail);
      }
  }

  /**
   * The log agrees with the page: replaying the effects of a submission
   * over the old `loading` flag and error gives the `loading` flag and the
   * error HandleSubmit leaves.
   */
  lemma SubmitFinalState(d: Draft, user: Option<User>, now: nat, upload: Outcome, publicUrl: string,
                         insert: Outcome, loading: bool, error: Option<string>)
    ensures var e := SubmitEffects(d, user, now, upload, publicUrl, insert);
      FinalLoading(e, loading) == (user.None? && loading)
      && FinalError(e, error) == SubmitError(d, user, upload, insert)
  {
    if user.Some? {
      var start := [MarkLoading(true), ShowError(None)];
      var rest := SignedInEffects(d, user.value, now, upload, publicUrl, insert);
      assert start[..|start| - 1][..0] == [];
      assert FinalError(start, error) == None;
      SignedInFinal(d, user.value, now, upload, publicUrl, insert, FinalLoading(start, loading), None);
      FinalErrorAppend(start, rest, error);
      FinalLoadingAppend(start, rest, loading);
    }
  }

  // ---------------------------------------------------------------------
  // What a submission promises
  // ---------------------------------------------------------------------

  /**
   * Without a signed-in user the handler only shows the login message: no
   * storage or database call, no navigation, and `loading` is never set.
   */
  lemma LoggedOutSubmission(d: Draft, now: nat, upload: Outcome, publicUrl: string, insert: Outcome,
                            loading: bool, error: Option<string>)
    ensures var e := SubmitEffects(d, None, now, upload, publicUrl, insert);
      (forall k :: 0 <= k < |e| ==> !IsBackendCall(e[k]) && !e[k].NavigateTo? && !e[k].MarkLoading?)
      && FinalError(e, error) == Some(LOGIN_REQUIRED) && FinalLoading(e, loading) == loading
  {
    SubmitFinalState(d, None, now, upload, publicUrl, insert, loading, error);
  }

  /** With a user, `loading` is set and the old error cleared before any backend call. */
  lemma ErrorClearedBeforeBackend(d: Draft, u: User, now: nat, upload: Outcome, publicUrl: string,
                                  insert: Outcome)
    ensures var e := SubmitEffects(d, Some(u), now, upload, publicUrl, insert);
      |e| >= 3 && e[0] == MarkLoading(true) && e[1] == ShowError(None)
      && forall k :: 0 <= k < |e| && IsBackendCall(e[k]) ==> k >= 2
  {
  }

  /**
   * A failed upload shows the upload's message and clears `loading`; no row
   * is inserted and there is no navigation.
   */
  lemma FailedUploadAborts(d: Draft, u: User, now: nat, message: string, publicUrl: string,
                           insert: Outcome, loading: bool, error: Option<string>)
    requires d.imageFile.Some?
    ensures var e := SubmitEffects(d, Some(u), now, Failed(message), publicUrl, insert);
      (forall k :: 0 <= k < |e| ==> !e[k].InsertRow? && !e[k].NavigateTo?)
      && FinalError(e, error) == Some(message) && !FinalLoading(e, loading)
  {
    SubmitFinalState(d, Some(u), now, Failed(message), publicUrl, insert, loading, error);
  }

  /**
   * An image is uploaded exactly when a user is signed in and a file is
   * chosen, to the image bucket, under "<user id>/<timestamp>_<file name>".
   */
  lemma UploadKeyShape(d: Draft, user: Option<User>, now: nat, upload: Outcome, publicUrl: string,
                       insert: Outcome)
    ensures var e := SubmitEffects(d, user, now, upload, publicUrl, insert);
      ((exists k :: 0 <= k < |e| && e[k].UploadImage?) <==> user.Some? && d.imageFile.Some?)
      && forall k :: 0 <= k < |e| && e[k].UploadImage? ==>
           user.Some? && d.imageFile.Some? && e[k].bucket == IMAGE_BUCKET && e[k].file == d.imageFile.value
           && e[k].key == user.value.id + "/" + NumberToString(now) + "_" + d.imageFile.value.name
  {
    var e := SubmitEffects(d, user, now, upload, publicUrl, insert);
    if user.Some? && d.imageFile.Some? {
      assert e[2].UploadImage?;
    }
  }

  /**
   * A row is inserted exactly when a user is signed in and there is no file
   * or its upload succeeded. The row carries the draft's fields, the parsed
   * tags, the user's id as author, and the public URL of the upload or ""
   * without a file.
   */
  lemma InsertedRow(d: Draft, user: Option<User>, now: nat, upload: Outcome, publicUrl: string,
                    insert: Outcome)
    ensures var e := SubmitEffects(d, user, now, upload, publicUrl, insert);
      ((exists k :: 0 <= k < |e| && e[k].InsertRow?) <==>
         user.Some? && (d.imageFile.None? || upload.Succeeded?))
      && forall k :: 0 <= k < |e| && e[k].InsertRow? ==>
           user.Some? && e[k].table == POSTS_TABLE
           && e[k].row.authorId == user.value.id
           && e[k].row.tags == ParseTags(d.tags)
           && e[k].row.imageUrl == (if d.imageFile.None? then "" else publicUrl)
           && e[k].row.title == d.title && e[k].row.content == d.content
           && e[k].row.excerpt == d.excerpt && e[k].row.category == d.category
  {
    var e := SubmitEffects(d, user, now, upload, publicUrl, insert);
    if user.Some? {
      var u := user.value;
      match d.imageFile
      case None =>
        assert e[2] == InsertRow(POSTS_TABLE, RowFor(d, u, ""));
        assert forall k :: 0 <= k < |e| && e[k].InsertRow? ==> k == 2;
      case Some(file) =>
        if upload.Succeeded? {
          assert e[4] == InsertRow(POSTS_TABLE, RowFor(d, u, publicUrl));
          assert forall k :: 0 <= k < |e| && e[k].InsertRow? ==> k == 4;
        }
    }
  }

  /**
   * Once the row is attempted: a failed insert shows its message and does
   * not navigate; a successful one navigates to the blog exactly once and
   * leaves no error shown. Either way `loading` ends false.
   */
  lemma InsertOutcomeReported(d: Draft, u: User, now: nat, upload: Outcome, publicUrl: string,
                              insert: Outcome, loading: bool, error: Option<string>)
    requires d.imageFile.None? || upload.Succeeded?
    ensures var e := SubmitEffects(d, Some(u), now, upload, publicUrl, insert);
      !FinalLoading(e, loading)
      && (insert.Failed? ==> FinalError(e, error) == Some(insert.message) && CountNavigations(e) == 0)
      && (insert.Succeeded? ==>
            FinalError(e, error) == None && CountNavigations(e) == 1
            && forall k :: 0 <= k < |e| && e[k].NavigateTo? ==> e[k].path == BLOG_PATH)
  {
    SubmitFinalState(d, Some(u), now, upload, publicUrl, insert, loading, error);
    var start := [MarkLoading(true), ShowError(None)];
    assert start[..|start| - 1][..0] == [] && CountNavigations(start) == 0;
    SignedInFinal(d, u, now, upload, publicUrl, insert, true, None);
    CountNavigationsAppend(start, SignedInEffects(d, u, now, upload, publicUrl, insert));
  }

  /** A submission uploads at most one image and inserts at most one row. */
  lemma SingleUploadSingleInsert(d: Draft, user: Option<User>, now: nat, upload: Outcome, publicUrl: string,
                                 insert: Outcome)
    ensures var e := SubmitEffects(d, user, now, upload, publicUrl, insert);
      forall i, j :: 0 <= i < |e| && 0 <= j < |e| ==>
        (e[i].UploadImage? && e[j].UploadImage? ==> i == j)
        && (e[i].InsertRow? && e[j].InsertRow? ==> i == j)
  {
    UploadPosition(d, user, now, upload, publicUrl, insert);
    InsertPosition(d, user, now, upload, publicUrl, insert);
  }

  /**
   * The backend is called one step at a time: the upload before its public
   * URL and both before the insert, and a navigation only after the insert.
   */
  lemma BackendCallsInOrder(d: Draft, user: Option<User>, now: nat, upload: Outcome, publicUrl: string,
                            insert: Outcome)
    ensures var e := SubmitEffects(d, user, now, upload, publicUrl, insert);
      forall i, j :: 0 <= i < |e| && 0 <= j < |e| ==>
        (e[i].UploadImage? && e[j].ResolvePublicUrl? ==> i < j)
        && (e[i].ResolvePublicUrl? && e[j].InsertRow? ==> i < j)
        && (e[i].UploadImage? && e[j].InsertRow? ==> i < j)
        && (e[i].InsertRow? && e[j].NavigateTo? ==> i < j)
  {
    UploadPosition(d, user, now, upload, publicUrl, insert);
    InsertPosition(d, user, now, upload, publicUrl, insert);
  }

  /** The upload, if any, is the third effect of a submission; its public URL, if fetched, the fourth. */
  lemma UploadPosition(d: Draft, user: Option<User>, now: nat, upload: Outcome, publicUrl: string,
                       insert: Outcome)
    ensures var e := SubmitEffects(d, user, now, upload, publicUrl, insert);
      (forall k :: 0 <= k < |e| && e[k].UploadImage? ==> user.Some? && d.imageFile.Some? && k == 2)
      && (forall k :: 0 <= k < |e| && e[k].ResolvePublicUrl? ==>
            user.Some? && d.imageFile.Some? && upload.Succeeded? && k == 3)
  {
  }

  /** The insert, if any, comes right after the start or the public URL; the navigation, if any, right after it. */
  lemma InsertPosition(d: Draft, user: Option<User>, now: nat, upload: Outcome, publicUrl: string,
                       insert: Outcome)
    ensures var e := SubmitEffects(d, user, now, upload, publicUrl, insert);
      var at := if d.imageFile.Some? then 4 else 2;
      (forall k :: 0 <= k < |e| && e[k].InsertRow? ==> k == at)
      && (forall k :: 0 <= k < |e| && e[k].NavigateTo? ==> k == at + 1)
  {
  }

  /**
   * A signed-in user "u1" submits title "Hello", content "World", category
   * "Tech", tags "a,b" and no file, and the insert succeeds: one row with
   * tags ["a", "b"], image URL "" and author "u1", then navigation to the blog.
   */
  lemma PublishWithoutImage(now: nat, upload: Outcome, publicUrl: string)
    ensures var d := Draft("Hello", "World", "", "Tech", "a,b", None);
      SubmitEffects(d, Some(User("u1")), now, upload, publicUrl, Succeeded) ==
        [MarkLoading(true), ShowError(None),
         InsertRow(POSTS_TABLE, PostRow("Hello", "World", "", "Tech", ["a", "b"], "", "u1")),
         NavigateTo(BLOG_PATH), MarkLoading(false)]
  {
    ParseTagsPair();
  }

  /** "a,b" gives the tags "a" and "b". */
  lemma ParseTagsPair()
    ensures ParseTags("a,b") == ["a", "b"]
  {
    var parts := ["a", "b"];
    assert parts[1..] == ["b"];
    assert Join(parts) == "a,b";
    SplitJoin(parts);
    TrimLetters();
    var tags := ParseTags("a,b");
    assert |tags| == 2 && tags[0] == "a" && tags[1] == "b";
    assert tags == ["a", "b"];
  }
}
