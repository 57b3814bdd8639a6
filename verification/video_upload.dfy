/**
 * The upload form: field validation, the submit transition and the per-field
 * error clearing. A chosen file is reduced to its size and MIME type; the object
 * URL the browser creates for it is a parameter of `Submit`.
 */
module VideoUpload {
  import opened Wrappers
  import opened Text
  import opened Types

  /** The metadata of a chosen file that the form inspects. */
  datatype VideoFile = VideoFile(size: nat, mimeType: string)

  /** The keys of the error object. */
  datatype Field = TitleField | DescriptionField | DateField | VideoField

  /** The form's state; `errors` maps a field to its message, and "" shows nothing. */
  datatype UploadForm = UploadForm(
    title: string,
    description: string,
    date: string,
    file: Option<VideoFile>,
    errors: map<Field, string>,
    success: bool)

  const InitialForm := UploadForm("", "", "", None, map[], false)

  /** 500 MiB, the largest accepted file. */
  const MaxSize: nat := 500 * 1024 * 1024

  const ValidTypes: seq<string> := ["video/mp4", "video/webm", "video/ogg", "video/quicktime"]

  const TitleRequired: string := "Title is required"
  const DescriptionRequired: string := "Description is required"
  const DateRequired: string := "Date is required"
  const VideoRequired: string := "Video file is required"
  const VideoTooLarge: string := "Video file size must be less than 500MB"
  const VideoWrongType: string := "Please upload a valid video file (MP4, WebM, OGG, MOV)"

  /** The acceptance rule, stated field by field: every requirement the form enforces. */
  predicate FormValid(f: UploadForm) {
    && !IsBlank(f.title)
    && !IsBlank(f.description)
    && f.date != ""
    && f.file.Some?
    && f.file.value.size <= MaxSize
    && f.file.value.mimeType in ValidTypes
  }

  /**
   * The file's error, if any. A missing file is reported as such; otherwise the size
   * check runs first and the type check second, so a wrong type overwrites a size error.
   */
  function FileError(file: Option<VideoFile>): (r: Option<string>)
    ensures r.None? <==> file.Some? && file.value.size <= MaxSize && file.value.mimeType in ValidTypes
    ensures file.None? ==> r == Some(VideoRequired)
    ensures file.Some? && file.value.mimeType !in ValidTypes ==> r == Some(VideoWrongType)
    ensures file.Some? && file.value.mimeType in ValidTypes && file.value.size > MaxSize ==>
              r == Some(VideoTooLarge)
  {
    match file
    case None => Some(VideoRequired)
    case Some(f) =>
      var sizeError := if f.size > MaxSize then Some(VideoTooLarge) else None;
      if f.mimeType !in ValidTypes then Some(VideoWrongType) else sizeError
  }

  /**
   * The errors `validateForm` collects: a field has an entry exactly when its
   * requirement fails, and the form is valid exactly when there is none.
   */
  function Validate(f: UploadForm): (r: map<Field, string>)
    ensures TitleField in r <==> IsBlank(f.title)
    ensures DescriptionField in r <==> IsBlank(f.description)
    ensures DateField in r <==> f.date == ""
    ensures TitleField in r ==> r[TitleField] == TitleRequired
    ensures DescriptionField in r ==> r[DescriptionField] == DescriptionRequired
    ensures DateField in r ==> r[DateField] == DateRequired
    ensures VideoField in r <==> FileError(f.file).Some?
    ensures VideoField in r ==> r[VideoField] == FileError(f.file).value
    ensures r == map[] <==> FormValid(f)
  {
    var e0: map<Field, string> := map[];
    var e1 := if Trim(f.title) == "" then e0[TitleField := TitleRequired] else e0;
    var e2 := if Trim(f.description) == "" then e1[DescriptionField := DescriptionRequired] else e1;
    var e3 := if f.date == "" then e2[DateField := DateRequired] else e2;
    var r := match FileError(f.file)
      case None => e3
      case Some(message) => e3[VideoField := message];
    assert r == map[] <== FormValid(f);
    assert r == map[] ==> FormValid(f) by {
      if r == map[] {
        assert TitleField !in r && DescriptionField !in r && DateField !in r && VideoField !in r;
      }
    }
    r
  }

  /** A file of exactly the limit is accepted; one byte more is refused with the size message. */
  lemma SizeBoundary(mimeType: string)
    requires mimeType in ValidTypes
    ensures FileError(Some(VideoFile(MaxSize, mimeType))).None?
    ensures FileError(Some(VideoFile(MaxSize + 1, mimeType))) == Some(VideoTooLarge)
  {
  }

  /** An oversized file of the wrong type is reported with the type message, which overwrites the size message. */
  lemma WrongTypeWinsOverSize(size: nat, mimeType: string)
    requires size > MaxSize && mimeType !in ValidTypes
    ensures FileError(Some(VideoFile(size, mimeType))) == Some(VideoWrongType)
  {
  }

  /** The title and description are trimmed before the check, the date is not. */
  lemma BlankTitleRefusedBlankDateNot()
    ensures TitleField in Validate(UploadForm(" \t", "d", " ", Some(VideoFile(1, "video/mp4")), map[], false))
    ensures DateField !in Validate(UploadForm(" \t", "d", " ", Some(VideoFile(1, "video/mp4")), map[], false))
  {
  }

  /** The outcome of a submit: the next form state and the `onUpload` call made, if any. */
  datatype UploadOutcome = UploadOutcome(form: UploadForm, call: Option<VideoData>)

  /**
   * An invalid submit shows the errors and calls nothing; a valid one calls `onUpload`
   * once with the trimmed title and description, the date as typed and the file's URL,
   * then empties every field and error and shows the success banner.
   */
  function Submit(f: UploadForm, videoUrl: string): (r: UploadOutcome)
    ensures r.call.Some? <==> FormValid(f)
    ensures !FormValid(f) ==>
              && r.form.errors == Validate(f) && r.form.errors != map[]
              && r.form.title == f.title && r.form.description == f.description
              && r.form.date == f.date && r.form.file == f.file && r.form.success == f.success
    ensures FormValid(f) ==>
              && r.call.value == VideoData(Trim(f.title), Trim(f.description), f.date, videoUrl)
              && r.form == InitialForm.(success := true)
  {
    var errors := Validate(f);
    if errors != map[] then
      UploadOutcome(f.(errors := errors), None)
    else
      match f.file
      case None => UploadOutcome(f.(errors := errors), None)
      case Some(_) =>
        UploadOutcome(
          UploadForm("", "", "", None, map[], true),
          Some(VideoData(Trim(f.title), Trim(f.description), f.date, videoUrl)))
  }

  /** The submitted title and description carry no surrounding whitespace and are never empty. */
  lemma SubmittedTextIsTrimmed(f: UploadForm, videoUrl: string)
    requires FormValid(f)
    ensures var d := Submit(f, videoUrl).call.value;
      && d.title != "" && !IsWhitespace(d.title[0]) && !IsWhitespace(d.title[|d.title| - 1])
      && d.description != "" && !IsWhitespace(d.description[0])
      && !IsWhitespace(d.description[|d.description| - 1])
  {
  }

  /** An error is shown for a field when its entry is present and non-empty. */
  predicate Shows(errors: map<Field, string>, g: Field) {
    g in errors && errors[g] != ""
  }

  /** `{ ...errors, [field]: '' }`: that field's entry becomes "" and every other entry is kept. */
  function ClearError(errors: map<Field, string>, field: Field): (r: map<Field, string>)
    ensures !Shows(r, field) && field in r
    ensures forall g :: g != field ==> (g in r <==> g in errors)
    ensures forall g :: g != field && g in errors ==> r[g] == errors[g]
  {
    errors[field := ""]
  }

  function EditTitle(f: UploadForm, title: string): (r: UploadForm)
    ensures r.title == title && r.errors == ClearError(f.errors, TitleField)
    ensures r.(title := f.title, errors := f.errors) == f
  {
    f.(title := title, errors := ClearError(f.errors, TitleField))
  }

  function EditDescription(f: UploadForm, description: string): (r: UploadForm)
    ensures r.description == description && r.errors == ClearError(f.errors, DescriptionField)
    ensures r.(description := f.description, errors := f.errors) == f
  {
    f.(description := description, errors := ClearError(f.errors, DescriptionField))
  }

  function EditDate(f: UploadForm, date: string): (r: UploadForm)
    ensures r.date == date && r.errors == ClearError(f.errors, DateField)
    ensures r.(date := f.date, errors := f.errors) == f
  {
    f.(date := date, errors := ClearError(f.errors, DateField))
  }

  /** Choosing files takes the first one and clears the file error; an empty choice changes nothing. */
  function ChooseFile(f: UploadForm, files: seq<VideoFile>): (r: UploadForm)
    ensures files == [] ==> r == f
    ensures files != [] ==> r.file == Some(files[0]) && r.errors == ClearError(f.errors, VideoField)
    ensures r.(file := f.file, errors := f.errors) == f
  {
    if files != [] then f.(file := Some(files[0]), errors := ClearError(f.errors, VideoField)) else f
  }
}
