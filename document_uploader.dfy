/**
 * The document drop zone (components/analyze/document-uploader.tsx): a drop
 * or a file selection hands its first file to a type check and a size check,
 * and only a file that passes both reaches the page's upload handler.
 */
module DocumentUploader {
  import opened Wrappers
  import opened AnalyzePage

  const ValidTypes: seq<string> := ["application/pdf", "image/jpeg", "image/png", "image/jpg"]
  /** 10 MB. */
  const MaxSize: nat := 10 * 1024 * 1024

  const WrongTypeError := "Please upload a PDF, JPG, or PNG file"
  const TooLargeError := "File size must be less than 10MB"

  datatype Validation = Accept | Reject(message: string)

  /** The guard chain of `validateAndUpload`: the type first, then the size. */
  function Validate(f: UploadedFile): (v: Validation)
    ensures v == Accept <==> f.fileType in ValidTypes && f.size <= MaxSize
    ensures f.fileType !in ValidTypes ==> v == Reject(WrongTypeError)
    ensures f.fileType in ValidTypes && f.size > MaxSize ==> v == Reject(TooLargeError)
  {
    if f.fileType !in ValidTypes then Reject(WrongTypeError)
    else if f.size > MaxSize then Reject(TooLargeError)
    else Accept
  }

  /** A file of exactly 10 MB passes the size check; one byte more does not. */
  lemma SizeLimitIsInclusive(name: string, fileType: string)
    requires fileType in ValidTypes
    ensures Validate(UploadedFile(name, fileType, MaxSize)) == Accept
    ensures Validate(UploadedFile(name, fileType, MaxSize + 1)) == Reject(TooLargeError)
  {
  }

  /** A file of the wrong type is reported as such whatever its size. */
  lemma TypeCheckedBeforeSize(f: UploadedFile)
    requires f.fileType !in ValidTypes && f.size > MaxSize
    ensures Validate(f) == Reject(WrongTypeError)
  {
  }

  /** What a drop or a selection leads to: the file handed on, and the error shown. */
  datatype Outcome = Outcome(uploaded: Option<UploadedFile>, error: Option<string>)

  /** Only the first file of the list is looked at; an empty list changes nothing but the cleared error. */
  function OutcomeOf(files: seq<UploadedFile>): (o: Outcome)
    ensures o.uploaded.Some? <==> |files| > 0 && Validate(files[0]) == Accept
    ensures o.uploaded.Some? ==> o.uploaded.value == files[0] && o.error == None
    ensures o.error.Some? <==> |files| > 0 && Validate(files[0]).Reject?
    ensures o.error.Some? ==> o.error == Some(Validate(files[0]).message)
  {
    if |files| == 0 then Outcome(None, None)
    else
      match Validate(files[0])
      case Accept => Outcome(Some(files[0]), None)
      case Reject(m) => Outcome(None, Some(m))
  }

  /** Files after the first never matter. */
  lemma LaterFilesIgnored(f: UploadedFile, rest: seq<UploadedFile>)
    ensures OutcomeOf([f] + rest) == OutcomeOf([f])
  {
    assert ([f] + rest)[0] == f;
  }

  class DocumentUploader {
    var isDragging: bool
    var error: Option<string>
    /** The files handed to `onUpload`, oldest first. */
    var uploads: seq<UploadedFile>

    constructor()
      ensures !isDragging && error == None && uploads == []
    {
      isDragging := false;
      error := None;
      uploads := [];
    }

    method HandleDragOver()
      modifies this`isDragging
      ensures isDragging
    {
      isDragging := true;
    }

    method HandleDragLeave()
      modifies this`isDragging
      ensures !isDragging
    {
      isDragging := false;
    }

    /** `validateAndUpload`: hand the file on, or show why it was refused. */
    method ValidateAndUpload(f: UploadedFile)
      modifies this`error, this`uploads
      ensures Validate(f) == Accept ==> uploads == old(uploads) + [f] && error == old(error)
      ensures Validate(f).Reject? ==> uploads == old(uploads) && error == Some(Validate(f).message)
    {
      match Validate(f) {
        case Accept => uploads := uploads + [f];
        case Reject(m) => error := Some(m);
      }
    }

    /** A drop: dragging ends, the error is cleared, and the first dropped file is checked. */
    method HandleDrop(files: seq<UploadedFile>)
      modifies this`isDragging, this`error, this`uploads
      ensures !isDragging
      ensures error == OutcomeOf(files).error
      ensures uploads == old(uploads) + (if OutcomeOf(files).uploaded.Some? then [OutcomeOf(files).uploaded.value] else [])
    {
      isDragging := false;
      error := None;
      if |files| > 0 {
        ValidateAndUpload(files[0]);
      }
    }

    /** A selection in the file input; `None` is a `files` list that is `null`. */
    method HandleFileSelect(files: Option<seq<UploadedFile>>)
      modifies this`error, this`uploads
      ensures error == OutcomeOf(files.GetOr([])).error
      ensures uploads == old(uploads) + (if OutcomeOf(files.GetOr([])).uploaded.Some? then [OutcomeOf(files.GetOr([])).uploaded.value] else [])
    {
      error := None;
      if files.Some? && |files.value| > 0 {
        ValidateAndUpload(files.value[0]);
      }
    }
  }
}
