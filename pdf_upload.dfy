/** The plain PDF upload component: PDF files and a 10 MB default limit; an
    entry carries no data of its own. */
module Pdfs {
  import opened Options
  import opened Strings
  import opened Uploads

  const DefaultMaxFileSize: nat := 10

  const TypeError: string := "Please select a PDF file"

  function SizeError(maxFileSize: nat): string
  {
    "File size exceeds " + NatToString(maxFileSize) + "MB limit"
  }

  /** `validateFile`: the type test first, then the size limit. */
  function ValidateFile(file: FileInfo, maxFileSize: nat): (r: Option<string>)
    ensures !LooksLikePdf(file) ==> r == Some(TypeError)
    ensures LooksLikePdf(file) && file.size > maxFileSize * BytesPerMegabyte ==> r == Some(SizeError(maxFileSize))
    ensures r == None <==> LooksLikePdf(file) && file.size <= maxFileSize * BytesPerMegabyte
  {
    ValidatePdf(file, maxFileSize, TypeError, SizeError(maxFileSize))
  }

  function NewFile(file: FileInfo, id: Id): (e: Entry<()>)
    ensures e.file == file && e.id == id && e.status == Uploading
  {
    Entry(file, id, Uploading, ())
  }

  function KeepUnit(u: ()): ()
  {
    u
  }

  /** The state of one PDF upload component. */
  class PdfUpload {
    const maxFileSize: nat
    var uploadedFiles: seq<Entry<()>>
    var error: string

    ghost predicate Valid()
      reads this
    {
      NoErrorStatus(uploadedFiles)
    }

    constructor (maxFileSize: nat := DefaultMaxFileSize)
      ensures this.maxFileSize == maxFileSize
      ensures uploadedFiles == [] && error == ""
      ensures Valid()
    {
      this.maxFileSize := maxFileSize;
      uploadedFiles := [];
      error := "";
    }

    /** `processFile`. */
    method ProcessFile(file: FileInfo, id: Id) returns (timer: Option<Timer>)
      requires Valid()
      modifies this
      ensures Valid()
      ensures match ValidateFile(file, maxFileSize)
        case Some(message) =>
          uploadedFiles == old(uploadedFiles) && error == message && timer == None
        case None =>
          uploadedFiles == old(uploadedFiles) + [NewFile(file, id)] && error == "" &&
          timer == Some(Timer(id, file))
    {
      var validationError := ValidateFile(file, maxFileSize);
      if validationError.Some? {
        error := validationError.value;
        return None;
      }
      uploadedFiles := uploadedFiles + [NewFile(file, id)];
      error := "";
      timer := Some(Timer(id, file));
    }

    /** The `setTimeout` callback of `processFile`: marks the entries with the
        timer's id a success and hands the file to `onFileUpload`. */
    method CompleteFile(timer: Timer) returns (delivered: FileInfo)
      requires Valid()
      modifies this
      ensures Valid()
      ensures uploadedFiles == MarkSuccess(old(uploadedFiles), timer.id, KeepUnit)
      ensures error == old(error) && delivered == timer.file
    {
      MarkSuccessKeepsShape(uploadedFiles, timer.id, KeepUnit);
      uploadedFiles := MarkSuccess(uploadedFiles, timer.id, KeepUnit);
      delivered := timer.file;
    }

    /** `removeFile`. */
    method RemoveFile(id: Id)
      requires Valid()
      modifies this
      ensures Valid()
      ensures uploadedFiles == RemoveById(old(uploadedFiles), id)
      ensures error == old(error)
    {
      RemoveByIdSpec(uploadedFiles, id);
      uploadedFiles := RemoveById(uploadedFiles, id);
    }
  }
}
