/** The contract upload component: PDF files, a 10 MB default limit and a
    cleaned-up contract name per entry. */
module Contracts {
  import opened Options
  import opened Strings
  import opened Uploads
  import FileNames

  const DefaultMaxFileSize: nat := 10

  const TypeError: string := "Please select a PDF contract file"

  function SizeError(maxFileSize: nat): string
  {
    "Contract file size exceeds " + NatToString(maxFileSize) + "MB limit"
  }

  /** `validateContract`: the type test first, then the size limit; `None` is
      the source's `null`. */
  function ValidateContract(file: FileInfo, maxFileSize: nat): (r: Option<string>)
    ensures !LooksLikePdf(file) ==> r == Some(TypeError)
    ensures LooksLikePdf(file) && file.size > maxFileSize * BytesPerMegabyte ==> r == Some(SizeError(maxFileSize))
    ensures r == None <==> LooksLikePdf(file) && file.size <= maxFileSize * BytesPerMegabyte
  {
    ValidatePdf(file, maxFileSize, TypeError, SizeError(maxFileSize))
  }

  /** A text file named `contract.txt` whose MIME type does not mention
      `pdf` is refused as not a PDF, whatever the limit. */
  lemma TextContractRejected(file: FileInfo, maxFileSize: nat)
    requires file.name == "contract.txt" && !Contains(file.mimeType, "pdf")
    ensures ValidateContract(file, maxFileSize) == Some(TypeError)
  {
    var lower := ToLower(file.name);
    assert lower[|lower| - 1] == 't' != ".pdf"[3];
  }

  /** The entry `processContract` appends for an accepted file; its `meta` is
      the contract name. */
  function NewContract(file: FileInfo, id: Id): (e: Entry<string>)
    ensures e.file == file && e.id == id && e.status == Uploading
    ensures e.meta == FileNames.CleanPdfName(file.name)
  {
    Entry(file, id, Uploading, FileNames.CleanPdfName(file.name))
  }

  /** The completion callback changes the status and nothing else. */
  function KeepName(name: string): string
  {
    name
  }

  /** The state of one contract upload component. */
  class ContractUpload {
    const maxFileSize: nat
    var uploadedContracts: seq<Entry<string>>
    var error: string

    /** Every entry is uploading or a success: only those two are ever
        written. */
    ghost predicate Valid()
      reads this
    {
      NoErrorStatus(uploadedContracts)
    }

    constructor (maxFileSize: nat := DefaultMaxFileSize)
      ensures this.maxFileSize == maxFileSize
      ensures uploadedContracts == [] && error == ""
      ensures Valid()
    {
      this.maxFileSize := maxFileSize;
      uploadedContracts := [];
      error := "";
    }

    /** `processContract`: a rejected file only sets the message; an accepted
        one is appended as uploading, clears the message and schedules its
        completion. */
    method ProcessContract(file: FileInfo, id: Id) returns (timer: Option<Timer>)
      requires Valid()
      modifies this
      ensures Valid()
      ensures match ValidateContract(file, maxFileSize)
        case Some(message) =>
          uploadedContracts == old(uploadedContracts) && error == message && timer == None
        case None =>
          uploadedContracts == old(uploadedContracts) + [NewContract(file, id)] && error == "" &&
          timer == Some(Timer(id, file))
    {
      var validationError := ValidateContract(file, maxFileSize);
      if validationError.Some? {
        error := validationError.value;
        return None;
      }
      uploadedContracts := uploadedContracts + [NewContract(file, id)];
      error := "";
      timer := Some(Timer(id, file));
    }

    /** The `setTimeout` callback of `processContract`: marks the entries with
        the timer's id a success and hands the file to `onContractUpload`,
        whether or not the entry is still listed. */
    method CompleteContract(timer: Timer) returns (delivered: FileInfo)
      requires Valid()
      modifies this
      ensures Valid()
      ensures uploadedContracts == MarkSuccess(old(uploadedContracts), timer.id, KeepName)
      ensures error == old(error) && delivered == timer.file
    {
      MarkSuccessKeepsShape(uploadedContracts, timer.id, KeepName);
      uploadedContracts := MarkSuccess(uploadedContracts, timer.id, KeepName);
      delivered := timer.file;
    }

    /** `removeContract`. */
    method RemoveContract(id: Id)
      requires Valid()
      modifies this
      ensures Valid()
      ensures uploadedContracts == RemoveById(old(uploadedContracts), id)
      ensures error == old(error)
    {
      RemoveByIdSpec(uploadedContracts, id);
      uploadedContracts := RemoveById(uploadedContracts, id);
    }
  }
}
