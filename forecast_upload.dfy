/** The forecast upload component: Excel and CSV files, a 25 MB default limit,
    a title-cased display name and a sheet count per entry. */
module Forecasts {
  import opened Options
  import opened Strings
  import opened Uploads
  import FileNames

  const DefaultMaxFileSize: nat := 25

  /** The MIME types accepted without looking at the name. */
  const ValidTypes: seq<string> := [
    "application/vnd.openxmlformats-officedocument.spreadsheetml.sheet",
    "application/vnd.ms-excel",
    "text/csv",
    "application/csv"
  ]

  const ValidExtensions: seq<string> := [".xlsx", ".xls", ".csv"]

  const TypeError: string := "Please select an Excel file (.xlsx, .xls) or CSV file"

  function SizeError(maxFileSize: nat): string
  {
    "Forecast file size exceeds " + NatToString(maxFileSize) + "MB limit"
  }

  /** `name.toLowerCase().substring(name.lastIndexOf('.'))`: the lower-cased
      tail from the last dot on, or the whole lower-cased name when there is
      no dot. */
  function Extension(name: string): string
  {
    SubstringFrom(ToLower(name), LastIndexOf(name, '.'))
  }

  lemma LowerCharKeepsDot(c: char)
    ensures LowerChar(c) == '.' <==> c == '.'
  {
  }

  /** The tail from the last dot always ends the lower-cased name. */
  lemma EndingFromExtension(name: string)
    ensures EndsWith(ToLower(name), Extension(name))
  {
    var lower := ToLower(name);
    var k := LastIndexOf(name, '.');
    if k >= 0 {
      assert Extension(name) == lower[k..];
    }
  }

  /** A lower-cased name ending in a dotted extension with no other dot has
      that extension as its tail from the last dot. */
  lemma ExtensionFromEnding(name: string, ext: string)
    requires |ext| >= 1 && ext[0] == '.'
    requires forall i :: 1 <= i < |ext| ==> ext[i] != '.'
    requires EndsWith(ToLower(name), ext)
    ensures Extension(name) == ext
  {
    var lower := ToLower(name);
    var p := |name| - |ext|;
    assert lower[p..] == ext;
    assert lower[p] == ext[0];
    LowerCharKeepsDot(name[p]);
    forall j | p < j < |name| ensures name[j] != '.' {
      assert lower[j] == ext[j - p];
      LowerCharKeepsDot(name[j]);
    }
    var k := LastIndexOf(name, '.');
    assert k == p;
  }

  /** For an extension with a single leading dot, the tail from the last dot
      is that extension exactly when the lower-cased name ends with it. */
  lemma ExtensionIs(name: string, ext: string)
    requires |ext| >= 1 && ext[0] == '.'
    requires forall i :: 1 <= i < |ext| ==> ext[i] != '.'
    ensures Extension(name) == ext <==> EndsWith(ToLower(name), ext)
  {
    EndingFromExtension(name);
    if EndsWith(ToLower(name), ext) {
      ExtensionFromEnding(name, ext);
    }
  }

  /** A name ends in at most one of the three extensions: their last
      characters differ. */
  lemma EndingsExclusive(s: string)
    ensures !(EndsWith(s, ".xlsx") && EndsWith(s, ".xls"))
    ensures !(EndsWith(s, ".xlsx") && EndsWith(s, ".csv"))
    ensures !(EndsWith(s, ".xls") && EndsWith(s, ".csv"))
  {
    if EndsWith(s, ".xlsx") {
      assert s[|s| - 1] == ".xlsx"[4];
    }
    if EndsWith(s, ".xls") {
      assert s[|s| - 1] == ".xls"[3];
    }
    if EndsWith(s, ".csv") {
      assert s[|s| - 1] == ".csv"[3];
    }
  }

  /** The three extensions of the type rule, each recognised by its tail. */
  lemma ExtensionCases(name: string)
    ensures Extension(name) == ".xlsx" <==> EndsWith(ToLower(name), ".xlsx")
    ensures Extension(name) == ".xls" <==> EndsWith(ToLower(name), ".xls")
    ensures Extension(name) == ".csv" <==> EndsWith(ToLower(name), ".csv")
  {
    ExtensionIs(name, ".xlsx");
    ExtensionIs(name, ".xls");
    ExtensionIs(name, ".csv");
  }

  /** The type rule read directly: one of the listed MIME types, or a name
      ending (in any letter case) in one of the listed extensions. */
  predicate AcceptedType(file: FileInfo)
  {
    file.mimeType in ValidTypes ||
    EndsWith(ToLower(file.name), ".xlsx") ||
    EndsWith(ToLower(file.name), ".xls") ||
    EndsWith(ToLower(file.name), ".csv")
  }

  /** `validateForecast`: the type test first, then the size limit; `None` is
      the source's `null` (no error). */
  function ValidateForecast(file: FileInfo, maxFileSize: nat): (r: Option<string>)
    ensures !AcceptedType(file) ==> r == Some(TypeError)
    ensures AcceptedType(file) && file.size > maxFileSize * BytesPerMegabyte ==> r == Some(SizeError(maxFileSize))
    ensures r == None <==> AcceptedType(file) && file.size <= maxFileSize * BytesPerMegabyte
  {
    ExtensionCases(file.name);
    if !(file.mimeType in ValidTypes) && !(Extension(file.name) in ValidExtensions) then
      Some(TypeError)
    else if ExceedsSizeLimit(file.size, maxFileSize) then
      Some(SizeError(maxFileSize))
    else
      None
  }

  /** A workbook of 30 MB is refused against the default limit of 25 MB, and
      the message names that limit. */
  lemma ThirtyMegabytesRejected(file: FileInfo)
    requires AcceptedType(file) && file.size == 30 * BytesPerMegabyte
    ensures ValidateForecast(file, DefaultMaxFileSize) == Some("Forecast file size exceeds " + "25" + "MB limit")
  {
    assert NatToString(25) == "25" by {
      assert NatToString(2) == "2";
    }
  }

  /** A Word document `forecast.docx` sent with a MIME type outside the list
      is refused as not a spreadsheet, whatever the limit. */
  lemma WordForecastRejected(file: FileInfo, maxFileSize: nat)
    requires file.name == "forecast.docx" && file.mimeType !in ValidTypes
    ensures ValidateForecast(file, maxFileSize) == Some(TypeError)
  {
    var lower := ToLower(file.name);
    assert lower[|lower| - 4] == 'd' != ".xlsx"[1];
    assert lower[|lower| - 1] == 'x' != ".xls"[3];
  }

  /** What a forecast entry adds to the common entry fields. */
  datatype ForecastMeta = ForecastMeta(forecastName: string, sheetCount: Option<nat>)

  /** `name.toLowerCase().endsWith('.csv') ? 1 : undefined`. */
  function InitialSheetCount(name: string): Option<nat>
  {
    if EndsWith(ToLower(name), ".csv") then Some(1) else None
  }

  /** The entry `processForecast` appends for an accepted file. */
  function NewForecast(file: FileInfo, id: Id): (e: Entry<ForecastMeta>)
    ensures e.file == file && e.id == id && e.status == Uploading
    ensures e.meta.forecastName == FileNames.ForecastName(file.name)
    ensures e.meta.sheetCount == Some(1) <==> EndsWith(ToLower(file.name), ".csv")
    ensures e.meta.sheetCount != Some(1) ==> e.meta.sheetCount == None
  {
    Entry(file, id, Uploading, ForecastMeta(FileNames.ForecastName(file.name), InitialSheetCount(file.name)))
  }

  /** `Math.floor(Math.random() * 5) + 1`, with the random draw passed in. */
  function RandomSheetCount(random: real): (n: nat)
    requires 0.0 <= random < 1.0
    ensures 1 <= n <= 5
  {
    (random * 5.0).Floor + 1
  }

  /** `forecast.sheetCount || <random count>`: a count that is set and not 0
      is kept, otherwise a count in 1..5 is drawn. */
  function SettleMeta(m: ForecastMeta, random: real): (r: ForecastMeta)
    requires 0.0 <= random < 1.0
    ensures r.forecastName == m.forecastName
    ensures m.sheetCount.Some? && m.sheetCount.value != 0 ==> r.sheetCount == m.sheetCount
    ensures !(m.sheetCount.Some? && m.sheetCount.value != 0) ==>
      r.sheetCount.Some? && 1 <= r.sheetCount.value <= 5
  {
    if m.sheetCount.Some? && m.sheetCount.value != 0 then m
    else m.(sheetCount := Some(RandomSheetCount(random)))
  }

  /** The timer callback of `processForecast` on the whole list. */
  function CompleteForecasts(entries: seq<Entry<ForecastMeta>>, id: Id, random: real): (r: seq<Entry<ForecastMeta>>)
    requires 0.0 <= random < 1.0
    ensures |r| == |entries|
    ensures forall i :: 0 <= i < |r| && entries[i].id != id ==> r[i] == entries[i]
    ensures forall i :: 0 <= i < |r| && entries[i].id == id ==>
      r[i].file == entries[i].file && r[i].id == id && r[i].status == Success &&
      r[i].meta.forecastName == entries[i].meta.forecastName &&
      r[i].meta.sheetCount.Some? && r[i].meta.sheetCount.value > 0
    ensures forall i :: 0 <= i < |r| && entries[i].id == id ==> r[i].meta == SettleMeta(entries[i].meta, random)
    ensures forall i :: 0 <= i < |r| && entries[i].id == id && entries[i].meta.sheetCount == Some(1) ==>
      r[i].meta.sheetCount == Some(1)
  {
    MarkSuccess(entries, id, (m: ForecastMeta) => SettleMeta(m, random))
  }

  /** `getFileTypeLabel`. */
  function FileTypeLabel(name: string): string
  {
    match Extension(name)
    case ".xlsx" => "Excel Workbook"
    case ".xls" => "Excel Legacy"
    case ".csv" => "CSV Data"
    case _ => "Spreadsheet"
  }

  /** `getFileTypeIcon`: a bar chart for both Excel kinds, a rising chart for
      CSV, a clipboard otherwise. */
  function FileTypeIcon(name: string): string
  {
    match Extension(name)
    case ".xlsx" => "\U{1F4CA}"
    case ".xls" => "\U{1F4CA}"
    case ".csv" => "\U{1F4C8}"
    case _ => "\U{1F4CB}"
  }

  /** Each label stands for one tail from the last dot, all others giving
      "Spreadsheet". */
  lemma FileTypeLabelOfExtension(name: string)
    ensures FileTypeLabel(name) == "Excel Workbook" <==> Extension(name) == ".xlsx"
    ensures FileTypeLabel(name) == "Excel Legacy" <==> Extension(name) == ".xls"
    ensures FileTypeLabel(name) == "CSV Data" <==> Extension(name) == ".csv"
    ensures FileTypeLabel(name) == "Spreadsheet" <==> Extension(name) !in ValidExtensions
  {
    LabelsDistinct();
  }

  /** The four labels are different strings: their lengths differ. */
  lemma LabelsDistinct()
    ensures "Excel Workbook" != "Excel Legacy" && "Excel Workbook" != "CSV Data" && "Excel Workbook" != "Spreadsheet"
    ensures "Excel Legacy" != "CSV Data" && "Excel Legacy" != "Spreadsheet" && "CSV Data" != "Spreadsheet"
  {
    assert |"Excel Workbook"| == 14 && |"Excel Legacy"| == 12 && |"CSV Data"| == 8 && |"Spreadsheet"| == 11;
  }

  /** The label names the kind the lower-cased name ends in, and the initial
      sheet count of 1 goes with the CSV label and no other. */
  lemma FileTypeLabelSpec(name: string)
    ensures FileTypeLabel(name) == "Excel Workbook" <==> EndsWith(ToLower(name), ".xlsx")
    ensures FileTypeLabel(name) == "Excel Legacy" <==> EndsWith(ToLower(name), ".xls")
    ensures FileTypeLabel(name) == "CSV Data" <==> EndsWith(ToLower(name), ".csv")
    ensures FileTypeLabel(name) == "Spreadsheet" <==>
      !EndsWith(ToLower(name), ".xlsx") && !EndsWith(ToLower(name), ".xls") && !EndsWith(ToLower(name), ".csv")
    ensures InitialSheetCount(name) == Some(1) <==> FileTypeLabel(name) == "CSV Data"
  {
    FileTypeLabelOfExtension(name);
    ExtensionCases(name);
  }

  /** The icon follows the label: one picture for both Excel labels, one for
      CSV, one for anything else. */
  lemma FileTypeIconSpec(name: string)
    ensures FileTypeIcon(name) == "\U{1F4CA}" <==> FileTypeLabel(name) in ["Excel Workbook", "Excel Legacy"]
    ensures FileTypeIcon(name) == "\U{1F4C8}" <==> FileTypeLabel(name) == "CSV Data"
    ensures FileTypeIcon(name) == "\U{1F4CB}" <==> FileTypeLabel(name) == "Spreadsheet"
  {
  }

  /** The state of one forecast upload component: its list of uploads and the
      last validation message (`''` when there is none). */
  class ForecastUpload {
    const maxFileSize: nat
    var uploadedForecasts: seq<Entry<ForecastMeta>>
    var error: string

    ghost predicate Valid()
      reads this
    {
      NoErrorStatus(uploadedForecasts)
    }

    constructor (maxFileSize: nat := DefaultMaxFileSize)
      ensures this.maxFileSize == maxFileSize
      ensures uploadedForecasts == [] && error == ""
      ensures Valid()
    {
      this.maxFileSize := maxFileSize;
      uploadedForecasts := [];
      error := "";
    }

    /** `processForecast`: a rejected file only sets the message; an accepted
        one is appended as uploading, clears the message and schedules its
        completion. */
    method ProcessForecast(file: FileInfo, id: Id) returns (timer: Option<Timer>)
      requires Valid()
      modifies this
      ensures Valid()
      ensures match ValidateForecast(file, maxFileSize)
        case Some(message) =>
          uploadedForecasts == old(uploadedForecasts) && error == message && timer == None
        case None =>
          uploadedForecasts == old(uploadedForecasts) + [NewForecast(file, id)] && error == "" &&
          timer == Some(Timer(id, file))
    {
      var validationError := ValidateForecast(file, maxFileSize);
      if validationError.Some? {
        error := validationError.value;
        return None;
      }
      uploadedForecasts := uploadedForecasts + [NewForecast(file, id)];
      error := "";
      timer := Some(Timer(id, file));
    }

    /** The `setTimeout` callback of `processForecast`: marks the entries
        with the timer's id a success and hands the file to
        `onForecastUpload`, whether or not the entry is still listed. */
    method CompleteForecast(timer: Timer, random: real) returns (delivered: FileInfo)
      requires Valid()
      requires 0.0 <= random < 1.0
      modifies this
      ensures Valid()
      ensures uploadedForecasts == CompleteForecasts(old(uploadedForecasts), timer.id, random)
      ensures error == old(error) && delivered == timer.file
    {
      MarkSuccessKeepsShape(uploadedForecasts, timer.id, (m: ForecastMeta) => SettleMeta(m, random));
      uploadedForecasts := CompleteForecasts(uploadedForecasts, timer.id, random);
      delivered := timer.file;
    }

    /** `removeForecast`. */
    method RemoveForecast(id: Id)
      requires Valid()
      modifies this
      ensures Valid()
      ensures uploadedForecasts == RemoveById(old(uploadedForecasts), id)
      ensures error == old(error)
    {
      RemoveByIdSpec(uploadedForecasts, id);
      uploadedForecasts := RemoveById(uploadedForecasts, id);
    }
  }
}
