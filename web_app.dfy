/**
  The web host's pure decisions: which uploads are accepted, and which act
  a `/generate/<doc_type>/<month>` request produces under which file name.
 */
module WebApp {
  import opened Cells
  import opened Wrappers
  import opened Extraction
  import opened Acts

  // ---------------------------------------------------------------------
  // Upload filter
  // ---------------------------------------------------------------------

  /** The position of the last '.' in s, if any. */
  function LastDot(s: string): (r: Option<nat>)
    ensures r.Some? ==> r.value < |s| && s[r.value] == '.'
    ensures r.Some? ==> forall j :: r.value < j < |s| ==> s[j] != '.'
    ensures r.None? ==> forall j :: 0 <= j < |s| ==> s[j] != '.'
  {
    if s == [] then None
    else if s[|s| - 1] == '.' then Some(|s| - 1)
    else LastDot(s[..|s| - 1])
  }

  /** `allowed_file`: the text after the last '.' lower-cases to "xlsx". */
  function AllowedFile(filename: string): bool {
    match LastDot(filename)
    case None => false
    case Some(i) => Lower(filename[i + 1..]) == "xlsx"
  }

  /** Position i holds the last '.' of s. */
  predicate IsLastDot(s: string, i: nat) {
    i < |s| && s[i] == '.' && forall j :: i < j < |s| ==> s[j] != '.'
  }

  /**
    A name is accepted exactly when it contains a '.' and its extension
    (the text after the last '.') lower-cases to "xlsx"; a name without a
    dot is rejected.
   */
  lemma AllowedFileIff(filename: string)
    ensures AllowedFile(filename) <==>
      exists i: nat :: IsLastDot(filename, i) && Lower(filename[i + 1..]) == "xlsx"
    ensures (forall j :: 0 <= j < |filename| ==> filename[j] != '.') ==> !AllowedFile(filename)
  {
    match LastDot(filename)
    case None =>
    case Some(i) =>
      assert IsLastDot(filename, i);
      forall k: nat | IsLastDot(filename, k) ensures k == i { }
  }

  // ---------------------------------------------------------------------
  // Dispatch
  // ---------------------------------------------------------------------

  datatype WebError =
    | NotUploaded     // 400 'Сначала загрузите файл'
    | MonthNotFound   // 404 'Месяц не найден'
    | UnknownDocType  // 400 'Неизвестный тип документа'

  /** `f'{doc_type}_{month}_{timestamp}.docx'` */
  function OutputFilename(docType: string, month: string, timestamp: string): string {
    docType + "_" + month + "_" + timestamp + ".docx"
  }

  /**
    `generate_document`: `uploaded` is the extracted workbook of the
    session's upload (None before any upload); the clock gives `date` and
    `timestamp`.
   */
  function GenerateDocument(uploaded: Option<seq<Month>>, docType: string, month: string, date: Date, timestamp: string)
    : Result<Generated, WebError>
  {
    if uploaded.None? then Err(NotUploaded)
    else match Lookup(uploaded.value, month)
      case None => Err(MonthNotFound)
      case Some(content) =>
        var filename := OutputFilename(docType, month, timestamp);
        if docType == "acceptance" then Ok(Generated(filename, AcceptanceAct(WebHost, month, date, content)))
        else if docType == "services" then Ok(Generated(filename, ServicesAct(month, date, content)))
        else Err(UnknownDocType)
  }

  /**
    The outcome of a request: the upload is checked first, then the month,
    then the document type; on success the file is named after the
    document type, the month and the timestamp, and holds the act of that
    type for that month.
   */
  lemma GenerateDocumentOutcome(uploaded: Option<seq<Month>>, docType: string, month: string, date: Date, timestamp: string)
    ensures var r := GenerateDocument(uploaded, docType, month, date, timestamp);
      && (r == Err(NotUploaded) <==> uploaded.None?)
      && (r == Err(MonthNotFound) <==>
            uploaded.Some? && forall i :: 0 <= i < |uploaded.value| ==> uploaded.value[i].name != month)
      && (r == Err(UnknownDocType) <==>
            uploaded.Some? && Lookup(uploaded.value, month).Some? && docType != "acceptance" && docType != "services")
      && (r.Ok? ==>
            && r.value.filename == OutputFilename(docType, month, timestamp)
            && var content := Lookup(uploaded.value, month).value;
               r.value.doc == if docType == "acceptance" then AcceptanceAct(WebHost, month, date, content)
                              else ServicesAct(month, date, content))
  {
    if uploaded.Some? {
      LookupMissing(uploaded.value, month);
    }
  }

  /**
    Every sheet of an uploaded workbook (sheet names being distinct) can be
    rendered, records or not, as either act of that sheet's extracted table.
   */
  lemma EverySheetCanBeGenerated(sheets: seq<SheetRows>, i: nat, docType: string, date: Date, timestamp: string)
    requires DistinctSheetNames(sheets) && i < |sheets|
    requires docType == "acceptance" || docType == "services"
    ensures GenerateDocument(Some(ExtractWorkbook(sheets, WebHost)), docType, sheets[i].name, date, timestamp)
      == Ok(Generated(OutputFilename(docType, sheets[i].name, timestamp),
              if docType == "acceptance" then AcceptanceAct(WebHost, sheets[i].name, date, ExtractSheet(sheets[i].rows))
              else ServicesAct(sheets[i].name, date, ExtractSheet(sheets[i].rows))))
  {
    WebLookupSheet(sheets, i);
    GenerateFound(ExtractWorkbook(sheets, WebHost), docType, sheets[i].name, date, timestamp, ExtractSheet(sheets[i].rows));
  }

  /** A found month and a known document type always give that act. */
  lemma GenerateFound(ms: seq<Month>, docType: string, month: string, date: Date, timestamp: string, content: MonthData)
    requires Lookup(ms, month) == Some(content)
    requires docType == "acceptance" || docType == "services"
    ensures GenerateDocument(Some(ms), docType, month, date, timestamp)
      == Ok(Generated(OutputFilename(docType, month, timestamp),
              if docType == "acceptance" then AcceptanceAct(WebHost, month, date, content)
              else ServicesAct(month, date, content)))
  {
  }
}
