/**
  The desktop host: a window object that remembers the chosen file and the
  months extracted from it, and turns a month button press into an act.
  Dialogs, message boxes and widgets are not modelled; the workbook behind
  the chosen path is passed in (None when it cannot be read).
 */
module GuiApp {
  import opened Cells
  import opened Wrappers
  import opened Extraction
  import opened Acts

  /** What `load_file` reports to the user. */
  datatype LoadStatus =
    | Loaded            // month cards are shown
    | NoSheetsWithData  // warning 'В файле не найдено вкладок с данными'
    | LoadFailed        // error 'Не удалось загрузить файл'

  /** A button for a month that is no longer loaded (the KeyError path). */
  datatype GuiError = MonthNotLoaded

  /** `Акт_приема_передачи_…` for 'acceptance', `Акт_услуг_…` for any other type. */
  function GuiFilename(docType: string, month: string, timestamp: string): string {
    if docType == "acceptance" then "Акт_приема_передачи_" + month + "_" + timestamp + ".docx"
    else "Акт_услуг_" + month + "_" + timestamp + ".docx"
  }

  /** The status shown after a workbook has been parsed. */
  function StatusOf(monthsData: seq<Month>): LoadStatus {
    if monthsData == [] then NoSheetsWithData else Loaded
  }

  /** `WildberriesActsGenerator`: the state behind the main window. */
  class ActsGenerator {
    var currentFile: Option<string>
    var monthsData: seq<Month>

    /** The months form a dictionary, and every loaded month has at least one record. */
    ghost predicate Valid()
      reads this
    {
      && DistinctNames(monthsData)
      && forall i :: 0 <= i < |monthsData| ==> monthsData[i].content.data != []
    }

    constructor()
      ensures Valid()
      ensures currentFile == None && monthsData == []
    {
      currentFile := None;
      monthsData := [];
    }

    /**
      `load_file`: a readable workbook replaces the loaded months with its
      sheets that have data; an unreadable one leaves them as they were.
     */
    method LoadFile(workbook: Option<seq<SheetRows>>) returns (status: LoadStatus)
      requires Valid()
      modifies this`monthsData
      ensures Valid()
      ensures workbook.None? ==> monthsData == old(monthsData) && status == LoadFailed
      ensures workbook.Some? ==>
        monthsData == ExtractWorkbook(workbook.value, DesktopHost) && status == StatusOf(monthsData)
    {
      if workbook.None? {
        return LoadFailed;
      }
      var parsed := ParseXlsxFile(workbook.value, DesktopHost);
      ExtractedNamesDistinct(workbook.value, DesktopHost);
      DesktopKeepsOnlySheetsWithData(workbook.value);
      monthsData := parsed;
      if monthsData == [] {
        status := NoSheetsWithData;
      } else {
        status := Loaded;
      }
    }

    /**
      `select_file`: an empty choice (the dialog was cancelled) changes
      nothing; otherwise the file becomes current and is loaded.
     */
    method SelectFile(chosen: string, workbook: Option<seq<SheetRows>>) returns (status: Option<LoadStatus>)
      requires Valid()
      modifies this
      ensures Valid()
      ensures chosen == "" ==>
        status == None && currentFile == old(currentFile) && monthsData == old(monthsData)
      ensures chosen != "" ==> currentFile == Some(chosen)
      ensures chosen != "" && workbook.None? ==> monthsData == old(monthsData) && status == Some(LoadFailed)
      ensures chosen != "" && workbook.Some? ==>
        monthsData == ExtractWorkbook(workbook.value, DesktopHost) && status == Some(StatusOf(monthsData))
    {
      if chosen == "" {
        return None;
      }
      currentFile := Some(chosen);
      var s := LoadFile(workbook);
      status := Some(s);
    }

    /**
      `generate_document`: succeeds exactly for a loaded month, names the
      file after the document type, the month and the timestamp, and
      renders the acceptance act for 'acceptance' and the services act
      for every other type. Every loaded month has records, so an
      acceptance act always holds its table.
     */
    method GenerateDocument(docType: string, monthName: string, date: Date, timestamp: string)
      returns (r: Result<Generated, GuiError>)
      requires Valid()
      ensures r.Ok? <==> exists i :: 0 <= i < |monthsData| && monthsData[i].name == monthName
      ensures r.Err? ==> r.error == MonthNotLoaded
      ensures r.Ok? ==> Lookup(monthsData, monthName).Some?
      ensures r.Ok? ==>
        r.value == Generated(GuiFilename(docType, monthName, timestamp),
          var content := Lookup(monthsData, monthName).value;
          if docType == "acceptance" then AcceptanceAct(DesktopHost, monthName, date, content)
          else ServicesAct(monthName, date, content))
      ensures r.Ok? && docType == "acceptance" ==>
        CountOf(r.value.doc, AnyTable) == 1 && CountOf(r.value.doc, Exactly(Paragraph(NoDataText))) == 0
    {
      var filename := GuiFilename(docType, monthName, timestamp);
      LookupMissing(monthsData, monthName);
      var found := Lookup(monthsData, monthName);
      if found.None? {
        return Err(MonthNotLoaded);
      }
      var doc;
      if docType == "acceptance" {
        doc := ComposeAcceptanceAct(DesktopHost, monthName, date, found.value);
        LoadedAcceptanceActHasTable(monthsData, monthName, date);
      } else {
        doc := ComposeServicesAct(monthName, date, found.value);
      }
      r := Ok(Generated(filename, doc));
    }
  }

  /**
    On the desktop every month that can be chosen has records, so its
    acceptance act always holds exactly one table and never the
    "no data" placeholder.
   */
  lemma LoadedAcceptanceActHasTable(monthsData: seq<Month>, monthName: string, date: Date)
    requires forall i :: 0 <= i < |monthsData| ==> monthsData[i].content.data != []
    requires Lookup(monthsData, monthName).Some?
    ensures var doc := AcceptanceAct(DesktopHost, monthName, date, Lookup(monthsData, monthName).value);
      CountOf(doc, AnyTable) == 1 && CountOf(doc, Exactly(Paragraph(NoDataText))) == 0
  {
    LookupFound(monthsData, monthName);
    AcceptanceTableShape(DesktopHost, monthName, date, Lookup(monthsData, monthName).value);
  }
}
