// The admin's bulk student upload: the rows of the first sheet are renamed
// column by column into registration records, an empty sheet is refused,
// only Excel files pass the upload gate, and the submit posts the stored
// records.

module AddStudent {
  import opened Outcomes
  import opened Collections

  /** A parsed sheet row: its columns in `Object.keys` order, each with its
      cell text. */
  type Row = seq<(string, string)>

  function Columns(row: Row): (r: seq<string>)
    ensures |r| == |row| && forall i :: 0 <= i < |row| ==> r[i] == row[i].0
  {
    seq(|row|, i requires 0 <= i < |row| => row[i].0)
  }

  /** A row that came from an object: no column appears twice. */
  predicate IsObject(row: Row) {
    NoDuplicates(Columns(row))
  }

  /** columnMapping: the seven sheet headings and the record key each
      becomes. */
  function MappedKey(column: string): Option<string> {
    if column == "Name" then Some("name")
    else if column == "Class" then Some("class")
    else if column == "Section" then Some("section")
    else if column == "Email" then Some("email")
    else if column == "Username" then Some("username")
    else if column == "Mobile Number" then Some("mobile_number")
    else if column == "Password" then Some("password")
    else None
  }

  const RecordKeys: set<string> := {"name", "class", "section", "email", "username", "mobile_number", "password"}

  /** Distinct headings become distinct keys, and every key is one of the
      seven. */
  lemma MappedKeyInjective(a: string, b: string)
    ensures MappedKey(a).Some? ==> MappedKey(a).value in RecordKeys
    ensures MappedKey(a).Some? && MappedKey(a) == MappedKey(b) ==> a == b
  {
  }

  /** The record a row becomes: the mapped columns under their new keys,
      and the admin id (`null` when none is stored). */
  datatype StudentRecord = StudentRecord(fields: map<string, string>, adminId: Option<string>)

  /** The fields the `forEach` over a row's columns writes, column by column. */
  function Fields(row: Row): map<string, string> {
    if row == [] then map[]
    else
      var (column, value) := row[|row| - 1];
      var earlier := Fields(row[..|row| - 1]);
      if MappedKey(column).Some? then earlier[MappedKey(column).value := value] else earlier
  }

  /** A key is written exactly when some column maps to it, so only the
      seven record keys can appear. */
  lemma {:induction false} FieldsKeys(row: Row, key: string)
    ensures key in Fields(row) <==> exists i :: 0 <= i < |row| && MappedKey(row[i].0) == Some(key)
    ensures key in Fields(row) ==> key in RecordKeys
  {
    if row != [] {
      var init := row[..|row| - 1];
      FieldsKeys(init, key);
      if key in Fields(row) && MappedKey(row[|row| - 1].0) != Some(key) {
        var i :| 0 <= i < |init| && MappedKey(init[i].0) == Some(key);
        assert row[i] == init[i];
      }
      if exists i :: 0 <= i < |row| && MappedKey(row[i].0) == Some(key) {
        var i :| 0 <= i < |row| && MappedKey(row[i].0) == Some(key);
        if i < |init| {
          assert init[i] == row[i];
        }
      }
      MappedKeyInjective(row[|row| - 1].0, row[|row| - 1].0);
    }
  }

  /** In a row with distinct columns each mapped column's value is carried
      over unchanged under its new key. */
  lemma {:induction false} FieldsValues(row: Row, i: nat)
    requires IsObject(row) && i < |row| && MappedKey(row[i].0).Some?
    ensures MappedKey(row[i].0).value in Fields(row)
    ensures Fields(row)[MappedKey(row[i].0).value] == row[i].1
  {
    var init := row[..|row| - 1];
    var last := row[|row| - 1];
    assert Columns(init) == Columns(row)[..|row| - 1];
    if i < |row| - 1 {
      assert init[i] == row[i];
      FieldsValues(init, i);
      if MappedKey(last.0) == MappedKey(row[i].0) {
        MappedKeyInjective(last.0, row[i].0);
      }
    }
  }

  /** The inner `forEach`: one column at a time. */
  method MapRow(row: Row) returns (fields: map<string, string>)
    ensures fields == Fields(row)
  {
    fields := map[];
    var j := 0;
    while j < |row|
      invariant 0 <= j <= |row|
      invariant fields == Fields(row[..j])
    {
      var (column, value) := row[j];
      assert row[..j + 1][..j] == row[..j];
      var key := MappedKey(column);
      if key.Some? {
        fields := fields[key.value := value];
      }
      j := j + 1;
    }
    assert row[..|row|] == row;
  }

  /** mapToJsonFormat: one record per row, in row order. */
  method MapToJsonFormat(data: seq<Row>, userId: Option<string>) returns (records: seq<StudentRecord>)
    ensures |records| == |data|
    ensures forall i :: 0 <= i < |data| ==> records[i] == StudentRecord(Fields(data[i]), userId)
  {
    records := [];
    var i := 0;
    while i < |data|
      invariant 0 <= i <= |data|
      invariant |records| == i
      invariant forall k :: 0 <= k < i ==> records[k] == StudentRecord(Fields(data[k]), userId)
    {
      var fields := MapRow(data[i]);
      records := records + [StudentRecord(fields, userId)];
      i := i + 1;
    }
  }

  /** The two MIME types the upload gate lets through. */
  const ExcelTypes: set<string> := {"application/vnd.ms-excel", "application/vnd.openxmlformats-officedocument.spreadsheetml.sheet"}

  /** beforeUpload: the file's MIME type must be one of the two exactly. */
  predicate IsExcel(mimeType: string) {
    mimeType == "application/vnd.ms-excel"
    || mimeType == "application/vnd.openxmlformats-officedocument.spreadsheetml.sheet"
  }

  /** The gate accepts the two Excel types and nothing else: the
      comparison is exact, so neither a CSV type nor a differently cased
      Excel type passes. */
  lemma ExcelGate(mimeType: string)
    ensures IsExcel(mimeType) <==> mimeType in ExcelTypes
    ensures !IsExcel("text/csv") && !IsExcel("APPLICATION/VND.MS-EXCEL") && !IsExcel("")
  {
    assert "APPLICATION/VND.MS-EXCEL"[0] != "application/vnd.ms-excel"[0];
  }

  /** A file chosen in the dragger, with the rows of its first sheet. */
  datatype ChosenFile = ChosenFile(name: string, mimeType: string, sheet: seq<Row>)

  /** What a press of the submit button ended in. */
  datatype SubmitOutcome = NoFile | EmptySheet | Registered | RejectedByServer | RequestError

  class StudentUpload {
    var studentsData: seq<StudentRecord>
    var jsonData: seq<StudentRecord>
    var file: Option<ChosenFile>
    var fileName: string

    constructor ()
      ensures studentsData == [] && jsonData == [] && file == None && fileName == ""
    {
      studentsData, jsonData, file, fileName := [], [], None, "";
    }

    /** handleFileChange: remembers the file and its name. */
    method FileChange(f: ChosenFile)
      modifies this
      ensures file == Some(f) && fileName == f.name
      ensures studentsData == old(studentsData) && jsonData == old(jsonData)
    {
      file := Some(f);
      fileName := f.name;
    }

    /** The reader's `onload`: an empty sheet reports an error and keeps the
        data; otherwise the table and the stored records become the
        formatted rows. */
    method SheetLoaded(sheet: seq<Row>, userId: Option<string>) returns (noData: bool)
      modifies this
      ensures noData <==> sheet == []
      ensures noData ==> studentsData == old(studentsData) && jsonData == old(jsonData)
      ensures !noData ==> |jsonData| == |sheet| && studentsData == jsonData
      ensures !noData ==> forall i :: 0 <= i < |sheet| ==> jsonData[i] == StudentRecord(Fields(sheet[i]), userId)
      ensures file == old(file) && fileName == old(fileName)
    {
      if |sheet| == 0 {
        return true;
      }
      var formatted := MapToJsonFormat(sheet, userId);
      studentsData := formatted;
      jsonData := formatted;
      noData := false;
    }

    /** handleSubmit as written. The file is only handed to the reader,
        whose `onload` runs later, so the body posted is the `jsonData`
        already stored. `response` is the server's answer: Some(ok) or None
        when the request threw. */
    method Submit(response: Option<bool>) returns (outcome: SubmitOutcome, body: Option<seq<StudentRecord>>)
      modifies this
      ensures old(file).None? <==> outcome == NoFile
      ensures outcome == NoFile ==> body == None
      ensures outcome != NoFile ==> body == Some(old(jsonData))
      ensures outcome == Registered <==> old(file).Some? && response == Some(true)
      ensures outcome == Registered ==> file == None && fileName == ""
      ensures outcome != Registered ==> file == old(file) && fileName == old(fileName)
      ensures studentsData == old(studentsData) && jsonData == old(jsonData)
    {
      if file.None? {
        return NoFile, None;
      }
      body := Some(jsonData);
      match response
      case Some(true) =>
        outcome := Registered;
        file := None;
        fileName := "";
      case Some(false) =>
        outcome := RejectedByServer;
      case None =>
        outcome := RequestError;
    }

    /** handleSubmit as evidently intended: read the file first, refuse an
        empty sheet, and post the records just formatted. */
    method SubmitLoaded(userId: Option<string>, response: Option<bool>) returns (outcome: SubmitOutcome, body: Option<seq<StudentRecord>>)
      modifies this
      ensures old(file).None? <==> outcome == NoFile
      ensures old(file).Some? && old(file).value.sheet == [] ==> outcome == EmptySheet && body == None
      ensures old(file).Some? && old(file).value.sheet != [] ==>
        body == Some(jsonData) && |jsonData| == |old(file).value.sheet|
        && forall i :: 0 <= i < |jsonData| ==> jsonData[i] == StudentRecord(Fields(old(file).value.sheet[i]), userId)
      ensures outcome == Registered ==> file == None && fileName == ""
    {
      if file.None? {
        return NoFile, None;
      }
      var sheet := file.value.sheet;
      var noData := SheetLoaded(sheet, userId);
      if noData {
        return EmptySheet, None;
      }
      body := Some(jsonData);
      match response
      case Some(true) =>
        outcome := Registered;
        file := None;
        fileName := "";
      case Some(false) =>
        outcome := RejectedByServer;
      case None =>
        outcome := RequestError;
    }
  }

  /** The first submit after choosing a non-empty sheet posts no students at
      all: the reader has not stored them yet. */
  method FirstSubmitPostsNothing(f: ChosenFile) returns (body: Option<seq<StudentRecord>>)
    requires f.sheet != []
    ensures body == Some([])
  {
    var screen := new StudentUpload();
    screen.FileChange(f);
    var outcome;
    outcome, body := screen.Submit(Some(true));
  }

  /** Reading first, the same submit posts one record per row. */
  method LoadedSubmitPostsRows(f: ChosenFile, userId: Option<string>) returns (body: Option<seq<StudentRecord>>)
    requires f.sheet != []
    ensures body.Some? && |body.value| == |f.sheet|
  {
    var screen := new StudentUpload();
    screen.FileChange(f);
    var outcome;
    outcome, body := screen.SubmitLoaded(userId, Some(true));
  }
}
