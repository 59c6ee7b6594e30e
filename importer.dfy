/**
 * One import run over a workbook: choose the sheets, then build the creator,
 * note and comment batches in that order.
 */
module ExcelImport {
  import opened Wrappers
  import opened Cells
  import opened Coerce
  import opened Aliases
  import opened AliasFacts
  import opened ColumnMap
  import opened Layout
  import opened CreatorImport
  import opened NoteImport
  import opened CommentImport

  /** `import_from_excel`: the three batches handed to the session, with
      `nowMs` the run's clock reading and `hasSession` whether a SQL session
      could be opened (without one nothing is imported). */
  method ImportFromExcel(wb: Workbook, notesSheet: string, creatorsSheet: string, commentsSheet: string,
                         nowMs: int, hasSession: bool, lib: Library)
    returns (creators: seq<CreatorRecord>, notes: seq<NoteRecord>, comments: seq<CommentRecord>)
    ensures !hasSession ==> creators == [] && notes == [] && comments == []
    ensures hasSession ==> var src := ChooseLayout(wb, notesSheet, creatorsSheet, commentsSheet);
      && creators == CreatorSection(src.creators, nowMs, lib)
      && notes == NoteSection(src.notes, nowMs, lib)
      && comments == CommentSection(src.comments, nowMs, lib)
    ensures DistinctIds(creators)
  {
    var dfNotes: Option<Sheet>;
    var dfCreators: Option<Sheet>;
    var dfComments: Option<Sheet>;
    if |wb| == 1 {
      dfNotes := Some(wb[0]);
      dfCreators := Some(wb[0]);
      dfComments := None;
    } else {
      dfNotes := ReadSheet(wb, notesSheet);
      dfCreators := ReadSheet(wb, creatorsSheet);
      dfComments := ReadSheet(wb, commentsSheet);
    }
    if !hasSession {
      return [], [], [];
    }
    creators := ImportCreators(dfCreators, nowMs, lib);
    notes := ImportNotes(dfNotes, nowMs, lib);
    comments := ImportComments(dfComments, nowMs, lib);
  }

  /** Notes and creators resolve `user_id` through the same aliases, so in any
      sheet both read the same cell for it. */
  lemma SharedUserColumn(header: seq<string>, row: Row)
    ensures ("user_id" in ColMapOf(header, NoteAliases)) == ("user_id" in ColMapOf(header, CreatorAliases))
    ensures Get(row, ColMapOf(header, NoteAliases), "user_id") == Get(row, ColMapOf(header, CreatorAliases), "user_id")
  {
    TablesWellFormed();
    assert NoteAliases[11] == CreatorAliases[0];
    ColMapField(header, NoteAliases, 11);
    ColMapField(header, CreatorAliases, 0);
  }

  /** A one-sheet workbook imports no comments, and its notes and creators
      both come from that sheet. */
  lemma SingleSheetImport(wb: Workbook, notesSheet: string, creatorsSheet: string, commentsSheet: string,
                          nowMs: int, lib: Library)
    requires |wb| == 1
    ensures var src := ChooseLayout(wb, notesSheet, creatorsSheet, commentsSheet);
      && CommentSection(src.comments, nowMs, lib) == []
      && CreatorSection(src.creators, nowMs, lib) == CreatorSection(Some(wb[0]), nowMs, lib)
      && NoteSection(src.notes, nowMs, lib) == NoteSection(Some(wb[0]), nowMs, lib)
  {
  }

  /** In a one-sheet workbook every note row with a truthy user id has that
      account among the imported creators. */
  lemma SingleSheetNotesHaveCreators(sheet: Sheet, j: nat, nowMs: int, lib: Library)
    requires j < |sheet.rows|
    requires Truthy(Get(sheet.rows[j], ColMapOf(sheet.header, NoteAliases), "user_id"))
    ensures PyStr(Get(sheet.rows[j], ColMapOf(sheet.header, NoteAliases), "user_id"), lib)
      in UserIds(CreatorSection(Some(sheet), nowMs, lib))
  {
    var row := sheet.rows[j];
    SharedUserColumn(sheet.header, row);
    var cm := ColMapOf(sheet.header, CreatorAliases);
    ColMapSound(sheet.header, CreatorAliases);
    assert cm["user_id"] in sheet.header;
    CreatorsComplete(sheet.rows, cm, nowMs, lib, j);
  }
}
