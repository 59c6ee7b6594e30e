/**
 * The note section of an import run. Every row becomes a note unless the
 * sheet has a note-id column and the row's id is falsy; without such a column
 * the id is generated from the row number. Tags from the tag-list column and
 * four extra category columns are merged into one text.
 */
module NoteImport {
  import opened Wrappers
  import opened PyText
  import opened Cells
  import opened Coerce
  import opened Aliases
  import opened ColumnMap

  /** The fields of an `XhsNote` row that the import fills in from the sheet
      or the clock. */
  datatype NoteRecord = NoteRecord(
    userId: string,
    nickname: RawValue,
    avatar: RawValue,
    ipLocation: RawValue,
    addTs: int,
    lastModifyTs: int,
    noteId: string,
    title: RawValue,
    desc: RawValue,
    time: int,
    lastUpdateTime: int,
    likedCount: string,
    collectedCount: string,
    commentCount: string,
    shareCount: string,
    tagList: Option<string>,
    noteUrl: RawValue,
    sourceKeyword: RawValue)

  /** The category columns whose text is appended to the tags, in order. */
  const ExtraTagColumns: seq<string> := ["笔记分类", "提及品类", "种草品牌", "商业合作品牌"]

  /** The separator of the merged tag text. */
  const TagSeparator: string := " | "

  /** The generated id of the row at position `idx`, `f"row_{idx + 1}"`. */
  function RowId(idx: nat): string {
    "row_" + NatToDecimal(idx + 1)
  }

  /** The note id of the row at position `idx`: from the note-id column when
      the sheet has one (None when the cell is falsy and the row is skipped),
      otherwise generated from the row number. */
  function NoteIdOf(row: Row, colMap: ColMap, idx: nat, lib: Library): Option<string> {
    if "note_id" in colMap then
      var v := Get(row, colMap, "note_id");
      if Truthy(v) then Some(PyStr(v, lib)) else None
    else Some(RowId(idx))
  }

  /** The tag text a category column contributes: the stripped cell when the
      sheet has that column and the cell is non-blank text. */
  function ExtraTagOf(header: seq<string>, row: Row, col: string): Option<string> {
    if col in header && col in row && row[col].Str? && Strip(row[col].s) != "" then Some(Strip(row[col].s))
    else None
  }

  /** The tags the category columns `cols` contribute, in column order. */
  function ExtraTags(header: seq<string>, row: Row, cols: seq<string>): seq<string> {
    if cols == [] then []
    else
      var n := |cols| - 1;
      ExtraTags(header, row, cols[..n])
        + (match ExtraTagOf(header, row, cols[n]) case Some(t) => [t] case None => [])
  }

  /** The stripped tag-list cell, when it is present and not blank. */
  function LeadTag(row: Row, colMap: ColMap, lib: Library): Option<string> {
    var raw := Get(row, colMap, "tag_list");
    if raw != Missing && Strip(PyStr(raw, lib)) != "" then Some(Strip(PyStr(raw, lib))) else None
  }

  /** All tag parts of a row: the tag-list text first, then the category texts. */
  function TagParts(header: seq<string>, row: Row, colMap: ColMap, lib: Library): seq<string> {
    (match LeadTag(row, colMap, lib) case Some(t) => [t] case None => [])
      + ExtraTags(header, row, ExtraTagColumns)
  }

  /** The merged tag text, None when there are no parts. */
  function MergedTags(header: seq<string>, row: Row, colMap: ColMap, lib: Library): Option<string> {
    var parts := TagParts(header, row, colMap, lib);
    if parts == [] then None else Some(Join(parts, TagSeparator))
  }

  /** The tag merging of the notes loop. */
  method MergeTagList(header: seq<string>, row: Row, colMap: ColMap, lib: Library) returns (merged: Option<string>)
    ensures merged == MergedTags(header, row, colMap, lib)
  {
    var rawTagList := Get(row, colMap, "tag_list");
    var extraTags: seq<string> := [];
    for i := 0 to |ExtraTagColumns|
      invariant extraTags == ExtraTags(header, row, ExtraTagColumns[..i])
    {
      var colName := ExtraTagColumns[i];
      assert ExtraTagColumns[..i + 1][..i] == ExtraTagColumns[..i];
      if colName in header {
        var val := if colName in row then row[colName] else Missing;
        if val.Str? && Strip(val.s) != "" {
          extraTags := extraTags + [Strip(val.s)];
        }
      }
    }
    assert ExtraTagColumns[..|ExtraTagColumns|] == ExtraTagColumns;
    assert extraTags == ExtraTags(header, row, ExtraTagColumns);
    if rawTagList != Missing && Strip(PyStr(rawTagList, lib)) != "" {
      extraTags := [Strip(PyStr(rawTagList, lib))] + extraTags;
    }
    assert extraTags == TagParts(header, row, colMap, lib);
    merged := if extraTags != [] then Some(Join(extraTags, TagSeparator)) else None;
  }

  /** The record built for a row kept under the id `noteId`. */
  function NoteOf(header: seq<string>, row: Row, colMap: ColMap, noteId: string, nowMs: int, lib: Library): NoteRecord {
    var rawUserId := Get(row, colMap, "user_id");
    NoteRecord(
      if Truthy(rawUserId) then PyStr(rawUserId, lib) else "unknown",
      Get(row, colMap, "nickname"),
      Get(row, colMap, "avatar"),
      Get(row, colMap, "ip_location"),
      nowMs,
      nowMs,
      noteId,
      Get(row, colMap, "title"),
      Get(row, colMap, "desc"),
      ToTsMs(Get(row, colMap, "time"), nowMs, lib),
      nowMs,
      CountText(Get(row, colMap, "liked_count")),
      CountText(Get(row, colMap, "collected_count")),
      CountText(Get(row, colMap, "comment_count")),
      CountText(Get(row, colMap, "share_count")),
      MergedTags(header, row, colMap, lib),
      Get(row, colMap, "note_url"),
      Get(row, colMap, "source_keyword"))
  }

  /** The note the loop builds from a row at a position, None when the row
      is skipped. */
  function NoteFrom(header: seq<string>, colMap: ColMap, nowMs: int, lib: Library): (Row, nat) -> Option<NoteRecord> {
    (r: Row, j: nat) =>
      match NoteIdOf(r, colMap, j, lib)
      case Some(id) => Some(NoteOf(header, r, colMap, id, nowMs, lib))
      case None => None
  }

  /** The notes loop over `rows` (the first rows of a sheet with column labels
      `header`), as a function of the rows seen so far. */
  function Notes(header: seq<string>, rows: seq<Row>, colMap: ColMap, nowMs: int, lib: Library): seq<NoteRecord> {
    RowsMap(rows, NoteFrom(header, colMap, nowMs, lib))
  }

  /** The note batch of a run, given the section's source sheet. */
  function NoteSection(src: Option<Sheet>, nowMs: int, lib: Library): seq<NoteRecord> {
    if src.None? || IsEmpty(src.value) then []
    else Notes(src.value.header, src.value.rows, ColMapOf(src.value.header, NoteAliases), nowMs, lib)
  }

  /** The note section of `import_from_excel`. */
  method ImportNotes(src: Option<Sheet>, nowMs: int, lib: Library) returns (objs: seq<NoteRecord>)
    ensures objs == NoteSection(src, nowMs, lib)
  {
    objs := [];
    if src.Some? && !IsEmpty(src.value) {
      var df := src.value;
      var colMap := BuildColMap(df.header, NoteAliases);
      for idx := 0 to |df.rows|
        invariant objs == Notes(df.header, df.rows[..idx], colMap, nowMs, lib)
      {
        var row := df.rows[idx];
        ghost var build := NoteFrom(df.header, colMap, nowMs, lib);
        RowsMapStep(df.rows, build, idx);
        var noteId: string;
        if "note_id" in colMap {
          var v := Get(row, colMap, "note_id");
          if !Truthy(v) {
            assert NoteIdOf(row, colMap, idx, lib).None?;
            assert build(row, idx).None?;
            continue;
          }
          noteId := PyStr(v, lib);
        } else {
          noteId := "row_" + NatToDecimal(idx + 1);
        }
        assert NoteIdOf(row, colMap, idx, lib) == Some(noteId);
        var obj := BuildNote(df.header, row, colMap, noteId, nowMs, lib);
        assert build(row, idx) == Some(obj);
        objs := objs + [obj];
      }
      assert df.rows[..|df.rows|] == df.rows;
    }
  }

  /** The record the notes loop builds for a row kept under `noteId`. */
  method BuildNote(header: seq<string>, row: Row, colMap: ColMap, noteId: string, nowMs: int, lib: Library)
    returns (obj: NoteRecord)
    ensures obj == NoteOf(header, row, colMap, noteId, nowMs, lib)
  {
    var tMs := ToTsMs(Get(row, colMap, "time"), nowMs, lib);
    var mergedTagList := MergeTagList(header, row, colMap, lib);
    var rawUserId := Get(row, colMap, "user_id");
    var userIdStr := if Truthy(rawUserId) then PyStr(rawUserId, lib) else "unknown";
    obj := NoteRecord(
      userIdStr,
      Get(row, colMap, "nickname"),
      Get(row, colMap, "avatar"),
      Get(row, colMap, "ip_location"),
      nowMs,
      nowMs,
      noteId,
      Get(row, colMap, "title"),
      Get(row, colMap, "desc"),
      tMs,
      nowMs,
      CountText(Get(row, colMap, "liked_count")),
      CountText(Get(row, colMap, "collected_count")),
      CountText(Get(row, colMap, "comment_count")),
      CountText(Get(row, colMap, "share_count")),
      mergedTagList,
      Get(row, colMap, "note_url"),
      Get(row, colMap, "source_keyword"));
  }

  // ---------------------------------------------------------------------
  // Which rows become notes

  /** Whether the row at a position becomes a note. */
  function KeepNote(colMap: ColMap, lib: Library): (Row, nat) -> bool {
    (r: Row, j: nat) => NoteIdOf(r, colMap, j, lib).Some?
  }

  /** The positions of the rows that become notes, in order. */
  function KeptRows(rows: seq<Row>, colMap: ColMap, lib: Library): seq<nat> {
    Positions(rows, KeepNote(colMap, lib))
  }

  /** The note the row at position `j` contributes, if any. */
  function NoteAt(header: seq<string>, rows: seq<Row>, j: nat, colMap: ColMap, nowMs: int, lib: Library): Option<NoteRecord>
    requires j < |rows|
  {
    NoteFrom(header, colMap, nowMs, lib)(rows[j], j)
  }


  /** The k-th note is the note of the k-th kept row. */
  lemma NotesFromKeptRows(header: seq<string>, rows: seq<Row>, colMap: ColMap, nowMs: int, lib: Library)
    ensures var notes := Notes(header, rows, colMap, nowMs, lib);
      var kept := KeptRows(rows, colMap, lib);
      && |notes| == |kept|
      && forall k :: 0 <= k < |kept| ==> kept[k] < |rows| && NoteAt(header, rows, kept[k], colMap, nowMs, lib) == Some(notes[k])
  {
    RowsMapAtPositions(rows, NoteFrom(header, colMap, nowMs, lib), KeepNote(colMap, lib));
  }


  /** Without a note-id column nothing is skipped: the k-th note comes from
      row k and carries the generated id `row_{k+1}`. */
  lemma NotesWithoutIdColumn(header: seq<string>, rows: seq<Row>, colMap: ColMap, nowMs: int, lib: Library)
    requires "note_id" !in colMap
    ensures var notes := Notes(header, rows, colMap, nowMs, lib);
      && |notes| == |rows|
      && forall k :: 0 <= k < |rows| ==> notes[k] == NoteOf(header, rows[k], colMap, RowId(k), nowMs, lib)
  {
    var build := NoteFrom(header, colMap, nowMs, lib);
    forall j | 0 <= j < |rows| ensures build(rows[j], j) == Some(NoteOf(header, rows[j], colMap, RowId(j), nowMs, lib)) {
      assert NoteIdOf(rows[j], colMap, j, lib) == Some(RowId(j));
    }
    RowsMapEvery(rows, build);
  }


  /** Generated ids are distinct, so a sheet without a note-id column never
      produces two notes with the same id. */
  lemma RowIdsDistinct(i: nat, j: nat)
    requires i != j
    ensures RowId(i) != RowId(j)
  {
    NatToDecimalInjective(i + 1, j + 1);
    assert RowId(i)[4..] == NatToDecimal(i + 1);
    assert RowId(j)[4..] == NatToDecimal(j + 1);
  }

  /** With a note-id column, a row is skipped exactly when its id cell is
      falsy (None, blank, 0 or empty text); duplicates are kept, since notes
      are not de-duplicated. */
  lemma NotesWithIdColumn(header: seq<string>, rows: seq<Row>, colMap: ColMap, nowMs: int, lib: Library, j: nat)
    requires "note_id" in colMap && j < |rows|
    ensures j in KeptRows(rows, colMap, lib) <==> Truthy(Get(rows[j], colMap, "note_id"))
  {
    var kept := KeptRows(rows, colMap, lib);
    PositionsExact(rows, KeepNote(colMap, lib));
    assert KeepNote(colMap, lib)(rows[j], j) == NoteIdOf(rows[j], colMap, j, lib).Some?;
    if j in kept {
      var k :| 0 <= k < |kept| && kept[k] == j;
      assert KeepNote(colMap, lib)(rows[kept[k]], kept[k]);
    }
  }

  // ---------------------------------------------------------------------
  // Tags

  /** A category text is in the tags exactly when one of the columns
      contributes it. */
  lemma {:induction false} ExtraTagsMember(header: seq<string>, row: Row, cols: seq<string>, t: string)
    ensures t in ExtraTags(header, row, cols) <==> exists c :: c in cols && ExtraTagOf(header, row, c) == Some(t)
  {
    if cols != [] {
      var n := |cols| - 1;
      ExtraTagsMember(header, row, cols[..n], t);
      assert cols == cols[..n] + [cols[n]];
      assert forall c :: c in cols <==> c in cols[..n] || c == cols[n];
    }
  }

  /** A tag text is non-empty and has no surrounding whitespace. */
  predicate IsCleanTag(t: string) {
    t != [] && !IsSpace(t[0]) && !IsSpace(t[|t| - 1])
  }

  /** Every tag part is non-empty and stripped of surrounding whitespace. */
  lemma {:induction false} ExtraTagsClean(header: seq<string>, row: Row, cols: seq<string>)
    ensures forall t :: t in ExtraTags(header, row, cols) ==> IsCleanTag(t)
  {
    if cols != [] {
      var n := |cols| - 1;
      ExtraTagsClean(header, row, cols[..n]);
      var ts := ExtraTags(header, row, cols);
      var prev := ExtraTags(header, row, cols[..n]);
      match ExtraTagOf(header, row, cols[n])
      case None =>
        assert ts == prev;
      case Some(t) =>
        assert ts == prev + [t];
        var c := cols[n];
        assert t == Trim(row[c].s, IsSpace) && t != [];
        assert IsCleanTag(t);
    }
  }

  /** The tag parts are clean, at most five, and led by the tag-list text
      when there is one. */
  lemma TagPartsShape(header: seq<string>, row: Row, colMap: ColMap, lib: Library)
    ensures var parts := TagParts(header, row, colMap, lib);
      && (forall k :: 0 <= k < |parts| ==> IsCleanTag(parts[k]))
      && (LeadTag(row, colMap, lib).Some? ==> parts[0] == LeadTag(row, colMap, lib).value)
      && |parts| <= 1 + |ExtraTagColumns|
  {
    ExtraTagsClean(header, row, ExtraTagColumns);
    ExtraTagsLength(header, row, ExtraTagColumns);
  }

  lemma {:induction false} ExtraTagsLength(header: seq<string>, row: Row, cols: seq<string>)
    ensures |ExtraTags(header, row, cols)| <= |cols|
  {
    if cols != [] {
      ExtraTagsLength(header, row, cols[..|cols| - 1]);
    }
  }

  /** A note has no tags exactly when its tag-list cell is blank and no
      category column holds text. */
  lemma MergedTagsNone(header: seq<string>, row: Row, colMap: ColMap, lib: Library)
    ensures MergedTags(header, row, colMap, lib).None? <==>
      LeadTag(row, colMap, lib).None? && forall c :: c in ExtraTagColumns ==> ExtraTagOf(header, row, c).None?
  {
    var ts := ExtraTags(header, row, ExtraTagColumns);
    if ts != [] {
      ExtraTagsMember(header, row, ExtraTagColumns, ts[0]);
    } else {
      forall c | c in ExtraTagColumns ensures ExtraTagOf(header, row, c).None? {
        if ExtraTagOf(header, row, c).Some? {
          ExtraTagsMember(header, row, ExtraTagColumns, ExtraTagOf(header, row, c).value);
        }
      }
    }
  }
}

module NoteImportExamples {
  import opened Wrappers
  import opened PyText
  import opened Cells
  import opened Coerce
  import opened NoteImport

  /** Without a note-id column the row at position 3 gets the id "row_4". */
  lemma FourthRowId(header: seq<string>, rows: seq<Row>, colMap: ColMap, nowMs: int, lib: Library)
    requires "note_id" !in colMap && |rows| == 4
    ensures |Notes(header, rows, colMap, nowMs, lib)| == 4 && Notes(header, rows, colMap, nowMs, lib)[3].noteId == "row_4"
  {
    NotesWithoutIdColumn(header, rows, colMap, nowMs, lib);
    assert NatToDecimal(4) == "4";
  }

  lemma StripPadded()
    ensures Strip(" 护肤 ") == "护肤" && Strip("美妆  ") == "美妆"
  {
    StripPaddedBoth();
    StripPaddedRight();
  }

  lemma StripPaddedBoth()
    ensures Strip(" 护肤 ") == "护肤"
  {
    var t := " 护肤 ";
    assert LeadCount(t, IsSpace) == 1 by {
      assert LeadCount(t[1..], IsSpace) == 0;
    }
    assert EndIndex(t, IsSpace) == 3 by {
      assert t[..3] == " 护肤" && !IsSpace(t[..3][2]);
    }
    assert t[1..3] == "护肤";
  }

  lemma StripPaddedRight()
    ensures Strip("美妆  ") == "美妆"
  {
    var t := "美妆  ";
    assert LeadCount(t, IsSpace) == 0;
    assert EndIndex(t, IsSpace) == 2 by {
      assert t[..3] == "美妆 " && t[..3][..2] == "美妆" && !IsSpace(t[..3][..2][1]);
    }
    assert t[0..2] == "美妆";
  }


  /** What each category column of that sheet contributes. */
  lemma OneCategoryCells(header: seq<string>, row: Row)
    requires header == ["话题", "笔记分类"] && row == map["话题" := Str(" 护肤 "), "笔记分类" := Str("美妆  ")]
    ensures ExtraTagOf(header, row, ExtraTagColumns[0]) == Some("美妆")
    ensures forall i :: 1 <= i < 4 ==> ExtraTagOf(header, row, ExtraTagColumns[i]) == None
  {
    StripPadded();
    assert ExtraTagColumns[0] == "笔记分类";
  }

  /** Only the category columns the sheet has contribute, in column order. */
  lemma OneCategory(header: seq<string>, row: Row)
    requires header == ["话题", "笔记分类"] && row == map["话题" := Str(" 护肤 "), "笔记分类" := Str("美妆  ")]
    ensures ExtraTags(header, row, ExtraTagColumns) == ["美妆"]
  {
    var cols := ExtraTagColumns;
    OneCategoryCells(header, row);
    assert cols[..1][..0] == [];
    assert cols[..2][..1] == cols[..1] && cols[..3][..2] == cols[..2] && cols[..4][..3] == cols[..3];
    assert cols[..4] == cols;
    assert ExtraTags(header, row, cols[..1]) == ["美妆"];
    assert ExtraTags(header, row, cols[..2]) == ["美妆"];
    assert ExtraTags(header, row, cols[..3]) == ["美妆"];
  }

  /** The tag-list text leads, a category text follows, both stripped. */
  lemma TagsMerge(lib: Library)
    ensures var row := map["话题" := Str(" 护肤 "), "笔记分类" := Str("美妆  ")];
      MergedTags(["话题", "笔记分类"], row, map["tag_list" := "话题"], lib) == Some("护肤 | 美妆")
  {
    var row := map["话题" := Str(" 护肤 "), "笔记分类" := Str("美妆  ")];
    var header := ["话题", "笔记分类"];
    TopicLeads(row, lib);
    OneCategory(header, row);
    assert TagParts(header, row, map["tag_list" := "话题"], lib) == ["护肤", "美妆"];
    JoinTwoTags();
  }

  /** The stripped topic cell leads the tag parts. */
  lemma TopicLeads(row: Row, lib: Library)
    requires row == map["话题" := Str(" 护肤 "), "笔记分类" := Str("美妆  ")]
    ensures LeadTag(row, map["tag_list" := "话题"], lib) == Some("护肤")
  {
    StripPadded();
    assert Get(row, map["tag_list" := "话题"], "tag_list") == Str(" 护肤 ");
  }

  /** Two tags joined with the separator. */
  lemma JoinTwoTags()
    ensures Join(["护肤", "美妆"], TagSeparator) == "护肤 | 美妆"
  {
    var parts := ["护肤", "美妆"];
    assert parts[1..] == ["美妆"];
    assert Join(parts[1..], TagSeparator) == "美妆";
  }
}
