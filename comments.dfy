/**
 * The comment section of an import run: the sheet must map both a comment
 * id and a note id, and a row becomes a comment exactly when both cells are
 * truthy. Comments are not de-duplicated.
 */
module CommentImport {
  import opened Wrappers
  import opened PyText
  import opened Cells
  import opened Coerce
  import opened Aliases
  import opened ColumnMap

  /** The fields of an `XhsNoteComment` row that the import fills in. */
  datatype CommentRecord = CommentRecord(
    userId: Option<string>,
    nickname: RawValue,
    avatar: RawValue,
    ipLocation: RawValue,
    addTs: int,
    lastModifyTs: int,
    commentId: string,
    createTime: int,
    noteId: string,
    content: RawValue,
    subCommentCount: int,
    pictures: RawValue,
    parentCommentId: RawValue,
    likeCount: string)

  /** Whether a row becomes a comment: both its comment id and its note id
      are truthy. */
  predicate Accepted(row: Row, colMap: ColMap) {
    Truthy(Get(row, colMap, "comment_id")) && Truthy(Get(row, colMap, "note_id"))
  }

  /** The record built for an accepted row. */
  function CommentOf(row: Row, colMap: ColMap, nowMs: int, lib: Library): CommentRecord {
    var userId := Get(row, colMap, "user_id");
    CommentRecord(
      if Truthy(userId) then Some(PyStr(userId, lib)) else None,
      Get(row, colMap, "nickname"),
      Get(row, colMap, "avatar"),
      Get(row, colMap, "ip_location"),
      nowMs,
      nowMs,
      PyStr(Get(row, colMap, "comment_id"), lib),
      ToTsMs(Get(row, colMap, "create_time"), nowMs, lib),
      PyStr(Get(row, colMap, "note_id"), lib),
      Get(row, colMap, "content"),
      ToInt(Get(row, colMap, "sub_comment_count"), Some(0)).value,
      Get(row, colMap, "pictures"),
      Get(row, colMap, "parent_comment_id"),
      CountText(Get(row, colMap, "like_count")))
  }

  /** The comment the loop builds from a row, None when the row is skipped. */
  function CommentFrom(colMap: ColMap, nowMs: int, lib: Library): (Row, nat) -> Option<CommentRecord> {
    (r: Row, j: nat) => if Accepted(r, colMap) then Some(CommentOf(r, colMap, nowMs, lib)) else None
  }

  /** The comments loop over `rows`, as a function of the rows seen so far. */
  function Comments(rows: seq<Row>, colMap: ColMap, nowMs: int, lib: Library): seq<CommentRecord> {
    RowsMap(rows, CommentFrom(colMap, nowMs, lib))
  }

  /** The comment batch of a run, given the section's source sheet. */
  function CommentSection(src: Option<Sheet>, nowMs: int, lib: Library): seq<CommentRecord> {
    if src.None? || IsEmpty(src.value) then []
    else
      var colMap := ColMapOf(src.value.header, CommentAliases);
      if "comment_id" !in colMap || "note_id" !in colMap then []
      else Comments(src.value.rows, colMap, nowMs, lib)
  }

  /** The comment section of `import_from_excel`. */
  method ImportComments(src: Option<Sheet>, nowMs: int, lib: Library) returns (objs: seq<CommentRecord>)
    ensures objs == CommentSection(src, nowMs, lib)
  {
    objs := [];
    if src.Some? && !IsEmpty(src.value) {
      var df := src.value;
      var colMap := BuildColMap(df.header, CommentAliases);
      if "comment_id" in colMap && "note_id" in colMap {
        for i := 0 to |df.rows|
          invariant objs == Comments(df.rows[..i], colMap, nowMs, lib)
        {
          var row := df.rows[i];
          ghost var build := CommentFrom(colMap, nowMs, lib);
          RowsMapStep(df.rows, build, i);
          var commentId := Get(row, colMap, "comment_id");
          var noteId := Get(row, colMap, "note_id");
          if !Truthy(commentId) || !Truthy(noteId) {
            assert build(row, i).None?;
            continue;
          }
          var ctMs := ToTsMs(Get(row, colMap, "create_time"), nowMs, lib);
          var userId := Get(row, colMap, "user_id");
          var obj := CommentRecord(
            if Truthy(userId) then Some(PyStr(userId, lib)) else None,
            Get(row, colMap, "nickname"),
            Get(row, colMap, "avatar"),
            Get(row, colMap, "ip_location"),
            nowMs,
            nowMs,
            PyStr(commentId, lib),
            ctMs,
            PyStr(noteId, lib),
            Get(row, colMap, "content"),
            ToInt(Get(row, colMap, "sub_comment_count"), Some(0)).value,
            Get(row, colMap, "pictures"),
            Get(row, colMap, "parent_comment_id"),
            CountText(Get(row, colMap, "like_count")));
          assert obj == CommentOf(row, colMap, nowMs, lib);
          assert build(row, i) == Some(obj);
          objs := objs + [obj];
        }
        assert df.rows[..|df.rows|] == df.rows;
      }
    }
  }

  // ---------------------------------------------------------------------
  // Which rows become comments

  /** Whether the row at a position becomes a comment. */
  function KeepComment(colMap: ColMap): (Row, nat) -> bool {
    (r: Row, j: nat) => Accepted(r, colMap)
  }

  /** The positions of the accepted rows, in order. */
  function AcceptedRows(rows: seq<Row>, colMap: ColMap): seq<nat> {
    Positions(rows, KeepComment(colMap))
  }

  /** The positions of the skipped rows, in order. */
  function SkippedRows(rows: seq<Row>, colMap: ColMap): seq<nat> {
    Positions(rows, (r: Row, j: nat) => !KeepComment(colMap)(r, j))
  }

  /** The k-th comment is built from the k-th accepted row. */
  lemma CommentsFromAcceptedRows(rows: seq<Row>, colMap: ColMap, nowMs: int, lib: Library)
    ensures |Comments(rows, colMap, nowMs, lib)| == |AcceptedRows(rows, colMap)|
    ensures forall k :: 0 <= k < |AcceptedRows(rows, colMap)| ==>
      AcceptedRows(rows, colMap)[k] < |rows|
      && Comments(rows, colMap, nowMs, lib)[k] == CommentOf(rows[AcceptedRows(rows, colMap)[k]], colMap, nowMs, lib)
  {
    RowsMapAtPositions(rows, CommentFrom(colMap, nowMs, lib), KeepComment(colMap));
  }


  /** A row is accepted exactly when both of its ids are truthy. */
  lemma AcceptedExactly(rows: seq<Row>, colMap: ColMap, j: nat)
    requires j < |rows|
    ensures j in AcceptedRows(rows, colMap) <==>
      Truthy(Get(rows[j], colMap, "comment_id")) && Truthy(Get(rows[j], colMap, "note_id"))
  {
    var acc := AcceptedRows(rows, colMap);
    PositionsExact(rows, KeepComment(colMap));
    assert KeepComment(colMap)(rows[j], j) == Accepted(rows[j], colMap);
    if j in acc {
      var k :| 0 <= k < |acc| && acc[k] == j;
      assert KeepComment(colMap)(rows[acc[k]], acc[k]);
    }
  }

  /** Every row is accounted for: the comments and the skipped rows together
      number the rows of the sheet. */
  lemma CommentsAndSkipped(rows: seq<Row>, colMap: ColMap, nowMs: int, lib: Library)
    ensures |Comments(rows, colMap, nowMs, lib)| + |SkippedRows(rows, colMap)| == |rows|
  {
    CommentsFromAcceptedRows(rows, colMap, nowMs, lib);
    PositionsSplit(rows, KeepComment(colMap));
  }

  /** The sub-comment count is `_to_int(value, 0)`: text is read as a
      number, and anything unreadable counts as zero. */
  lemma SubCommentCountDefaultsToZero(row: Row, colMap: ColMap, nowMs: int, lib: Library)
    requires Accepted(row, colMap)
    ensures var c := CommentOf(row, colMap, nowMs, lib);
      && (Get(row, colMap, "sub_comment_count").Missing? ==> c.subCommentCount == 0)
      && (forall n: int {:trigger IntToDecimal(n)} :: Get(row, colMap, "sub_comment_count") == Str(IntToDecimal(n)) ==> c.subCommentCount == n)
  {
    forall n: int | Get(row, colMap, "sub_comment_count") == Str(IntToDecimal(n))
      ensures CommentOf(row, colMap, nowMs, lib).subCommentCount == n
    {
      ToIntOfDecimal(n, Some(0));
    }
  }
}

module CommentImportExamples {
  import opened Wrappers
  import opened Cells
  import opened Coerce
  import opened CommentImport

  /** A row with an empty comment id is skipped; the other row is kept. */
  lemma OneKeptOneSkipped(nowMs: int, lib: Library)
    ensures var colMap := map["comment_id" := "评论ID", "note_id" := "笔记ID"];
      var rows := [map["评论ID" := Str("c1"), "笔记ID" := Str("n1")],
                   map["评论ID" := Str(""), "笔记ID" := Str("n1")]];
      var cs := Comments(rows, colMap, nowMs, lib);
      |cs| == 1 && cs[0].commentId == "c1" && cs[0].noteId == "n1" && cs[0].userId.None?
  {
    var colMap := map["comment_id" := "评论ID", "note_id" := "笔记ID"];
    var rows := [map["评论ID" := Str("c1"), "笔记ID" := Str("n1")],
                 map["评论ID" := Str(""), "笔记ID" := Str("n1")]];
    assert rows[..1][..0] == [] && rows[..1][0] == rows[0];
    assert Accepted(rows[0], colMap);
    assert !Accepted(rows[1], colMap);
    var build := CommentFrom(colMap, nowMs, lib);
    assert build(rows[0], 0) == Some(CommentOf(rows[0], colMap, nowMs, lib));
    assert build(rows[1], 1) == None;
    var first := RowsMap(rows[..1], build);
    assert first == RowsMap(rows[..1][..0], build) + [CommentOf(rows[0], colMap, nowMs, lib)];
    assert RowsMap(rows[..1][..0], build) == [];
    assert RowsMap(rows, build) == first;
  }
}
