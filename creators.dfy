/**
 * The creator section of an import run: rows with a truthy `user_id` become
 * creator records, and only the first row for each `str(user_id)` is kept.
 */
module CreatorImport {
  import opened Wrappers
  import opened PyText
  import opened Cells
  import opened Coerce
  import opened Aliases
  import opened ColumnMap

  /** The fields of an `XhsCreator` row that the import fills in. */
  datatype CreatorRecord = CreatorRecord(
    userId: string,
    nickname: RawValue,
    avatar: RawValue,
    ipLocation: RawValue,
    desc: RawValue,
    gender: RawValue,
    follows: string,
    fans: string,
    interaction: string,
    tagList: RawValue,
    addTs: int,
    lastModifyTs: int)

  /** The record built for a row kept under the id `userId`. */
  function CreatorOf(row: Row, colMap: ColMap, userId: string, nowMs: int): CreatorRecord {
    CreatorRecord(
      userId,
      Get(row, colMap, "nickname"),
      Get(row, colMap, "avatar"),
      Get(row, colMap, "ip_location"),
      Get(row, colMap, "desc"),
      Get(row, colMap, "gender"),
      CountText(Get(row, colMap, "follows")),
      CountText(Get(row, colMap, "fans")),
      CountText(Get(row, colMap, "interaction")),
      Get(row, colMap, "tag_list"),
      nowMs,
      nowMs)
  }

  /** The identity a row carries, `str(user_id)`; None when the cell is falsy
      and the row is skipped. */
  function CreatorKey(row: Row, colMap: ColMap, lib: Library): Option<string> {
    var u := Get(row, colMap, "user_id");
    if Truthy(u) then Some(PyStr(u, lib)) else None
  }

  /** The user ids of a batch. */
  function UserIds(cs: seq<CreatorRecord>): set<string> {
    set i | 0 <= i < |cs| :: cs[i].userId
  }

  /** The creators loop over `rows`, as a function of the rows seen so far. */
  function Creators(rows: seq<Row>, colMap: ColMap, nowMs: int, lib: Library): seq<CreatorRecord> {
    if rows == [] then []
    else
      var prev := Creators(rows[..|rows| - 1], colMap, nowMs, lib);
      var row := rows[|rows| - 1];
      match CreatorKey(row, colMap, lib)
      case None => prev
      case Some(id) => if id in UserIds(prev) then prev else prev + [CreatorOf(row, colMap, id, nowMs)]
  }

  /** The creator batch of a run, given the section's source sheet. */
  function CreatorSection(src: Option<Sheet>, nowMs: int, lib: Library): seq<CreatorRecord> {
    if src.None? || IsEmpty(src.value) then []
    else
      var colMap := ColMapOf(src.value.header, CreatorAliases);
      if "user_id" !in colMap then [] else Creators(src.value.rows, colMap, nowMs, lib)
  }

  lemma UserIdsAppend(cs: seq<CreatorRecord>, c: CreatorRecord)
    ensures UserIds(cs + [c]) == UserIds(cs) + {c.userId}
  {
    var both := cs + [c];
    assert forall i :: 0 <= i < |cs| ==> both[i] == cs[i];
    assert both[|cs|] == c;
  }

  /** The creator section of `import_from_excel`. */
  method ImportCreators(src: Option<Sheet>, nowMs: int, lib: Library) returns (objs: seq<CreatorRecord>)
    ensures objs == CreatorSection(src, nowMs, lib)
    ensures DistinctIds(objs)
  {
    objs := [];
    if src.Some? && !IsEmpty(src.value) {
      var df := src.value;
      var colMap := BuildColMap(df.header, CreatorAliases);
      if "user_id" in colMap {
        var seen: set<string> := {};
        for i := 0 to |df.rows|
          invariant objs == Creators(df.rows[..i], colMap, nowMs, lib)
          invariant seen == UserIds(objs)
        {
          var row := df.rows[i];
          assert df.rows[..i + 1][..i] == df.rows[..i];
          ghost var step := Creators(df.rows[..i + 1], colMap, nowMs, lib);
          var userId := Get(row, colMap, "user_id");
          if !Truthy(userId) {
            assert CreatorKey(row, colMap, lib) == None;
            assert step == objs;
            continue;
          }
          var userIdStr := PyStr(userId, lib);
          assert CreatorKey(row, colMap, lib) == Some(userIdStr);
          if userIdStr in seen {
            assert step == objs;
            continue;
          }
          seen := seen + {userIdStr};
          var obj := CreatorOf(row, colMap, userIdStr, nowMs);
          UserIdsAppend(objs, obj);
          assert step == objs + [obj];
          objs := objs + [obj];
        }
        assert df.rows[..|df.rows|] == df.rows;
        CreatorsDistinct(df.rows, colMap, nowMs, lib);
      }
    }
  }

  // ---------------------------------------------------------------------
  // De-duplication

  /** The ids in the batch are exactly the ids carried by the rows. */
  lemma {:induction false} CreatorIds(rows: seq<Row>, colMap: ColMap, nowMs: int, lib: Library, id: string)
    ensures id in UserIds(Creators(rows, colMap, nowMs, lib)) <==>
      exists j :: 0 <= j < |rows| && CreatorKey(rows[j], colMap, lib) == Some(id)
  {
    if rows != [] {
      var n := |rows| - 1;
      var init := rows[..n];
      var prev := Creators(init, colMap, nowMs, lib);
      CreatorIds(init, colMap, nowMs, lib, id);
      assert forall j :: 0 <= j < n ==> rows[j] == init[j];
      match CreatorKey(rows[n], colMap, lib)
      case None =>
      case Some(k) =>
        if k !in UserIds(prev) {
          UserIdsAppend(prev, CreatorOf(rows[n], colMap, k, nowMs));
        } else if id == k {
          assert id in UserIds(prev);
        }
    }
  }

  /** No two records of `cs` share a user id. */
  predicate DistinctIds(cs: seq<CreatorRecord>) {
    forall i, j :: 0 <= i < j < |cs| ==> cs[i].userId != cs[j].userId
  }

  /** No two creators of a batch share a user id. */
  lemma {:induction false} CreatorsDistinct(rows: seq<Row>, colMap: ColMap, nowMs: int, lib: Library)
    ensures DistinctIds(Creators(rows, colMap, nowMs, lib))
  {
    if rows != [] {
      var n := |rows| - 1;
      var prev := Creators(rows[..n], colMap, nowMs, lib);
      CreatorsDistinct(rows[..n], colMap, nowMs, lib);
      match CreatorKey(rows[n], colMap, lib)
      case None =>
        assert Creators(rows, colMap, nowMs, lib) == prev;
      case Some(k) =>
        if k !in UserIds(prev) {
          var cs := prev + [CreatorOf(rows[n], colMap, k, nowMs)];
          forall i | 0 <= i < |prev| ensures cs[i].userId != k {
            assert cs[i] == prev[i];
          }
        }
    }
  }

  /** Row `j` is the first row carrying its id. */
  predicate IsFirstOccurrence(rows: seq<Row>, j: nat, colMap: ColMap, lib: Library)
    requires j < |rows|
  {
    CreatorKey(rows[j], colMap, lib).Some?
    && forall j' :: 0 <= j' < j ==> CreatorKey(rows[j'], colMap, lib) != CreatorKey(rows[j], colMap, lib)
  }

  /** Reference definition: one record per first occurrence of an id, built
      from that row, in row order. */
  function FirstOccurrences(rows: seq<Row>, colMap: ColMap, nowMs: int, lib: Library): seq<CreatorRecord> {
    if rows == [] then []
    else
      var n := |rows| - 1;
      FirstOccurrences(rows[..n], colMap, nowMs, lib)
        + (if IsFirstOccurrence(rows, n, colMap, lib)
           then [CreatorOf(rows[n], colMap, CreatorKey(rows[n], colMap, lib).value, nowMs)]
           else [])
  }

  /** The de-duplicating loop keeps exactly the first row for each id, in row
      order, and builds each record from that first row (first occurrence
      wins, with no merging of later rows). */
  lemma {:induction false} CreatorsAreFirstOccurrences(rows: seq<Row>, colMap: ColMap, nowMs: int, lib: Library)
    ensures Creators(rows, colMap, nowMs, lib) == FirstOccurrences(rows, colMap, nowMs, lib)
  {
    if rows != [] {
      var n := |rows| - 1;
      var init := rows[..n];
      CreatorsAreFirstOccurrences(init, colMap, nowMs, lib);
      match CreatorKey(rows[n], colMap, lib)
      case None =>
      case Some(k) =>
        CreatorIds(init, colMap, nowMs, lib, k);
        assert forall j :: 0 <= j < n ==> rows[j] == init[j];
        if k in UserIds(Creators(init, colMap, nowMs, lib)) {
          assert !IsFirstOccurrence(rows, n, colMap, lib);
        } else {
          assert IsFirstOccurrence(rows, n, colMap, lib);
        }
    }
  }

  /** Every row with a truthy id has its id in the batch. */
  lemma CreatorsComplete(rows: seq<Row>, colMap: ColMap, nowMs: int, lib: Library, j: nat)
    requires j < |rows| && Truthy(Get(rows[j], colMap, "user_id"))
    ensures PyStr(Get(rows[j], colMap, "user_id"), lib) in UserIds(Creators(rows, colMap, nowMs, lib))
  {
    CreatorIds(rows, colMap, nowMs, lib, PyStr(Get(rows[j], colMap, "user_id"), lib));
  }
}

module CreatorImportExamples {
  import opened Wrappers
  import opened Cells
  import opened Coerce
  import opened CreatorImport

  /** Two rows for the same account give one creator, built from the first
      row: its nickname is the first row's. */
  lemma FirstRowWins(nowMs: int, lib: Library)
    ensures var rows := [map["user_id" := Str("u1"), "nickname" := Str("A")],
                         map["user_id" := Str("u1"), "nickname" := Str("B")]];
      var cs := Creators(rows, map["user_id" := "user_id", "nickname" := "nickname"], nowMs, lib);
      |cs| == 1 && cs[0].userId == "u1" && cs[0].nickname == Str("A")
  {
    var rows := [map["user_id" := Str("u1"), "nickname" := Str("A")],
                 map["user_id" := Str("u1"), "nickname" := Str("B")]];
    var colMap := map["user_id" := "user_id", "nickname" := "nickname"];
    assert rows[..1][..0] == [];
    assert CreatorKey(rows[0], colMap, lib) == Some("u1");
    assert CreatorKey(rows[1], colMap, lib) == Some("u1");
    var first := Creators(rows[..1], colMap, nowMs, lib);
    assert rows[..1][0] == rows[0];
    assert Creators(rows[..1][..0], colMap, nowMs, lib) == [];
    assert "u1" !in UserIds([]);
    assert first == [CreatorOf(rows[0], colMap, "u1", nowMs)];
    assert "u1" in UserIds(first) by {
      assert first[0].userId == "u1";
    }
  }
}
