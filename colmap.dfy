/**
 * Column resolution (`_build_col_map`): each canonical field of an alias
 * table is mapped to the sheet column whose lowercased label equals the
 * lowercase of the field's first matching alias.
 */
module ColumnMap {
  import opened Wrappers
  import opened PyText
  import opened Aliases
  import opened Coerce

  /** `{c.lower(): c for c in columns}`: each lowercased label to its column;
      when two columns lowercase alike, the later one overwrites the earlier. */
  function LowerCols(header: seq<string>): map<string, string> {
    if header == [] then map[]
    else LowerCols(header[..|header| - 1])[Lower(header[|header| - 1]) := header[|header| - 1]]
  }

  /** The lowercase lookup holds exactly the lowercased labels, and each one
      leads to the LAST column of the header with that lowercase. */
  lemma {:induction false} LowerColsLastWins(header: seq<string>, k: string)
    ensures k in LowerCols(header) <==> exists j :: 0 <= j < |header| && Lower(header[j]) == k
    ensures k in LowerCols(header) ==>
      exists j :: 0 <= j < |header| && Lower(header[j]) == k && LowerCols(header)[k] == header[j]
        && forall j' :: j < j' < |header| ==> Lower(header[j']) != k
  {
    if header != [] {
      var n := |header| - 1;
      var init := header[..n];
      LowerColsLastWins(init, k);
      if Lower(header[n]) != k && k in LowerCols(init) {
        var j :| 0 <= j < |init| && Lower(init[j]) == k && LowerCols(init)[k] == init[j]
          && forall j' :: j < j' < |init| ==> Lower(init[j']) != k;
        assert header[j] == init[j];
        assert forall j' :: j < j' < |header| ==> Lower(header[j']) != k by {
          forall j' | j < j' < |header| ensures Lower(header[j']) != k {
            if j' < n { assert header[j'] == init[j']; }
          }
        }
      }
      if (exists j :: 0 <= j < |header| && Lower(header[j]) == k) && Lower(header[n]) != k {
        var j :| 0 <= j < |header| && Lower(header[j]) == k;
        assert j < n && init[j] == header[j];
      }
    }
  }

  /** Every column the lookup leads to is a column of the header. */
  lemma LowerColsValues(header: seq<string>, k: string)
    requires k in LowerCols(header)
    ensures LowerCols(header)[k] in header
  {
    LowerColsLastWins(header, k);
  }

  /** `lower_cols.get(name.lower())` gives a column label that is truthy. */
  predicate Matches(name: string, lowerCols: map<string, string>) {
    Lower(name) in lowerCols && lowerCols[Lower(name)] != ""
  }

  /** The inner loop of `_build_col_map`: the column of the first alias, in
      list order, that matches; None when no alias matches. */
  function FirstAlias(names: seq<string>, lowerCols: map<string, string>): (r: Option<string>)
    ensures r.None? <==> forall i :: 0 <= i < |names| ==> !Matches(names[i], lowerCols)
    ensures r.Some? ==> exists i :: (0 <= i < |names| && Matches(names[i], lowerCols)
      && r.value == lowerCols[Lower(names[i])]
      && forall i' :: 0 <= i' < i ==> !Matches(names[i'], lowerCols))
  {
    if names == [] then None
    else if Matches(names[0], lowerCols) then Some(lowerCols[Lower(names[0])])
    else
      var r := FirstAlias(names[1..], lowerCols);
      assert forall i :: 1 <= i < |names| ==> names[i] == names[1..][i - 1];
      r
  }

  /** What `_build_col_map` returns: fields resolved in table order. */
  function ColMapOf(header: seq<string>, table: AliasTable): ColMap {
    if table == [] then map[]
    else
      var m := ColMapOf(header, table[..|table| - 1]);
      var (field, names) := table[|table| - 1];
      match FirstAlias(names, LowerCols(header))
      case Some(col) => m[field := col]
      case None => m
  }

  /** `_build_col_map(df, aliases)`. */
  method BuildColMap(header: seq<string>, table: AliasTable) returns (colMap: ColMap)
    ensures colMap == ColMapOf(header, table)
    ensures forall f :: f in colMap ==> colMap[f] in header
  {
    var lowerCols := LowerCols(header);
    colMap := map[];
    var k := 0;
    while k < |table|
      invariant 0 <= k <= |table|
      invariant colMap == ColMapOf(header, table[..k])
    {
      var (field, names) := table[k];
      assert table[..k + 1][..k] == table[..k];
      var j := 0;
      while j < |names|
        invariant 0 <= j <= |names|
        invariant colMap == ColMapOf(header, table[..k])
        invariant FirstAlias(names, lowerCols) == FirstAlias(names[j..], lowerCols)
      {
        var key := Lower(names[j]);
        if key in lowerCols && lowerCols[key] != "" {
          colMap := colMap[field := lowerCols[key]];
          break;
        }
        assert names[j..][1..] == names[j + 1..];
        j := j + 1;
      }
      k := k + 1;
    }
    assert table[..k] == table;
    ColMapSound(header, table);
  }

  /** Every resolved field is a field of the table, mapped to a real column. */
  lemma {:induction false} ColMapSound(header: seq<string>, table: AliasTable)
    ensures ColMapOf(header, table).Keys <= FieldNames(table)
    ensures forall f :: f in ColMapOf(header, table) ==> ColMapOf(header, table)[f] in header
  {
    if table != [] {
      var init := table[..|table| - 1];
      ColMapSound(header, init);
      assert forall i :: 0 <= i < |init| ==> init[i] == table[i];
      var (field, names) := table[|table| - 1];
      var r := FirstAlias(names, LowerCols(header));
      if r.Some? {
        var i :| 0 <= i < |names| && Matches(names[i], LowerCols(header))
          && r.value == LowerCols(header)[Lower(names[i])];
        LowerColsValues(header, Lower(names[i]));
      }
    }
  }

  /** The resolution of one field, in a table without repeated fields, is the
      field's own first-matching alias, independent of every other field. */
  lemma {:induction false} ColMapField(header: seq<string>, table: AliasTable, k: nat)
    requires DistinctFields(table) && k < |table|
    ensures table[k].0 in ColMapOf(header, table) <==> FirstAlias(table[k].1, LowerCols(header)).Some?
    ensures table[k].0 in ColMapOf(header, table) ==>
      ColMapOf(header, table)[table[k].0] == FirstAlias(table[k].1, LowerCols(header)).value
  {
    var n := |table| - 1;
    var init := table[..n];
    if k < n {
      assert DistinctFields(init) by {
        forall i, j | 0 <= i < j < |init| ensures init[i].0 != init[j].0 {
          assert init[i] == table[i] && init[j] == table[j];
        }
      }
      assert init[k] == table[k];
      ColMapField(header, init, k);
      assert table[n].0 != table[k].0;
    } else {
      ColMapSound(header, init);
      assert table[k].0 !in FieldNames(init) by {
        forall i | 0 <= i < |init| ensures init[i].0 != table[k].0 {
          assert init[i] == table[i];
        }
      }
    }
  }

  /** Two labels are equal up to case, as `a.lower() == b.lower()`. */
  predicate CaseEq(a: string, b: string) {
    Lower(a) == Lower(b)
  }

  /** A non-empty alias matches exactly when it equals some column label up
      to case. */
  lemma MatchesIffColumn(header: seq<string>, name: string)
    requires name != ""
    ensures Matches(name, LowerCols(header)) <==> exists j :: 0 <= j < |header| && CaseEq(name, header[j])
  {
    var lc := LowerCols(header);
    LowerColsLastWins(header, Lower(name));
    if Lower(name) in lc {
      var j :| 0 <= j < |header| && Lower(header[j]) == Lower(name) && lc[Lower(name)] == header[j];
      assert |Lower(header[j])| == |name| > 0;
    }
  }

  /** None of the first `i` aliases agrees with any column label up to case. */
  predicate NoEarlierAlias(names: seq<string>, header: seq<string>, i: nat)
    requires i <= |names|
  {
    forall i', j' :: 0 <= i' < i && 0 <= j' < |header| ==> !CaseEq(names[i'], header[j'])
  }

  /** No alias before a match agrees with any column up to case. */
  lemma EarlierAliasesMissing(header: seq<string>, names: seq<string>, i: nat)
    requires i <= |names| && forall i' :: 0 <= i' < |names| ==> names[i'] != ""
    requires forall i' :: 0 <= i' < i ==> !Matches(names[i'], LowerCols(header))
    ensures NoEarlierAlias(names, header, i)
  {
    forall i', j' | 0 <= i' < i && 0 <= j' < |header| ensures !CaseEq(names[i'], header[j']) {
      MatchesIffColumn(header, names[i']);
    }
  }

  /** Alias priority within one field: the inner loop finds a column exactly
      when some alias equals some column label up to case. */
  lemma FirstAliasFound(header: seq<string>, names: seq<string>)
    requires forall i :: 0 <= i < |names| ==> names[i] != ""
    ensures FirstAlias(names, LowerCols(header)).Some? <==>
      exists i, j :: 0 <= i < |names| && 0 <= j < |header| && CaseEq(names[i], header[j])
  {
    var lc := LowerCols(header);
    forall i | 0 <= i < |names|
      ensures Matches(names[i], lc) <==> exists j :: 0 <= j < |header| && CaseEq(names[i], header[j])
    {
      MatchesIffColumn(header, names[i]);
    }
  }

  /** Column `j` of `header` is where alias `i` of `names` lands: the two agree
      up to case, no later column agrees with that alias, and no earlier alias
      agrees with any column. */
  predicate LandsAt(names: seq<string>, header: seq<string>, i: nat, j: nat) {
    i < |names| && j < |header| && CaseEq(names[i], header[j])
    && (forall j' :: j < j' < |header| ==> !CaseEq(names[i], header[j']))
    && NoEarlierAlias(names, header, i)
  }

  /** Alias priority within one field: the column found is equal up to case to
      the first alias that agrees with any column (it is the last column with
      that lowercase), and no earlier alias agrees with any column. */
  lemma FirstAliasColumn(header: seq<string>, names: seq<string>)
    requires forall i :: 0 <= i < |names| ==> names[i] != ""
    requires FirstAlias(names, LowerCols(header)).Some?
    ensures exists i: nat, j: nat ::
      LandsAt(names, header, i, j) && FirstAlias(names, LowerCols(header)).value == header[j]
  {
    var lc := LowerCols(header);
    var i := FirstMatchIndex(names, lc);
    var j := LastColumnIndex(header, Lower(names[i]));
    EarlierAliasesMissing(header, names, i);
    assert LandsAt(names, header, i, j);
  }

  /** The position of the alias `FirstAlias` stops at. */
  lemma FirstMatchIndex(names: seq<string>, lc: map<string, string>) returns (i: nat)
    requires FirstAlias(names, lc).Some?
    ensures i < |names| && Matches(names[i], lc) && FirstAlias(names, lc).value == lc[Lower(names[i])]
    ensures forall i' :: 0 <= i' < i ==> !Matches(names[i'], lc)
  {
    i :| 0 <= i < |names| && Matches(names[i], lc) && FirstAlias(names, lc).value == lc[Lower(names[i])]
      && forall i' :: 0 <= i' < i ==> !Matches(names[i'], lc);
  }

  /** The position of the column a lowercase key leads to: the last one with
      that lowercase. */
  lemma LastColumnIndex(header: seq<string>, k: string) returns (j: nat)
    requires k in LowerCols(header)
    ensures j < |header| && Lower(header[j]) == k && LowerCols(header)[k] == header[j]
    ensures forall j' :: j < j' < |header| ==> Lower(header[j']) != k
  {
    LowerColsLastWins(header, k);
    j :| 0 <= j < |header| && Lower(header[j]) == k && LowerCols(header)[k] == header[j]
      && forall j' :: j < j' < |header| ==> Lower(header[j']) != k;
  }

  /** Column-map priority for one field of a table without repeated fields:
      the field is mapped exactly when one of its aliases equals some column
      label up to case, and then to the column of its first such alias. */
  lemma ColMapPriority(header: seq<string>, table: AliasTable, k: nat, field: string, names: seq<string>)
    requires DistinctFields(table) && k < |table| && table[k] == (field, names)
    requires forall i :: 0 <= i < |names| ==> names[i] != ""
    ensures field in ColMapOf(header, table) <==>
      exists i, j :: 0 <= i < |names| && 0 <= j < |header| && CaseEq(names[i], header[j])
    ensures field in ColMapOf(header, table) ==>
      exists i: nat, j: nat :: LandsAt(names, header, i, j) && ColMapOf(header, table)[field] == header[j]
  {
    ColMapField(header, table, k);
    FirstAliasFound(header, names);
    if field in ColMapOf(header, table) {
      FirstAliasColumn(header, names);
    }
  }
}

module ColumnMapExamples {
  import opened Wrappers
  import opened PyText
  import opened Aliases
  import opened AliasFacts
  import opened ColumnMap

  /** The liked-count field tries "liked_count", "点赞", "赞", "互动量" in that
      order, so a sheet with both "点赞" and "赞" resolves it to "点赞". */
  lemma AliasOrderWins()
    ensures var m := ColMapOf(["点赞", "赞"], NoteAliases);
      "liked_count" in m && m["liked_count"] == "点赞"
  {
    var header := ["点赞", "赞"];
    LowerNoCapitals("点赞");
    LowerNoCapitals("赞");
    LowerNoCapitals("liked_count");
    assert LowerCols(header) == map["点赞" := "点赞", "赞" := "赞"] by {
      assert header[..1] == ["点赞"];
      assert header[..1][..0] == [];
    }
    var names := ["liked_count", "点赞", "赞", "互动量"];
    assert NoteAliases[7] == ("liked_count", names);
    assert !Matches(names[0], LowerCols(header));
    assert Matches(names[1], LowerCols(header));
    assert FirstAlias(names, LowerCols(header)) == Some("点赞") by {
      assert names[1..][0] == "点赞";
    }
    TablesWellFormed();
    ColMapField(header, NoteAliases, 7);
  }

  /** Matching ignores case: a column labelled "Note_ID" resolves note_id. */
  lemma CaseInsensitiveMatch()
    ensures var m := ColMapOf(["Note_ID"], NoteAliases);
      "note_id" in m && m["note_id"] == "Note_ID"
  {
    var header := ["Note_ID"];
    assert Lower("Note_ID") == "note_id";
    assert LowerCols(header) == map["note_id" := "Note_ID"] by {
      assert header[..0] == [];
    }
    LowerNoCapitals("note_id");
    TablesWellFormed();
    ColMapField(header, NoteAliases, 0);
  }
}
