# Xiaohongshu Excel import and keyword helpers, modelled in Dafny

This project models two deterministic pieces of the public-opinion analysis
system.

1. The **Xiaohongshu Excel importer** (`import_xhs_from_excel.py`). It reads a
   workbook, maps the sheet's column labels to database fields through alias
   tables, and coerces cell values. It then builds three batches of ORM
   records:
   - creators, de-duplicated by `str(user_id)`, where the first row wins;
   - notes, with a generated `row_N` id when the sheet has no note-id column,
     and with merged tag text;
   - comments, kept only when both the comment id and the note id are truthy.

   A one-sheet workbook feeds both notes and creators from that sheet and
   imports no comments.
2. The **keyword optimizer's local helpers** (`keyword_optimizer.py`):
   - validation of the keywords a language model proposed;
   - the fallback split of the original query;
   - the extraction of keywords from a reply that is not JSON.

## Layout

| file | module | what it holds |
|---|---|---|
| `wrappers.dfy` | `Wrappers` | `Option`, the generic `FilterMap` / `FlatMap` and their lemmas |
| `pytext.dfy` | `PyText` | Python string operations used by the core: `strip`, `lower` (ASCII), `split`, `join`, `in`, a regex split, decimal `str(int)` |
| `cells.dfy` | `Cells` | cell values, rows, sheets, `bool(v)`, `str(v)`, positions of kept rows, the generic row loop `RowsMap` |
| `aliases.dfy` | `Aliases`, `AliasFacts` | the three alias tables and facts about them |
| `colmap.dfy` | `ColumnMap` | `_build_col_map` as a function and a method, and its priority rules |
| `coerce.dfy` | `Coerce` | `_get`, `_to_int`, `_to_ts_ms`, and the `str(_to_int(v, 0))` count text |
| `layout.dfy` | `Layout` | `_read_sheet` and the one-sheet or per-name layout choice |
| `creators.dfy` | `CreatorImport` | the creator section |
| `notes.dfy` | `NoteImport` | the note section and tag merging |
| `comments.dfy` | `CommentImport` | the comment section |
| `importer.dfy` | `ExcelImport` | `import_from_excel` |
| `keywords.dfy` | `Keywords` | `_validate_keywords`, `_fallback_keyword_extraction`, `_extract_keywords_from_text` |

Each loop of the source is a `method` with a loop: a `for` loop over the
rows or items, except `BuildColMap`, whose nested `while` loops leave the
alias loop as the source's `break` does. The invariant of each row or item
loop ties the output so far to a prefix-recursive specification function of the
rows seen so far: `Creators`, `Notes`, `Comments`, `Validated`, `KeptTokens`,
`Candidates` and `CleanAll`. `Notes` and `Comments` are instances of the
generic `Cells.RowsMap`, which appends at most one record per row, so the
facts about which rows become records are proved once for both. The lemmas state what the source promises about
those functions. Modules whose names end in `Examples` hold concrete cases
worked through by the verifier.

How values that pandas and Python supply are modelled:
- A blank cell is `NaN` and an absent value is `Missing`.
- `str()` of a float and `pd.to_datetime(...)` are library behaviour. They
  arrive as the fields of a `Library` value.
- The import's clock reading `now_ms` is a parameter.
- Whether a SQL session could be opened is a parameter too.

Case collisions in the header: when two column labels differ only in case,
`lower_cols = {c.lower(): c ...}` keeps the LAST such label
(import_xhs_from_excel.py:101), because a later entry of the dictionary
comprehension overwrites an earlier one. `ColumnMap.LowerColsLastWins` states
this, and `ColumnMap.FirstAliasColumn` carries it through to the column map.

## Model

| member | source | states |
|---|---|---|
| Aliases.FieldNames | MindSpider/DeepSentimentCrawling/MediaCrawler/import_xhs_from_excel.py:49-95 | the field set of an alias table is exactly the fields of its entries |
| AliasFacts.TablesWellFormed | MindSpider/DeepSentimentCrawling/MediaCrawler/import_xhs_from_excel.py:49-95 | no alias table lists a field twice, and no alias is empty, so every alias can match a column |
| ColumnMap.LowerColsLastWins | MindSpider/DeepSentimentCrawling/MediaCrawler/import_xhs_from_excel.py:101 | a lower-cased key is present iff some header label lowers to it, and it maps to the last such label |
| ColumnMap.LowerColsValues | MindSpider/DeepSentimentCrawling/MediaCrawler/import_xhs_from_excel.py:101 | every value of the lower-case index is a header label |
| ColumnMap.LowerCols | MindSpider/DeepSentimentCrawling/MediaCrawler/import_xhs_from_excel.py:101 | the lower-case index of the header: each label lowered maps to its label, a later label overwriting an earlier one |
| ColumnMap.FirstAlias | MindSpider/DeepSentimentCrawling/MediaCrawler/import_xhs_from_excel.py:104-108 | None iff no alias matches; otherwise the column of the first matching alias |
| ColumnMap.FirstMatchIndex | MindSpider/DeepSentimentCrawling/MediaCrawler/import_xhs_from_excel.py:104-108 | when some alias matches, the index of the first one that does |
| ColumnMap.LastColumnIndex | MindSpider/DeepSentimentCrawling/MediaCrawler/import_xhs_from_excel.py:101 | the position of the last header label that lowers to a key of the index |
| ColumnMap.BuildColMap | MindSpider/DeepSentimentCrawling/MediaCrawler/import_xhs_from_excel.py:98-109 | the loop computes the column map, and every mapped column is a header label |
| ColumnMap.ColMapOf | MindSpider/DeepSentimentCrawling/MediaCrawler/import_xhs_from_excel.py:102-109 | the column map as a function: the fields of the table in order, each mapped to the column of its first alias found in the index, unmapped when none is |
| ColumnMap.ColMapSound | MindSpider/DeepSentimentCrawling/MediaCrawler/import_xhs_from_excel.py:98-109 | the map only has fields of the table, and only header labels as columns |
| ColumnMap.ColMapField | MindSpider/DeepSentimentCrawling/MediaCrawler/import_xhs_from_excel.py:103-108 | a field is mapped iff one of its aliases matches, to the first matching alias's column |
| ColumnMap.MatchesIffColumn | MindSpider/DeepSentimentCrawling/MediaCrawler/import_xhs_from_excel.py:105-106 | an alias matches iff some header label equals it up to ASCII case |
| ColumnMap.EarlierAliasesMissing | MindSpider/DeepSentimentCrawling/MediaCrawler/import_xhs_from_excel.py:104-108 | aliases that do not match have no case-equal header label |
| ColumnMap.FirstAliasFound | MindSpider/DeepSentimentCrawling/MediaCrawler/import_xhs_from_excel.py:104-108 | an alias list finds a column iff some alias equals some label up to case |
| ColumnMap.FirstAliasColumn | MindSpider/DeepSentimentCrawling/MediaCrawler/import_xhs_from_excel.py:101-108 | the column found is the last label case-equal to the first alias that has one |
| ColumnMap.ColMapPriority | MindSpider/DeepSentimentCrawling/MediaCrawler/import_xhs_from_excel.py:98-109 | in header terms: a field is mapped iff some alias has a case-equal label; the column is the first such alias's last case-equal label |
| ColumnMapExamples.AliasOrderWins | MindSpider/DeepSentimentCrawling/MediaCrawler/import_xhs_from_excel.py:59 | with both "点赞" and "赞" present, liked_count maps to "点赞", the earlier alias |
| ColumnMapExamples.CaseInsensitiveMatch | MindSpider/DeepSentimentCrawling/MediaCrawler/import_xhs_from_excel.py:105 | the label "Note_ID" is found for note_id |
| Coerce.Get | MindSpider/DeepSentimentCrawling/MediaCrawler/import_xhs_from_excel.py:112-124 | the value is present iff the field is mapped to a non-empty column that the row has with a non-NA cell, and then it is that cell; never NaN |
| Coerce.Trunc | MindSpider/DeepSentimentCrawling/MediaCrawler/import_xhs_from_excel.py:136 | `int(x)` truncates toward zero |
| Coerce.ParseDecimal | MindSpider/DeepSentimentCrawling/MediaCrawler/import_xhs_from_excel.py:139 | `float(text)` on stripped text: an optional sign, digits with an optional fraction or a fraction alone (single underscores allowed between digits), then an optional exponent, valued exactly; None for anything else, nan and infinity included |
| Coerce.ToIntOfNative | MindSpider/DeepSentimentCrawling/MediaCrawler/import_xhs_from_excel.py:135-136 | an integer cell converts to itself, whatever the default |
| Coerce.ToInt | MindSpider/DeepSentimentCrawling/MediaCrawler/import_xhs_from_excel.py:127-142 | with a default, the result always exists |
| Coerce.ToIntTruncatesFloat | MindSpider/DeepSentimentCrawling/MediaCrawler/import_xhs_from_excel.py:135-136 | a finite float converts to its truncation toward zero |
| Coerce.ToIntFallsBack | MindSpider/DeepSentimentCrawling/MediaCrawler/import_xhs_from_excel.py:130-142 | NA, blank or unparsable text, and other types give the default |
| Coerce.ParseDecimalOfDigits | MindSpider/DeepSentimentCrawling/MediaCrawler/import_xhs_from_excel.py:139 | `float(text)` of a signed digit string is its value |
| Coerce.ParseDecimalOfInt | MindSpider/DeepSentimentCrawling/MediaCrawler/import_xhs_from_excel.py:139 | `float(str(n))` is n |
| Coerce.SplitSignOfInt | MindSpider/DeepSentimentCrawling/MediaCrawler/import_xhs_from_excel.py:139 | `str(n)` splits into a minus exactly for negative n and the digits of its magnitude |
| Coerce.DecimalStrips | MindSpider/DeepSentimentCrawling/MediaCrawler/import_xhs_from_excel.py:138 | `str(n)` is non-empty and has nothing to strip |
| Coerce.ToIntOfDecimal | MindSpider/DeepSentimentCrawling/MediaCrawler/import_xhs_from_excel.py:137-139 | text written as an integer converts to that integer, whatever the default |
| Coerce.DigitsValueOfDecimal | MindSpider/DeepSentimentCrawling/MediaCrawler/import_xhs_from_excel.py:139 | reading back the decimal digits of n gives n |
| Coerce.NatToDecimalInjective | MindSpider/DeepSentimentCrawling/MediaCrawler/import_xhs_from_excel.py:266 | different numbers have different decimal texts |
| Coerce.CountTextReadsBack | MindSpider/DeepSentimentCrawling/MediaCrawler/import_xhs_from_excel.py:238-240 | the stored count text `str(_to_int(v, 0))` reads back as `_to_int(v, 0)` |
| Coerce.CountText | MindSpider/DeepSentimentCrawling/MediaCrawler/import_xhs_from_excel.py:238-240 | an engagement count is written as the decimal text of `_to_int(v, 0)` |
| Coerce.ToTsMs | MindSpider/DeepSentimentCrawling/MediaCrawler/import_xhs_from_excel.py:145-158 | a number is kept as it is; a missing value gives the default; anything else is the parsed date, or the default when parsing fails |
| Coerce.ToTsMsKeepsIntegers | MindSpider/DeepSentimentCrawling/MediaCrawler/import_xhs_from_excel.py:148-151 | a value `_to_int` reads as n gives the timestamp n, unscaled |
| CoerceExamples.TextTruncates | MindSpider/DeepSentimentCrawling/MediaCrawler/import_xhs_from_excel.py:137-139 | the text "12.9" converts to 12 |
| CoerceExamples.ParseTwelvePointNine | MindSpider/DeepSentimentCrawling/MediaCrawler/import_xhs_from_excel.py:139 | `float("12.9")` is 12.9 |
| CoerceExamples.NegativeFloatTruncates | MindSpider/DeepSentimentCrawling/MediaCrawler/import_xhs_from_excel.py:135-136 | -3.9 converts to -3, not -4 |
| CoerceExamples.SecondsAreNotScaled | MindSpider/DeepSentimentCrawling/MediaCrawler/import_xhs_from_excel.py:148-151 | a timestamp in seconds is stored as it is |
| Layout.ReadSheet | MindSpider/DeepSentimentCrawling/MediaCrawler/import_xhs_from_excel.py:161-168 | None iff no sheet has the name; otherwise a sheet of the workbook with that name |
| Layout.ChooseLayout | MindSpider/DeepSentimentCrawling/MediaCrawler/import_xhs_from_excel.py:195-207 | the layout choice: one sheet feeds notes and creators and no comments; otherwise each section reads its own named sheet |
| Layout.SingleSheetLayout | MindSpider/DeepSentimentCrawling/MediaCrawler/import_xhs_from_excel.py:195-203 | a one-sheet workbook feeds notes and creators from its sheet, and gives no comment sheet |
| Layout.MultiSheetLayout | MindSpider/DeepSentimentCrawling/MediaCrawler/import_xhs_from_excel.py:204-207 | otherwise each section depends on its own sheet name only, and is absent iff no sheet has that name |
| CreatorImport.ImportCreators | MindSpider/DeepSentimentCrawling/MediaCrawler/import_xhs_from_excel.py:215-248 | the loop builds the creator section, and no two creators share a user id |
| CreatorImport.CreatorKey | MindSpider/DeepSentimentCrawling/MediaCrawler/import_xhs_from_excel.py:223-226 | a row carries the identity `str(user_id)` when its user_id cell is truthy, and no identity otherwise |
| CreatorImport.CreatorOf | MindSpider/DeepSentimentCrawling/MediaCrawler/import_xhs_from_excel.py:231-244 | the creator record: the row's profile cells, the three counts as count texts, both timestamps the import's clock reading |
| CreatorImport.Creators | MindSpider/DeepSentimentCrawling/MediaCrawler/import_xhs_from_excel.py:222-245 | the creators loop as a function of the rows seen: a row with a new identity appends its record, any other row adds nothing |
| CreatorImport.CreatorSection | MindSpider/DeepSentimentCrawling/MediaCrawler/import_xhs_from_excel.py:215-248 | no creators without a non-empty sheet or without a user_id column; otherwise the creators loop over its rows |
| CreatorImport.UserIdsAppend | MindSpider/DeepSentimentCrawling/MediaCrawler/import_xhs_from_excel.py:230 | appending a creator adds its id to the seen set |
| CreatorImport.CreatorIds | MindSpider/DeepSentimentCrawling/MediaCrawler/import_xhs_from_excel.py:222-230 | an id is in the batch iff some row carries it under a truthy user_id |
| CreatorImport.CreatorsDistinct | MindSpider/DeepSentimentCrawling/MediaCrawler/import_xhs_from_excel.py:227-230 | the user ids of the batch are pairwise distinct |
| CreatorImport.CreatorsAreFirstOccurrences | MindSpider/DeepSentimentCrawling/MediaCrawler/import_xhs_from_excel.py:222-245 | the batch equals the reference "one record per first row of each id, in row order", each built from that first row |
| CreatorImport.FirstOccurrences | MindSpider/DeepSentimentCrawling/MediaCrawler/import_xhs_from_excel.py:227-230 | the reference definition: one record for each row whose identity no earlier row carries, in row order |
| CreatorImport.CreatorsComplete | MindSpider/DeepSentimentCrawling/MediaCrawler/import_xhs_from_excel.py:223-230 | every row with a truthy user_id has its id in the batch |
| CreatorImportExamples.FirstRowWins | MindSpider/DeepSentimentCrawling/MediaCrawler/import_xhs_from_excel.py:227-229 | two rows for one account give one creator with the first row's nickname |
| NoteImport.MergeTagList | MindSpider/DeepSentimentCrawling/MediaCrawler/import_xhs_from_excel.py:272-281 | the tag loop computes the merged tag text |
| NoteImport.LeadTag | MindSpider/DeepSentimentCrawling/MediaCrawler/import_xhs_from_excel.py:279-280 | the stripped text of the tag-list cell, when it is present and not blank |
| NoteImport.ExtraTagOf | MindSpider/DeepSentimentCrawling/MediaCrawler/import_xhs_from_excel.py:275-278 | a category column contributes its stripped cell when the sheet has the column and the cell is non-blank text |
| NoteImport.ExtraTags | MindSpider/DeepSentimentCrawling/MediaCrawler/import_xhs_from_excel.py:273-278 | the category tags of a row, in column order |
| NoteImport.TagParts | MindSpider/DeepSentimentCrawling/MediaCrawler/import_xhs_from_excel.py:272-280 | the tag-list text first, then the category tags |
| NoteImport.MergedTags | MindSpider/DeepSentimentCrawling/MediaCrawler/import_xhs_from_excel.py:281 | the parts joined by " \| ", None when there are none |
| NoteImport.ImportNotes | MindSpider/DeepSentimentCrawling/MediaCrawler/import_xhs_from_excel.py:251-314 | the loop builds the note section |
| NoteImport.RowId | MindSpider/DeepSentimentCrawling/MediaCrawler/import_xhs_from_excel.py:266 | the generated id of the row at position idx is `row_` followed by the decimal of idx + 1 |
| NoteImport.NoteIdOf | MindSpider/DeepSentimentCrawling/MediaCrawler/import_xhs_from_excel.py:259-266 | with a note-id column, `str` of a truthy note-id cell, and no id when it is falsy; without one, the generated row id |
| NoteImport.NoteOf | MindSpider/DeepSentimentCrawling/MediaCrawler/import_xhs_from_excel.py:268-310 | the note record: user id `str(user_id)` or "unknown", the parsed time, the four counts as count texts, the merged tags, the other cells as they are |
| NoteImport.Notes | MindSpider/DeepSentimentCrawling/MediaCrawler/import_xhs_from_excel.py:258-311 | the notes loop as a function of the rows seen: a row with a note id appends its record, any other row adds nothing |
| NoteImport.NoteSection | MindSpider/DeepSentimentCrawling/MediaCrawler/import_xhs_from_excel.py:251-314 | no notes without a non-empty sheet; otherwise the notes loop over its rows |
| NoteImport.BuildNote | MindSpider/DeepSentimentCrawling/MediaCrawler/import_xhs_from_excel.py:268-310 | the record the loop builds for a kept row is the specified note record |
| NoteImport.NotesFromKeptRows | MindSpider/DeepSentimentCrawling/MediaCrawler/import_xhs_from_excel.py:258-311 | there is one note per kept row, in order, and the k-th note is built from the k-th kept row |
| NoteImport.NotesWithIdColumn | MindSpider/DeepSentimentCrawling/MediaCrawler/import_xhs_from_excel.py:259-263 | with a note-id column, a row is kept iff its note-id cell is truthy |
| NoteImport.NotesWithoutIdColumn | MindSpider/DeepSentimentCrawling/MediaCrawler/import_xhs_from_excel.py:264-266 | without a note-id column, every row gives a note, with id `row_{idx+1}` |
| NoteImport.RowIdsDistinct | MindSpider/DeepSentimentCrawling/MediaCrawler/import_xhs_from_excel.py:266 | generated row ids of different rows differ |
| NoteImport.ExtraTagsMember | MindSpider/DeepSentimentCrawling/MediaCrawler/import_xhs_from_excel.py:274-278 | a text is an extra tag iff some category column of the sheet holds it, stripped and non-blank |
| NoteImport.ExtraTagsClean | MindSpider/DeepSentimentCrawling/MediaCrawler/import_xhs_from_excel.py:277-278 | every extra tag is non-empty and has no surrounding whitespace |
| NoteImport.ExtraTagsLength | MindSpider/DeepSentimentCrawling/MediaCrawler/import_xhs_from_excel.py:274-278 | each category column adds at most one tag |
| NoteImport.TagPartsShape | MindSpider/DeepSentimentCrawling/MediaCrawler/import_xhs_from_excel.py:272-280 | all parts are clean, the tag-list text comes first when present, and there are at most five parts |
| NoteImport.MergedTagsNone | MindSpider/DeepSentimentCrawling/MediaCrawler/import_xhs_from_excel.py:279-281 | the merged tag text is None iff the tag list is blank and no category column has text |
| NoteImportExamples.FourthRowId | MindSpider/DeepSentimentCrawling/MediaCrawler/import_xhs_from_excel.py:264-266 | without a note-id column, the fourth row's note is `row_4` |
| NoteImportExamples.StripPadded | MindSpider/DeepSentimentCrawling/MediaCrawler/import_xhs_from_excel.py:277-280 | padded cell texts strip to their words |
| NoteImportExamples.OneCategory | MindSpider/DeepSentimentCrawling/MediaCrawler/import_xhs_from_excel.py:274-278 | a sheet with only "笔记分类" gives that one stripped extra tag |
| NoteImportExamples.OneCategoryCells | MindSpider/DeepSentimentCrawling/MediaCrawler/import_xhs_from_excel.py:274-278 | in that sheet only the "笔记分类" column contributes, with its stripped text |
| NoteImportExamples.TagsMerge | MindSpider/DeepSentimentCrawling/MediaCrawler/import_xhs_from_excel.py:272-281 | the topic " 护肤 " and category "美妆  " merge to "护肤 \| 美妆" |
| NoteImportExamples.TopicLeads | MindSpider/DeepSentimentCrawling/MediaCrawler/import_xhs_from_excel.py:279-280 | the stripped topic text leads the tag parts |
| CommentImport.ImportComments | MindSpider/DeepSentimentCrawling/MediaCrawler/import_xhs_from_excel.py:317-350 | the loop builds the comment section |
| CommentImport.Accepted | MindSpider/DeepSentimentCrawling/MediaCrawler/import_xhs_from_excel.py:326-329 | a row is kept when both its comment-id cell and its note-id cell are truthy |
| CommentImport.CommentOf | MindSpider/DeepSentimentCrawling/MediaCrawler/import_xhs_from_excel.py:330-346 | the comment record: user id `str(user_id)` or None, both ids as text, the parsed create time, the sub-comment count defaulting to 0, the like count as count text |
| CommentImport.Comments | MindSpider/DeepSentimentCrawling/MediaCrawler/import_xhs_from_excel.py:325-347 | the comments loop as a function of the rows seen: an accepted row appends its record, any other row adds nothing |
| CommentImport.CommentSection | MindSpider/DeepSentimentCrawling/MediaCrawler/import_xhs_from_excel.py:317-350 | no comments without a non-empty sheet or without both id columns; otherwise the comments loop over its rows |
| CommentImport.CommentsFromAcceptedRows | MindSpider/DeepSentimentCrawling/MediaCrawler/import_xhs_from_excel.py:325-347 | one comment per accepted row, in order, the k-th built from the k-th accepted row |
| CommentImport.AcceptedExactly | MindSpider/DeepSentimentCrawling/MediaCrawler/import_xhs_from_excel.py:326-329 | a row is accepted iff both its comment id and its note id are truthy |
| CommentImport.CommentsAndSkipped | MindSpider/DeepSentimentCrawling/MediaCrawler/import_xhs_from_excel.py:325-347 | comments plus skipped rows number the rows |
| CommentImport.SubCommentCountDefaultsToZero | MindSpider/DeepSentimentCrawling/MediaCrawler/import_xhs_from_excel.py:342 | a missing sub-comment count is 0, and an integer text n is n |
| CommentImportExamples.OneKeptOneSkipped | MindSpider/DeepSentimentCrawling/MediaCrawler/import_xhs_from_excel.py:326-329 | a row with an empty comment id is skipped and the other kept, with no user id |
| ExcelImport.ImportFromExcel | MindSpider/DeepSentimentCrawling/MediaCrawler/import_xhs_from_excel.py:171-350 | without a session nothing is imported; otherwise each batch is its section of the chosen layout; creator ids are distinct |
| ExcelImport.SharedUserColumn | MindSpider/DeepSentimentCrawling/MediaCrawler/import_xhs_from_excel.py:63 | notes and creators read user_id from the same column of any sheet |
| ExcelImport.SingleSheetImport | MindSpider/DeepSentimentCrawling/MediaCrawler/import_xhs_from_excel.py:195-203 | a one-sheet workbook imports no comments, and both other batches come from its sheet |
| ExcelImport.SingleSheetNotesHaveCreators | MindSpider/DeepSentimentCrawling/MediaCrawler/import_xhs_from_excel.py:215-245 | in a one-sheet workbook, every note row with a truthy user id has its account among the creators |
| PyText.Trim | InsightEngine/tools/keyword_optimizer.py:258 | `strip(chars)`: empty iff every character is stripped; otherwise neither end is a stripped character |
| PyText.LeadCount | InsightEngine/tools/keyword_optimizer.py:258 | the leading run counted is all stripped characters and is followed by one that is not |
| PyText.EndIndex | InsightEngine/tools/keyword_optimizer.py:258 | the trailing run cut is all stripped characters and is preceded by one that is not |
| PyText.TrimSlice | InsightEngine/tools/keyword_optimizer.py:258 | the result is a slice of the input with only stripped characters around it |
| PyText.TrimNoop | InsightEngine/tools/keyword_optimizer.py:258 | text with nothing to strip is unchanged |
| PyText.TrimKeeps | InsightEngine/tools/keyword_optimizer.py:258 | a character that is not stripped survives |
| PyText.TrimFrom | InsightEngine/tools/keyword_optimizer.py:258 | every character of the result comes from the input |
| PyText.Lower | MindSpider/DeepSentimentCrawling/MediaCrawler/import_xhs_from_excel.py:101 | `lower()` keeps the length |
| PyText.LowerChar | MindSpider/DeepSentimentCrawling/MediaCrawler/import_xhs_from_excel.py:101 | ASCII capitals lower by 32 code points; every other character is unchanged |
| PyText.LowerNoCapitals | MindSpider/DeepSentimentCrawling/MediaCrawler/import_xhs_from_excel.py:105 | text without capitals lowers to itself |
| PyText.SplitOn | InsightEngine/tools/keyword_optimizer.py:237 | `split(sep)` gives at least one part, none containing sep, and two or more when sep occurs |
| PyText.JoinSplitOn | InsightEngine/tools/keyword_optimizer.py:237 | joining the parts of a split with its separator gives back the text |
| PyText.SplitOnFrom | InsightEngine/tools/keyword_optimizer.py:230 | every character of a part comes from the text |
| PyText.SplitOnCovers | InsightEngine/tools/keyword_optimizer.py:230 | every non-separator character lands in some part |
| PyText.Fields | InsightEngine/tools/keyword_optimizer.py:296 | the regex split's non-empty tokens contain no separator |
| PyText.FieldsMaximal | InsightEngine/tools/keyword_optimizer.py:296 | each token is a maximal run of non-separators of the text, at its own position, the tokens in order and separated by at least one separator |
| PyText.FieldsConcat | InsightEngine/tools/keyword_optimizer.py:296 | the tokens together are the text with its separators removed |
| PyText.ContainsSub | InsightEngine/tools/keyword_optimizer.py:282 | `w in s` iff w starts at some position of s |
| PyText.NatToDecimal | MindSpider/DeepSentimentCrawling/MediaCrawler/import_xhs_from_excel.py:266 | `str(n)` is a non-empty digit string |
| PyText.IntToDecimal | MindSpider/DeepSentimentCrawling/MediaCrawler/import_xhs_from_excel.py:238-240 | `str(i)` is non-empty and made of digits and a minus |
| Keywords.Take | InsightEngine/tools/keyword_optimizer.py:285 | `s[:n]` is a prefix of at most n items, the whole list when it is short |
| Keywords.CleanKeyword | InsightEngine/tools/keyword_optimizer.py:258 | a cleaned keyword has no quote at either end |
| Keywords.ValidateKeywords | InsightEngine/tools/keyword_optimizer.py:264-285 | the loop returns the first twenty validated keywords |
| Keywords.Acceptable | InsightEngine/tools/keyword_optimizer.py:279-282 | a cleaned keyword passes when it is one to twenty characters long and contains no banned phrase |
| Keywords.ValidKeyword | InsightEngine/tools/keyword_optimizer.py:275-283 | a text item yields its cleaned form when that passes; other items yield nothing |
| Keywords.Validated | InsightEngine/tools/keyword_optimizer.py:274-283 | the validation loop as a function of the items seen |
| Keywords.ValidateKeywordsShape | InsightEngine/tools/keyword_optimizer.py:274-285 | at most twenty keywords, each of one to twenty characters, without banned phrases or end quotes, each the cleaned form of a text item |
| Keywords.ValidateKeepsAllWhenFew | InsightEngine/tools/keyword_optimizer.py:285 | with twenty or fewer valid keywords none is dropped |
| Keywords.FallbackKeywordExtraction | InsightEngine/tools/keyword_optimizer.py:287-309 | the loop computes the fallback keywords |
| Keywords.IsQuerySeparator | InsightEngine/tools/keyword_optimizer.py:296 | the separators of the split: whitespace and the punctuation "，。！？；：、" |
| Keywords.KeepToken | InsightEngine/tools/keyword_optimizer.py:300-301 | a token is kept when its stripped form is non-empty, not a stop word and at least two characters long |
| Keywords.KeptTokens | InsightEngine/tools/keyword_optimizer.py:299-302 | the token loop as a function of the tokens seen: the kept tokens, stripped, in order |
| Keywords.Fallback | InsightEngine/tools/keyword_optimizer.py:287-309 | the kept tokens, at most twenty; when none, the first whitespace-separated word, else the query, else "热门" |
| Keywords.TokenKeywords | InsightEngine/tools/keyword_optimizer.py:298-302 | the token loop keeps exactly the tokens the fallback keeps |
| Keywords.FieldTokenKept | InsightEngine/tools/keyword_optimizer.py:299-302 | tokens of the split are already stripped, so a token is kept iff it has two or more characters |
| Keywords.FallbackBounds | InsightEngine/tools/keyword_optimizer.py:305-309 | the fallback always returns one to twenty non-empty keywords |
| Keywords.FallbackFromTokens | InsightEngine/tools/keyword_optimizer.py:299-302 | when some token is kept, every keyword has two or more characters and no separator |
| Keywords.FallbackBlank | InsightEngine/tools/keyword_optimizer.py:305-307 | a whitespace-only query gives itself, and the empty query gives "热门" |
| Keywords.StripEach | InsightEngine/tools/keyword_optimizer.py:242 | stripping each piece keeps the number of pieces |
| Keywords.LineCandidates | InsightEngine/tools/keyword_optimizer.py:236-246 | a stripped line with a colon yields the text after its first full-width colon (or, lacking one, its first colon) up to the next one, stripped and split on "、" or else "," |
| Keywords.Candidates | InsightEngine/tools/keyword_optimizer.py:233-246 | the line loop as a function of the lines seen: each line's candidates, in order |
| Keywords.CloseQuote | InsightEngine/tools/keyword_optimizer.py:252 | the lazy group stops at the first quote, and no newline comes before it |
| Keywords.FindQuoted | InsightEngine/tools/keyword_optimizer.py:252 | every quoted text is free of quotes and newlines |
| Keywords.FindQuotedOpening | InsightEngine/tools/keyword_optimizer.py:252 | a text opening with a quote closed later on its line yields the text between the quotes first, and the scan resumes after the closing quote |
| Keywords.ExtractKeywordsFromText | InsightEngine/tools/keyword_optimizer.py:227-262 | the loops compute the extracted keywords |
| Keywords.CleanedCandidate | InsightEngine/tools/keyword_optimizer.py:258-259 | a candidate yields its cleaned form when that is one to twenty characters long |
| Keywords.CleanAll | InsightEngine/tools/keyword_optimizer.py:256-260 | the cleaning loop as a function of the candidates seen |
| Keywords.Considered | InsightEngine/tools/keyword_optimizer.py:249-257 | the first twenty of the colon candidates, or of the quoted texts when there are no colon candidates |
| Keywords.ExtractFromText | InsightEngine/tools/keyword_optimizer.py:227-262 | the first twenty cleaned keywords of the candidates considered |
| Keywords.ColonKeywords | InsightEngine/tools/keyword_optimizer.py:233-246 | the line loop collects exactly the candidates after each line's colon |
| Keywords.CleanKeywords | InsightEngine/tools/keyword_optimizer.py:256-260 | the cleaning loop keeps exactly the cleaned candidates of reasonable length |
| Keywords.CleanAllShape | InsightEngine/tools/keyword_optimizer.py:256-262 | every one of the first twenty cleaned keywords is one to twenty characters long, has no end quote and is the cleaned form of a candidate |
| Keywords.CleanedCandidateShape | InsightEngine/tools/keyword_optimizer.py:258-260 | a candidate that survives cleaning becomes its cleaned form, of reasonable length and with no end quote |
| Keywords.ExtractShape | InsightEngine/tools/keyword_optimizer.py:256-262 | at most twenty keywords of one to twenty characters without end quotes, each the cleaned form of one of the first twenty candidates |
| Keywords.LineCandidatesExist | InsightEngine/tools/keyword_optimizer.py:234-238 | a line yields candidates iff it has a colon |
| Keywords.QuoteFallbackExactly | InsightEngine/tools/keyword_optimizer.py:249 | quoted texts are used iff the text has no colon of either kind |
| KeywordsExamples.CleanPadded | InsightEngine/tools/keyword_optimizer.py:258 | ` "美妆" ` cleans to "美妆" |
| KeywordsExamples.ShortTextIsClean | InsightEngine/tools/keyword_optimizer.py:282 | "美妆" has no banned phrase |
| KeywordsExamples.BannedPhraseFound | InsightEngine/tools/keyword_optimizer.py:282 | "态度分析报告" contains a banned phrase |
| KeywordsExamples.ItemVerdicts | InsightEngine/tools/keyword_optimizer.py:275-283 | verdicts on a padded word, a banned phrase, a non-text item and the empty text |
| KeywordsExamples.ValidateExample | InsightEngine/tools/keyword_optimizer.py:274-285 | of four such items only "美妆" survives |
| KeywordsExamples.FullWidthColonFirst | InsightEngine/tools/keyword_optimizer.py:237 | a line with both colons splits on the full-width one |
| KeywordsExamples.QuotedTexts | InsightEngine/tools/keyword_optimizer.py:252 | a single quote can close a double-quoted text |
| KeywordsExamples.ShortQueryFallsBack | InsightEngine/tools/keyword_optimizer.py:305-307 | a one-character query gives itself |
| Cells.PositionsExact | MindSpider/DeepSentimentCrawling/MediaCrawler/import_xhs_from_excel.py:258-263 | the kept positions are exactly the rows satisfying the test, in increasing order |
| Cells.PositionsSound | MindSpider/DeepSentimentCrawling/MediaCrawler/import_xhs_from_excel.py:258-263 | every kept position is a row satisfying the test, and positions increase |
| Cells.PositionsComplete | MindSpider/DeepSentimentCrawling/MediaCrawler/import_xhs_from_excel.py:258-263 | every row satisfying the test has its position kept |
| Cells.RowsMapAtPositions | MindSpider/DeepSentimentCrawling/MediaCrawler/import_xhs_from_excel.py:256-312 | a loop that appends at most one record per row makes one record per kept row, the k-th from the k-th kept row |
| Cells.RowsMapEvery | MindSpider/DeepSentimentCrawling/MediaCrawler/import_xhs_from_excel.py:264-266 | when every row gives a record, the k-th record comes from row k |
| Cells.PositionsSplit | MindSpider/DeepSentimentCrawling/MediaCrawler/import_xhs_from_excel.py:325-329 | kept and skipped positions number the rows |
| Cells.Truthy | MindSpider/DeepSentimentCrawling/MediaCrawler/import_xhs_from_excel.py:224 | `bool(v)`: None, zero and the empty text are false; NaN and every other value are true |
| Cells.PyStr | MindSpider/DeepSentimentCrawling/MediaCrawler/import_xhs_from_excel.py:226 | `str(v)`: "None", "nan", the decimal of an integer, the text itself, and the library's rendering of a float |
| Cells.RowsMap | MindSpider/DeepSentimentCrawling/MediaCrawler/import_xhs_from_excel.py:258-311 | a row loop that appends at most one record per row, as a function of the rows seen |
| Wrappers.FilterMapMember | InsightEngine/tools/keyword_optimizer.py:274-283 | an item is in a filtered list iff some input yields it |
| Wrappers.FilterMapLength | InsightEngine/tools/keyword_optimizer.py:274-283 | filtering never lengthens a list |
| Wrappers.FilterMapSnoc | InsightEngine/tools/keyword_optimizer.py:274-283 | one more input adds what it yields to the end |
| Wrappers.FlatMapEmpty | InsightEngine/tools/keyword_optimizer.py:233-246 | the flattened list is empty iff every input yields nothing |

## Left out

- File-system checks and workbook I/O are not modelled: the `path.exists()` check, `FileNotFoundError`, reading the sheets. A workbook is a list of named sheets with their header and rows. When `pd.ExcelFile` fails, the source falls back to reading sheets by name; the model assumes it succeeds.
- The database writes (`session.add_all`), the session itself and the async context are not modelled. `ImportFromExcel` returns the three batches, and a `hasSession` flag stands for whether `get_session()` yielded a session.
- Logging, the command-line entry point (`_main_async`, `main`) and table creation are not modelled.
- The ORM columns the importer always sets to None are not modelled: `type`, `video_url`, `image_list` and `xsec_token` on notes.
- Cell values: the model has no bool cells and treats numpy scalar types (numpy `int64` and friends) as Python `int` and `float`. A bool is an `int` in Python; the model has no such case.
- Column labels are modelled as text (`Sheet.header` is a sequence of strings). pandas gives a numeric or date heading cell as an int, float or Timestamp label; `c.lower()` at import_xhs_from_excel.py:101 then raises `AttributeError`, nothing in the import catches it, and the import aborts. The model has no such sheet.
- Coerce.ToInt: `float(text)` is modelled as a decimal-literal parser that keeps the exact decimal value, and three behaviours of Python's `float` are not modelled:
  - Binary rounding: Python rounds the literal to the nearest double, so `int(float("2.9999999999999999999"))` is 3, while the model truncates the exact value to 2.
  - Overflow: a finite literal too large for a double (`"1e309"`) becomes infinity, and `int()` then raises an `OverflowError` that nothing catches, which aborts the import. The model returns 10^309. Text spelling infinity (`"inf"`) fails the same way in the source; the model reads it as unparsable and gives the default.
  - Unicode digits outside ASCII are read as unparsable, giving the default.
- Coerce.ParseDecimal: keeps the exact decimal value where Python's `float` rounds to the nearest double (as for "2.9999999999999999999", or integer text above 2^53), returns the finite value of a literal such as "1e309" that `float` turns into infinity, and returns None for "inf", "nan" and non-ASCII digits, which `float` accepts.
- Python's `str()` of a float and `pd.to_datetime(...)` are not modelled; they are the `Library` parameter's functions.
- PyText.Lower: `str.lower()` is modelled on ASCII letters only; non-ASCII case mapping is not modelled.
- PyText.LowerChar: maps only the ASCII capitals "A" to "Z"; other capitals such as "Ä" or the full-width "Ｉ" stay unchanged, where Python's `lower()` lowers them.
- Rows are assumed to come with the default pandas index, so `idx` in the notes loop is the row's position.
- PyText.Fields: `re.split(r'[\s，。！？；：、]+', ...)` is modelled through its non-empty tokens. The empty tokens at the ends of the regex split are dropped; the loop discards empty tokens anyway, so the keyword lists are the same.
- The keyword optimizer's language-model calls, JSON parsing and prompt building are not modelled; only its three local helpers are.
