/**
 * Which sheets feed which section of an import run: one sheet feeds both
 * notes and creators (and there are no comments); otherwise each of the three
 * sections reads its own named sheet, which may be absent.
 */
module Layout {
  import opened Wrappers
  import opened Cells

  /** The sheets of a workbook, in workbook order. */
  type Workbook = seq<Sheet>

  /** `_read_sheet(path, name)`: the sheet with that name, or None when the
      workbook has none (the reader's ValueError). */
  function ReadSheet(wb: Workbook, name: string): (r: Option<Sheet>)
    ensures r.None? <==> forall i :: 0 <= i < |wb| ==> wb[i].name != name
    ensures r.Some? ==> r.value in wb && r.value.name == name
  {
    if wb == [] then None
    else if wb[0].name == name then Some(wb[0])
    else
      var r := ReadSheet(wb[1..], name);
      assert forall i :: 1 <= i < |wb| ==> wb[i] == wb[1..][i - 1];
      r
  }

  /** The row sources of the three sections. */
  datatype Sources = Sources(notes: Option<Sheet>, creators: Option<Sheet>, comments: Option<Sheet>)

  /** The layout choice of `import_from_excel`. */
  function ChooseLayout(wb: Workbook, notesSheet: string, creatorsSheet: string, commentsSheet: string): Sources {
    if |wb| == 1 then Sources(Some(wb[0]), Some(wb[0]), None)
    else Sources(ReadSheet(wb, notesSheet), ReadSheet(wb, creatorsSheet), ReadSheet(wb, commentsSheet))
  }

  /** A one-sheet workbook feeds that same sheet to notes and creators and has
      no comments, whatever the configured sheet names are. */
  lemma SingleSheetLayout(wb: Workbook, notesSheet: string, creatorsSheet: string, commentsSheet: string)
    requires |wb| == 1
    ensures var src := ChooseLayout(wb, notesSheet, creatorsSheet, commentsSheet);
      src.notes == src.creators == Some(wb[0]) && src.comments.None?
  {
  }

  /** With any other number of sheets, each section's source depends on its
      own sheet name only, and is None exactly when no sheet has that name:
      a missing sheet does not affect the other two. */
  lemma MultiSheetLayout(wb: Workbook, notesSheet: string, creatorsSheet: string, commentsSheet: string,
                         notes2: string, creators2: string, comments2: string)
    requires |wb| != 1
    ensures var src := ChooseLayout(wb, notesSheet, creatorsSheet, commentsSheet);
      && src.notes == ChooseLayout(wb, notesSheet, creators2, comments2).notes
      && src.creators == ChooseLayout(wb, notes2, creatorsSheet, comments2).creators
      && src.comments == ChooseLayout(wb, notes2, creators2, commentsSheet).comments
    ensures var src := ChooseLayout(wb, notesSheet, creatorsSheet, commentsSheet);
      && (src.notes.None? <==> forall i :: 0 <= i < |wb| ==> wb[i].name != notesSheet)
      && (src.creators.None? <==> forall i :: 0 <= i < |wb| ==> wb[i].name != creatorsSheet)
      && (src.comments.None? <==> forall i :: 0 <= i < |wb| ==> wb[i].name != commentsSheet)
  {
  }
}
