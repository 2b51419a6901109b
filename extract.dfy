/** The two extractors of main.go. What goquery finds in the document is
    taken as input: the text of the `h1.page-title` selection for the title,
    and for the payments the texts of the cells matched by
    `table.pension-payments tbody tr td`, in document order, or `None` when
    the selection has no node set. */
module Extract {
  import opened Outcomes
  import opened Whitespace

  /** The zero-based position of the payments cell among the matched cells. */
  const PaymentsCell: nat := 10

  /** `getTitle`: the heading text is an error exactly when it is empty, and
      is otherwise passed on exactly as found, without trimming. */
  function GetTitle(heading: string): (r: Result<string>)
    ensures r.Err? <==> heading == ""
    ensures r.Err? ==> r.error == TitleNotFound
    ensures r.Ok? ==> r.value == heading
  {
    if heading == "" then Err(TitleNotFound) else Ok(heading)
  }

  /** What `getPaymentsInfo` returns, as a specification: a nil selection is
      "data not found"; otherwise the collapsed text of the cell at index 10,
      or "" when there are fewer than 11 cells. */
  function PaymentsInfo(selection: Option<seq<string>>): Result<string>
  {
    match selection
    case None => Err(PaymentsNotFound)
    case Some(cells) => Ok(if PaymentsCell < |cells| then Collapse(cells[PaymentsCell]) else "")
  }

  /** `getPaymentsInfo`: after the nil check, a loop over every matched cell
      that keeps the collapsed text of the cell whose index is 10. */
  method GetPaymentsInfo(selection: Option<seq<string>>) returns (r: Result<string>)
    ensures r == PaymentsInfo(selection)
  {
    if selection.None? {
      return Err(PaymentsNotFound);
    }
    var cells := selection.value;
    var info := "";
    for i := 0 to |cells|
      invariant info == if PaymentsCell < i then Collapse(cells[PaymentsCell]) else ""
    {
      if i == PaymentsCell {
        info := Collapse(cells[i]);
      }
    }
    return Ok(info);
  }

  // ---------------------------------------------------------------------
  // Properties of the payments extractor

  /** A nil selection fails with "data not found" and yields no string; every
      other selection succeeds. */
  lemma PaymentsFailsExactlyOnNil(selection: Option<seq<string>>)
    ensures PaymentsInfo(selection).Err? <==> selection.None?
    ensures PaymentsInfo(selection).Err? ==> PaymentsInfo(selection).error == PaymentsNotFound
  {
  }

  /** Fewer than 11 cells, none included, is a success with the empty string. */
  lemma PaymentsShortSelectionIsEmpty(cells: seq<string>)
    requires |cells| <= PaymentsCell
    ensures PaymentsInfo(Some(cells)) == Ok("")
  {
  }

  /** With at least 11 cells the result is the collapse of cell 10: its fields
      joined by single spaces, trimmed, with no doubled white space and no
      white space but ' ', and with the cell's other runes all kept. */
  lemma PaymentsPicksCellTen(cells: seq<string>)
    requires PaymentsCell < |cells|
    ensures PaymentsInfo(Some(cells)) == Ok(Collapse(cells[PaymentsCell]))
    ensures Fields(PaymentsInfo(Some(cells)).value) == Fields(cells[PaymentsCell])
    ensures IsCollapsed(PaymentsInfo(Some(cells)).value)
    ensures RemoveSpaces(PaymentsInfo(Some(cells)).value) == RemoveSpaces(cells[PaymentsCell])
  {
    CollapsePreservesContent(cells[PaymentsCell]);
  }

  /** Every successful result has collapsed shape, so collapsing it again
      changes nothing. */
  lemma PaymentsResultIsCollapsed(selection: Option<seq<string>>)
    requires PaymentsInfo(selection).Ok?
    ensures IsCollapsed(PaymentsInfo(selection).value)
    ensures Collapse(PaymentsInfo(selection).value) == PaymentsInfo(selection).value
  {
    var cells := selection.value;
    if PaymentsCell < |cells| {
      CollapseIdempotent(cells[PaymentsCell]);
    }
  }

  /** Changing the text of any cell other than cell 10 leaves the result as it
      was. */
  lemma PaymentsIgnoresOtherCells(cells: seq<string>, j: nat, text: string)
    requires j < |cells| && j != PaymentsCell
    ensures PaymentsInfo(Some(cells[j := text])) == PaymentsInfo(Some(cells))
  {
  }

  /** Non-nil selections with no usable cell 10 are indistinguishable from an
      all-white-space cell 10: both succeed with "". */
  lemma PaymentsEmptyIff(cells: seq<string>)
    ensures PaymentsInfo(Some(cells)) == Ok("")
        <==> (|cells| <= PaymentsCell || AllSpace(cells[PaymentsCell]))
  {
    if PaymentsCell < |cells| {
      CollapseEmptyIff(cells[PaymentsCell]);
    }
  }
}
