/** What a row of the result table offers: the detail link opened on double-click (`open_link`,
    narasearch_v1.py, lines 576-586) and the attachment downloads of the context menu
    (`show_context_menu`, lines 591-641). */
module RowActions {
  import opened Common
  import opened Text
  import opened Decimal
  import opened Projection
  import Search

  /** The cell of `row` under column `name`, when the table has that column and that row. */
  function CellAt(t: Table, row: nat, name: string): (c: Option<Cell>)
    requires Rectangular(t)
    ensures c.Some? <==> row < |t.rows| && name in t.columns
  {
    match IndexOf(t.columns, name)
    case None => None
    case Some(k) => if row < |t.rows| then Some(t.rows[row][k]) else None
  }

  /** What a double-click on a row does. */
  datatype LinkAction = Open(url: string) | NoValidLink | Ignored

  const NoValidLinkMessage: string := "유효한 상세 링크가 없습니다."

  /** `open_link`: the row's `상세링크` text is opened when it is non-empty and starts with
      "http"; NaN prints as "nan" and is refused; a row the table lacks raises and is ignored. */
  function OpenLink(t: Table, row: nat): (a: LinkAction)
    requires Rectangular(t)
    ensures a.Open? <==> exists u :: CellAt(t, row, LinkColumn) == Some(Value(u)) && StartsWith(u, "http")
    ensures a.Open? ==> CellAt(t, row, LinkColumn) == Some(Value(a.url))
    ensures a == Ignored <==> CellAt(t, row, LinkColumn).None?
  {
    match CellAt(t, row, LinkColumn)
    case None => Ignored
    case Some(Missing) => NoValidLink
    case Some(Value(u)) => if u != "" && StartsWith(u, "http") then Open(u) else NoValidLink
  }

  /** On the results of a search, a row opens exactly its record's `bidNtceDtlUrl`, and only for
      bid notices whose records carry the link and when that text starts with "http". */
  lemma OpenLinkOnResults(items: seq<Record>, category: string, row: nat)
    requires row < |items|
    ensures var a := OpenLink(DisplayTable(items, category), row);
      && (a.Open? <==>
            category == Search.BidNotice && LinkSource in items[row] && StartsWith(items[row][LinkSource], "http"))
      && (a.Open? ==> a.url == items[row][LinkSource])
  {
    var d := DisplayTable(items, category);
    LinkColumnCells(items, category);
    var k := IndexOf(d.columns, LinkColumn).value;
    assert CellAt(d, row, LinkColumn) == Some(d.rows[row][k]);
    if category == Search.BidNotice && LinkSource in items[row] {
      assert LinkSource in Present(items);
    }
  }

  /** One context-menu entry: a disabled caption, or a download of `url`. */
  datatype MenuItem = Caption(text: string) | DownloadItem(caption: string, url: string)

  /** Where a category keeps its attachment URLs and how the menu names them. */
  datatype Slots = Slots(prefix: string, count: nat, word: string)

  function SlotsFor(category: string): Slots
  {
    if category == Search.BidNotice then Slots(BidFilePrefix, 10, "첨부파일") else Slots(PreSpecFilePrefix, 5, "규격문서")
  }

  /** A cell worth offering: a text that is not blank and is not NaN's printed form. */
  predicate Usable(c: Cell)
  {
    c.Value? && Strip(c.text) != "" && c.text != "nan"
  }

  function DownloadLabel(word: string, i: nat): string
  {
    word + " " + DigitsOf(i) + " 다운로드"
  }

  /** The entry attachment slot `i` contributes, if any. */
  function SlotEntry(t: Table, row: nat, slots: Slots, i: nat): Option<MenuItem>
    requires Rectangular(t)
  {
    match CellAt(t, row, slots.prefix + DigitsOf(i))
    case Some(c) => if Usable(c) then Some(DownloadItem(DownloadLabel(slots.word, i), c.text)) else None
    case None => None
  }

  /** The slots a category looks at are its schema's attachment columns. */
  lemma SlotsAreFileColumns(category: string, i: nat)
    requires 1 <= i <= SlotsFor(category).count
    ensures SlotsFor(category).prefix + DigitsOf(i) in SchemaFor(category).fileColumns
  {
    assert SchemaFor(category).fileColumns[i - 1] == SlotsFor(category).prefix + DigitsOf(i);
  }

  /** On the results of a search, slot `i` of a row offers the record's own attachment URL under
      the slot's label, exactly when the record has a usable text there. */
  lemma SlotEntryOnResults(items: seq<Record>, category: string, row: nat, i: nat)
    requires row < |items| && 1 <= i <= SlotsFor(category).count
    ensures var slots := SlotsFor(category);
      var col := slots.prefix + DigitsOf(i);
      SlotEntry(DisplayTable(items, category), row, slots, i)
        == if col in items[row] && Usable(Value(items[row][col]))
           then Some(DownloadItem(DownloadLabel(slots.word, i), items[row][col]))
           else None
  {
    var slots := SlotsFor(category);
    var col := slots.prefix + DigitsOf(i);
    var d := DisplayTable(items, category);
    var cell := CellAt(d, row, col);
    assert cell == (if col in Present(items) then Some(CellOf(items[row], col)) else None) by {
      SlotsAreFileColumns(category, i);
      FileColumnAt(items, category, col);
    }
    SlotEntryFrom(d, row, slots, i, cell);
    if col in items[row] {
      assert col in Present(items);
    }
  }

  /** A slot's entry depends only on the cell found under its column. */
  lemma SlotEntryFrom(t: Table, row: nat, slots: Slots, i: nat, cell: Option<Cell>)
    requires Rectangular(t) && CellAt(t, row, slots.prefix + DigitsOf(i)) == cell
    ensures SlotEntry(t, row, slots, i)
      == if cell.Some? && Usable(cell.value) then Some(DownloadItem(DownloadLabel(slots.word, i), cell.value.text)) else None
  {
  }

  /** What slots 1 .. count contribute, in slot order. */
  function SlotEntries(t: Table, row: nat, slots: Slots): (entries: seq<Option<MenuItem>>)
    requires Rectangular(t)
    ensures |entries| == slots.count
    ensures forall k :: 0 <= k < slots.count ==> entries[k] == SlotEntry(t, row, slots, k + 1)
  {
    seq(slots.count, k requires 0 <= k < slots.count => SlotEntry(t, row, slots, k + 1))
  }

  const MenuHeader: string := "--- 다운로드 목록 ---"
  const NoDownloadsMessage: string := "다운로드 가능한 규격문서가 없습니다."

  /** Some slot of the row holds a usable attachment. */
  predicate HasAttachment(t: Table, row: nat, slots: Slots)
    requires Rectangular(t)
  {
    exists i :: 1 <= i <= slots.count && SlotEntry(t, row, slots, i).Some?
  }

  /** Nothing is found exactly when no slot holds a usable attachment. */
  lemma NoEntriesFound(t: Table, row: nat, slots: Slots)
    requires Rectangular(t)
    ensures |Somes(SlotEntries(t, row, slots))| == 0 <==> !HasAttachment(t, row, slots)
  {
    var entries := SlotEntries(t, row, slots);
    NoSomes(entries);
    if HasAttachment(t, row, slots) {
      var i :| 1 <= i <= slots.count && SlotEntry(t, row, slots, i).Some?;
      assert entries[i - 1].Some?;
    } else {
      forall k | 0 <= k < |entries| ensures entries[k].None? {
        assert entries[k] == SlotEntry(t, row, slots, k + 1);
      }
    }
  }

  /** The context menu of `row`: a header and the downloads, or a single disabled notice; no
      menu at all for a position outside the table. */
  function ContextMenu(t: Table, row: nat, category: string): (menu: seq<MenuItem>)
    requires Rectangular(t)
    ensures row >= |t.rows| ==> menu == []
    ensures row < |t.rows| ==> |menu| > 0 && menu[0].Caption?
    ensures forall m :: m in menu && m.DownloadItem? ==>
      exists i :: 1 <= i <= SlotsFor(category).count && SlotEntry(t, row, SlotsFor(category), i) == Some(m)
    ensures row < |t.rows| && !HasAttachment(t, row, SlotsFor(category)) ==>
      menu == [Caption(NoDownloadsMessage)]
    ensures row < |t.rows| && HasAttachment(t, row, SlotsFor(category)) ==>
      menu[0] == Caption(MenuHeader) && menu[1..] == Somes(SlotEntries(t, row, SlotsFor(category)))
  {
    if row >= |t.rows| then []
    else
      var slots := SlotsFor(category);
      var found := Somes(SlotEntries(t, row, slots));
      NoEntriesFound(t, row, slots);
      if |found| == 0 then [Caption(NoDownloadsMessage)] else [Caption(MenuHeader)] + found
  }

  /** Every usable attachment of the row is offered, under its slot's label, with its URL. */
  lemma ContextMenuComplete(t: Table, row: nat, category: string, i: nat)
    requires Rectangular(t) && row < |t.rows|
    requires 1 <= i <= SlotsFor(category).count
    requires SlotEntry(t, row, SlotsFor(category), i).Some?
    ensures SlotEntry(t, row, SlotsFor(category), i).value in ContextMenu(t, row, category)
  {
    var slots := SlotsFor(category);
    var entries := SlotEntries(t, row, slots);
    assert entries[i - 1] == SlotEntry(t, row, slots, i);
  }

}
