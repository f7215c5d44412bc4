/** The result tables built by `handle_success` (narasearch_v1.py, lines 710-836): the records
    become a frame whose columns are the union of their keys, the budget column is formatted,
    and two projections are taken per category, one for the screen and one for export. */
module Projection {
  import opened Common
  import opened Decimal
  import opened Money
  import Search

  /** A frame cell: a text, or `Missing` where the record lacks the key (pandas' NaN). */
  datatype Cell = Value(text: string) | Missing

  /** A table: column names and rows of cells aligned with them. */
  datatype Table = Table(columns: seq<string>, rows: seq<seq<Cell>>)

  predicate Rectangular(t: Table)
  {
    forall i :: 0 <= i < |t.rows| ==> |t.rows[i]| == |t.columns|
  }

  /** The columns of the frame built from the records: every key of every record. */
  function Present(items: seq<Record>): set<string>
  {
    set i, k | 0 <= i < |items| && k in items[i] :: k
  }

  function CellOf(r: Record, c: string): Cell
  {
    if c in r then Value(r[c]) else Missing
  }

  const BudgetColumn: string := "asignBdgtAmt"
  const LinkSource: string := "bidNtceDtlUrl"
  const LinkColumn: string := "상세링크"

  /** `format_money` applied to a budget cell; NaN fails inside the `try` and prints as "nan". */
  function FormatBudget(c: Cell): (r: Cell)
    ensures r.Value?
    ensures c.Missing? ==> r == Value("nan")
  {
    match c
    case Missing => Value("nan")
    case Value(x) => Value(FormatMoney(x))
  }

  /** A cell of the frame after the budget column has been formatted in place. */
  function FrameCell(r: Record, c: string): Cell
  {
    if c == BudgetColumn then FormatBudget(CellOf(r, c)) else CellOf(r, c)
  }

  /** Which columns a category shows and exports, and under which names. */
  datatype Schema = Schema(
    base: seq<string>,
    link: Option<string>,
    fileColumns: seq<string>,
    rename: map<string, string>,
    save: seq<string>,
    saveRename: map<string, string>)

  /** The attachment URL columns `prefix1` .. `prefixN`. */
  function FileColumns(prefix: string, count: nat): (cols: seq<string>)
    ensures |cols| == count
    ensures forall i :: 0 <= i < count ==> cols[i] == prefix + DigitsOf(i + 1)
  {
    seq(count, i requires 0 <= i < count => prefix + DigitsOf(i + 1))
  }

  const BidFilePrefix: string := "ntceSpecDocUrl"
  const PreSpecFilePrefix: string := "specDocFileUrl"

  const BidSchema: Schema := Schema(
    ["bidNtceNo", "bidNtceDt", "bidNtceNm", "ntceInsttNm", "cntrctCnclsMthdNm", "bidBeginDt", "bidClseDt", "asignBdgtAmt"],
    Some(LinkSource),
    FileColumns(BidFilePrefix, 10),
    map[
      "bidNtceNo" := "입찰공고번호", "bidNtceDt" := "입찰공고일시", "bidNtceNm" := "입찰공고명",
      "ntceInsttNm" := "공고기관명", "cntrctCnclsMthdNm" := "계약체결방법명",
      "bidBeginDt" := "입찰개시일시", "bidClseDt" := "입찰마감일시", "asignBdgtAmt" := "배정예산금액",
      "bidNtceDtlUrl" := "상세링크"],
    ["bidNtceNo", "ntceKindNm", "bidNtceDt", "bidNtceNm", "ntceInsttNm", "dminsttNm", "bidMethdNm", "cntrctCnclsMthdNm",
     "bidBeginDt", "bidClseDt", "bidPrtcptLmtYn", "asignBdgtAmt", "sucsfbidLwltRate", "sucsfbidMthdNm"],
    map[
      "bidNtceNo" := "입찰공고번호", "ntceKindNm" := "공고종류명", "bidNtceDt" := "입찰공고일시",
      "bidNtceNm" := "입찰공고명", "ntceInsttNm" := "공고기관명", "dminsttNm" := "수요기관명",
      "bidMethdNm" := "입찰방식명", "cntrctCnclsMthdNm" := "계약체결방법명",
      "bidBeginDt" := "입찰개시일시", "bidClseDt" := "입찰마감일시", "bidPrtcptLmtYn" := "입찰참가제한여부",
      "asignBdgtAmt" := "배정예산금액", "sucsfbidLwltRate" := "낙찰하한율", "sucsfbidMthdNm" := "낙찰방법명"])

  const PreSpecSchema: Schema := Schema(
    ["bfSpecRgstNo", "rcptDt", "prdctClsfcNoNm", "orderInsttNm", "rlDminsttNm", "opninRgstClseDt", "asignBdgtAmt"],
    None,
    FileColumns(PreSpecFilePrefix, 5),
    map[
      "bfSpecRgstNo" := "사전규격등록번호", "rcptDt" := "접수일시", "prdctClsfcNoNm" := "품명(사업명)",
      "orderInsttNm" := "발주기관명", "rlDminsttNm" := "실수요기관명",
      "opninRgstClseDt" := "의견등록마감일시", "asignBdgtAmt" := "배정예산금액"],
    ["bfSpecRgstNo", "refNo", "rcptDt", "prdctClsfcNoNm", "orderInsttNm", "rlDminsttNm",
     "opninRgstClseDt", "asignBdgtAmt", "ofclNm", "ofclTelNo", "dlvrTmlmtDt"],
    map[
      "bfSpecRgstNo" := "사전규격등록번호", "refNo" := "참조번호", "rcptDt" := "접수일시",
      "prdctClsfcNoNm" := "품명(사업명)", "orderInsttNm" := "발주기관명", "rlDminsttNm" := "실수요기관명",
      "opninRgstClseDt" := "의견등록마감일시", "asignBdgtAmt" := "배정예산금액",
      "ofclNm" := "담당자명", "ofclTelNo" := "담당자전화번호", "dlvrTmlmtDt" := "납품기한일시"])

  /** Bid notices use their own schema; any other category text gets the pre-specification one. */
  function SchemaFor(category: string): Schema
  {
    if category == Search.BidNotice then BidSchema else PreSpecSchema
  }

  /** The columns of `cols` that are present, in their order. */
  function KeepPresent(cols: seq<string>, present: set<string>): (r: seq<string>)
    ensures forall c :: c in r <==> c in cols && c in present
    ensures IsSubsequence(r, cols)
  {
    if |cols| == 0 then []
    else
      var rest := KeepPresent(cols[1..], present);
      assert forall c :: c in cols <==> c == cols[0] || c in cols[1..];
      if cols[0] in present then [cols[0]] + rest else rest
  }

  /** The display's source columns: the base list, the detail link when present, then the
      present attachment columns, all filtered to what the frame has. */
  function DisplaySources(s: Schema, present: set<string>): seq<string>
  {
    var withLink := s.base + (if s.link.Some? && s.link.value in present then [s.link.value] else []);
    KeepPresent(withLink + KeepPresent(s.fileColumns, present), present)
  }

  function Renamed(c: string, rename: map<string, string>): string
  {
    if c in rename then rename[c] else c
  }

  /** One projection of the formatted frame: the chosen source columns, renamed. */
  function Project(items: seq<Record>, sources: seq<string>, rename: map<string, string>): (t: Table)
    ensures Rectangular(t) && |t.columns| == |sources| && |t.rows| == |items|
  {
    Table(
      seq(|sources|, j requires 0 <= j < |sources| => Renamed(sources[j], rename)),
      seq(|items|, i requires 0 <= i < |items| =>
        seq(|sources|, j requires 0 <= j < |sources| => FrameCell(items[i], sources[j]))))
  }

  /** Adds an empty `상세링크` column unless the table already has one. */
  function EnsureLink(t: Table): (r: Table)
    requires Rectangular(t)
    ensures Rectangular(r) && |r.rows| == |t.rows|
    ensures LinkColumn in r.columns
    ensures |t.columns| <= |r.columns| && r.columns[..|t.columns|] == t.columns
    ensures forall i, j :: 0 <= i < |t.rows| && 0 <= j < |t.columns| ==> r.rows[i][j] == t.rows[i][j]
    ensures LinkColumn in t.columns ==> r == t
    ensures LinkColumn !in t.columns ==>
      r.columns == t.columns + [LinkColumn] && forall i :: 0 <= i < |r.rows| ==> r.rows[i][|t.columns|] == Value("")
  {
    if LinkColumn in t.columns then t
    else Table(t.columns + [LinkColumn], seq(|t.rows|, i requires 0 <= i < |t.rows| => t.rows[i] + [Value("")]))
  }

  /** The on-screen table. */
  function DisplayTable(items: seq<Record>, category: string): (t: Table)
    ensures Rectangular(t) && |t.rows| == |items|
    ensures LinkColumn in t.columns
  {
    var s := SchemaFor(category);
    EnsureLink(Project(items, DisplaySources(s, Present(items)), s.rename))
  }

  /** The table kept for the Excel export. */
  function ExportTable(items: seq<Record>, category: string): (t: Table)
    ensures Rectangular(t) && |t.rows| == |items|
  {
    var s := SchemaFor(category);
    Project(items, KeepPresent(s.save, Present(items)), s.saveRename)
  }

  /** The indices of the columns hidden on screen: the detail link, then each attachment column
      the display holds. */
  function HiddenColumns(t: Table, fileColumns: seq<string>): (hidden: seq<nat>)
    ensures forall k :: k in hidden ==> k < |t.columns| && (t.columns[k] == LinkColumn || t.columns[k] in fileColumns)
    ensures LinkColumn in t.columns ==> exists k :: k in hidden && t.columns[k] == LinkColumn
    ensures forall c :: c in fileColumns && c in t.columns ==> exists k :: k in hidden && t.columns[k] == c
  {
    (match IndexOf(t.columns, LinkColumn) case Some(k) => [k] case None => [])
    + HiddenFiles(t.columns, fileColumns)
  }

  function HiddenFiles(columns: seq<string>, fileColumns: seq<string>): (hidden: seq<nat>)
    ensures forall k :: k in hidden ==> k < |columns| && columns[k] in fileColumns
    ensures forall c :: c in fileColumns && c in columns ==> exists k :: k in hidden && columns[k] == c
  {
    if |fileColumns| == 0 then []
    else
      (match IndexOf(columns, fileColumns[0]) case Some(k) => [k] case None => [])
      + HiddenFiles(columns, fileColumns[1..])
  }

  /** The status line after a successful search. */
  function StatusLine(category: string, count: nat): string
  {
    "[" + category + "] 검색 완료: " + DigitsOf(count) + "건이 검색되었습니다."
  }

  /** What the screen ends up holding after a successful search. */
  datatype Shown = Shown(display: Table, saved: Table, hidden: seq<nat>, status: string)

  function HandleSuccess(items: seq<Record>, category: string): (v: Shown)
    ensures Rectangular(v.display) && Rectangular(v.saved)
    ensures |v.display.rows| == |items| && |v.saved.rows| == |items|
    ensures LinkColumn in v.display.columns
    ensures forall k :: k in v.hidden ==> k < |v.display.columns|
  {
    var display := DisplayTable(items, category);
    Shown(display, ExportTable(items, category), HiddenColumns(display, SchemaFor(category).fileColumns), StatusLine(category, |items|))
  }

  /** The naming facts the projections rely on: only the detail link is renamed to `상세링크`,
      and attachment columns keep their own names. */
  predicate WellNamed(s: Schema)
  {
    BaseNamesClear(s) && FileNamesKept(s) && LinkNamed(s)
  }

  /** No base column is shown as `상세링크` or under an attachment column's name. */
  predicate BaseNamesClear(s: Schema)
  {
    forall c :: c in s.base ==> Renamed(c, s.rename) != LinkColumn && Renamed(c, s.rename) !in s.fileColumns
  }

  /** Attachment columns are never renamed and are not called `상세링크`. */
  predicate FileNamesKept(s: Schema)
  {
    forall c :: c in s.fileColumns ==> c !in s.rename && c != LinkColumn
  }

  /** The detail link, when the schema has one, is shown as `상세링크` and is no other column. */
  predicate LinkNamed(s: Schema)
  {
    s.link.Some? ==>
      && Renamed(s.link.value, s.rename) == LinkColumn
      && s.link.value !in s.base + s.fileColumns
      && s.link.value != BudgetColumn
  }

  /** The budget column is in both lists and shown under the same name in both tables. */
  predicate BudgetNamed(s: Schema)
  {
    && BudgetColumn in s.base && BudgetColumn in s.save
    && Renamed(BudgetColumn, s.rename) == BudgetTitle && Renamed(BudgetColumn, s.saveRename) == BudgetTitle
  }

  const BudgetTitle: string := "배정예산금액"

  /** An attachment column name starts with its prefix, so it is none of the other names. */
  lemma FileColumnNames(prefix: string, count: nat, names: set<string>)
    requires |prefix| > 0 && prefix[0] != LinkColumn[0]
    requires forall k :: k in names ==> !(|prefix| <= |k| && k[..|prefix|] == prefix)
    ensures forall c :: c in FileColumns(prefix, count) ==> c !in names && c != LinkColumn
  {
    forall c | c in FileColumns(prefix, count) ensures c !in names && c != LinkColumn {
      assert c[..|prefix|] == prefix;
      assert c[0] == prefix[0];
    }
  }

  /** A name that does not begin like the prefix is no attachment column. */
  lemma FileColumnsAvoid(prefix: string, count: nat, name: string)
    requires |prefix| > 0 && |name| > 0 && name[0] != prefix[0]
    ensures name !in FileColumns(prefix, count)
  {
  }

  /** Base columns renamed to names other than `상세링크` that do not begin like the attachment
      prefix are clear of the link and of the attachment columns. */
  lemma ShownNamesAvoidFiles(s: Schema, prefix: string, count: nat)
    requires s.fileColumns == FileColumns(prefix, count) && |prefix| > 0
    requires forall c :: c in s.base ==> RenamedAway(c, s.rename, prefix)
    ensures BaseNamesClear(s)
  {
    forall c | c in s.base ensures Renamed(c, s.rename) != LinkColumn && Renamed(c, s.rename) !in s.fileColumns {
      FileColumnsAvoid(prefix, count, s.rename[c]);
    }
  }

  /** `c` is renamed to a name that is not `상세링크` and does not begin like `prefix`. */
  predicate RenamedAway(c: string, rename: map<string, string>, prefix: string)
    requires |prefix| > 0
  {
    c in rename && rename[c] != LinkColumn && |rename[c]| > 0 && rename[c][0] != prefix[0]
  }

  lemma BidBaseRenamedAway()
    ensures forall c :: c in BidSchema.base ==> RenamedAway(c, BidSchema.rename, BidFilePrefix)
  {
  }

  lemma BidBaseNamesClear()
    ensures BaseNamesClear(BidSchema)
  {
    BidBaseRenamedAway();
    ShownNamesAvoidFiles(BidSchema, BidFilePrefix, 10);
  }

  lemma BidFileNamesKept()
    ensures FileNamesKept(BidSchema)
  {
    FileColumnNames(BidFilePrefix, 10, BidSchema.rename.Keys);
  }

  lemma BidLinkNamed()
    ensures LinkNamed(BidSchema)
  {
  }

  lemma BidWellNamed()
    ensures WellNamed(BidSchema)
  {
    BidBaseNamesClear();
    BidFileNamesKept();
    BidLinkNamed();
  }

  lemma PreSpecBaseRenamedAway()
    ensures forall c :: c in PreSpecSchema.base ==> RenamedAway(c, PreSpecSchema.rename, PreSpecFilePrefix)
  {
  }

  lemma PreSpecBaseNamesClear()
    ensures BaseNamesClear(PreSpecSchema)
  {
    PreSpecBaseRenamedAway();
    ShownNamesAvoidFiles(PreSpecSchema, PreSpecFilePrefix, 5);
  }

  lemma PreSpecFileNamesKept()
    ensures FileNamesKept(PreSpecSchema)
  {
    FileColumnNames(PreSpecFilePrefix, 5, PreSpecSchema.rename.Keys);
  }

  lemma PreSpecWellNamed()
    ensures WellNamed(PreSpecSchema)
  {
    PreSpecBaseNamesClear();
    PreSpecFileNamesKept();
  }

  lemma BidBudgetNamed()
    ensures BudgetNamed(BidSchema)
  {
  }

  lemma PreSpecBudgetNamed()
    ensures BudgetNamed(PreSpecSchema)
  {
  }

  /** Both schemas carry the budget under its display title. */
  lemma SchemaBudgetNamed(category: string)
    ensures BudgetNamed(SchemaFor(category))
  {
    if category == Search.BidNotice {
      BidBudgetNamed();
    } else {
      PreSpecBudgetNamed();
    }
  }

  lemma SchemaForFacts(category: string)
    ensures WellNamed(SchemaFor(category)) && BudgetNamed(SchemaFor(category))
    ensures SchemaFor(category).link == (if category == Search.BidNotice then Some(LinkSource) else None)
  {
    if category == Search.BidNotice {
      BidWellNamed();
      BidBudgetNamed();
    } else {
      PreSpecWellNamed();
      PreSpecBudgetNamed();
    }
  }

  /** Filtering distributes over concatenation. */
  lemma {:induction false} KeepPresentAppend(a: seq<string>, b: seq<string>, present: set<string>)
    ensures KeepPresent(a + b, present) == KeepPresent(a, present) + KeepPresent(b, present)
    decreases |a|
  {
    if |a| == 0 {
      assert a + b == b;
    } else {
      assert (a + b)[1..] == a[1..] + b;
      KeepPresentAppend(a[1..], b, present);
    }
  }

  /** Filtering twice is filtering once. */
  lemma {:induction false} KeepPresentIdempotent(a: seq<string>, present: set<string>)
    ensures KeepPresent(KeepPresent(a, present), present) == KeepPresent(a, present)
    decreases |a|
  {
    if |a| > 0 {
      KeepPresentIdempotent(a[1..], present);
      if a[0] in present {
        var r := KeepPresent(a, present);
        assert r[0] == a[0] && r[1..] == KeepPresent(a[1..], present);
      }
    }
  }

  /** The display's source columns are the present base columns, then the detail link when
      present, then the present attachment columns in index order; a column is shown exactly
      when it is present and named by one of the three. */
  lemma DisplaySourcesShape(s: Schema, present: set<string>)
    ensures DisplaySources(s, present)
      == KeepPresent(s.base, present)
       + (if s.link.Some? && s.link.value in present then [s.link.value] else [])
       + KeepPresent(s.fileColumns, present)
    ensures forall c :: c in DisplaySources(s, present) <==>
      c in present && (c in s.base || s.link == Some(c) || c in s.fileColumns)
  {
    var linkPart := if s.link.Some? && s.link.value in present then [s.link.value] else [];
    var files := KeepPresent(s.fileColumns, present);
    KeepPresentAppend(s.base + linkPart, files, present);
    KeepPresentAppend(s.base, linkPart, present);
    KeepPresentIdempotent(s.fileColumns, present);
    assert KeepPresent(linkPart, present) == linkPart;
  }

  /** A projected column keeps the cells of its source column, row by row. */
  lemma ProjectColumn(items: seq<Record>, sources: seq<string>, rename: map<string, string>, j: nat)
    requires j < |sources|
    ensures var p := Project(items, sources, rename);
      && p.columns[j] == Renamed(sources[j], rename)
      && forall i :: 0 <= i < |items| ==> p.rows[i][j] == FrameCell(items[i], sources[j])
  {
  }

  /** In a well-named schema only the detail link is shown under `상세링크`. */
  lemma OnlyLinkShownAsLink(s: Schema, present: set<string>)
    requires WellNamed(s)
    ensures var src := DisplaySources(s, present);
      forall j :: 0 <= j < |src| && Renamed(src[j], s.rename) == LinkColumn ==> s.link == Some(src[j])
  {
    var src := DisplaySources(s, present);
    DisplaySourcesShape(s, present);
    forall j | 0 <= j < |src| && Renamed(src[j], s.rename) == LinkColumn
      ensures s.link == Some(src[j])
    {
      assert src[j] in src;
    }
  }

  /** In a well-named schema the display has one `상세링크` column: the detail link's cells when
      the frame has the link, and empty texts otherwise. */
  lemma LinkCellsOf(items: seq<Record>, s: Schema)
    requires WellNamed(s)
    ensures var d := EnsureLink(Project(items, DisplaySources(s, Present(items)), s.rename));
      var k := IndexOf(d.columns, LinkColumn);
      && k.Some?
      && forall i :: 0 <= i < |items| ==>
           d.rows[i][k.value] == (if s.link.Some? && s.link.value in Present(items) then CellOf(items[i], s.link.value) else Value(""))
  {
    var present := Present(items);
    var src := DisplaySources(s, present);
    var p := Project(items, src, s.rename);
    OnlyLinkShownAsLink(s, present);
    if s.link.Some? && s.link.value in present {
      LinkShown(items, s);
    } else {
      assert LinkColumn !in p.columns by {
        forall j | 0 <= j < |src| ensures p.columns[j] != LinkColumn {
          ProjectColumn(items, src, s.rename, j);
        }
      }
      IndexOfAfter(p.columns, [LinkColumn], LinkColumn);
    }
  }

  lemma LinkInSources(s: Schema, present: set<string>)
    requires s.link.Some? && s.link.value in present
    ensures s.link.value in DisplaySources(s, present)
  {
    var withLink := s.base + [s.link.value];
    assert s.link.value in withLink;
    assert s.link.value in withLink + KeepPresent(s.fileColumns, present);
  }

  /** A present detail link is the display's `상세링크` column. */
  lemma LinkShown(items: seq<Record>, s: Schema)
    requires WellNamed(s) && s.link.Some? && s.link.value in Present(items)
    ensures var p := Project(items, DisplaySources(s, Present(items)), s.rename);
      var k := IndexOf(p.columns, LinkColumn);
      && k.Some?
      && forall i :: 0 <= i < |items| ==> p.rows[i][k.value] == CellOf(items[i], s.link.value)
  {
    var present := Present(items);
    var src := DisplaySources(s, present);
    var p := Project(items, src, s.rename);
    var l := s.link.value;
    LinkInSources(s, present);
    var m := IndexOf(src, l).value;
    ProjectColumn(items, src, s.rename, m);
    assert forall j :: 0 <= j < m ==> p.columns[j] != LinkColumn by {
      OnlyLinkShownAsLink(s, present);
    }
    IndexOfFirst(p.columns, LinkColumn, m);
  }

  /** The display's `상세링크` column holds `bidNtceDtlUrl` for bid notices whose records carry
      it, and the empty text in every other case. */
  lemma LinkColumnCells(items: seq<Record>, category: string)
    ensures var d := DisplayTable(items, category);
      var k := IndexOf(d.columns, LinkColumn);
      && k.Some?
      && forall i :: 0 <= i < |items| ==>
           d.rows[i][k.value] == (if category == Search.BidNotice && LinkSource in Present(items) then CellOf(items[i], LinkSource) else Value(""))
  {
    SchemaForFacts(category);
    LinkCellsOf(items, SchemaFor(category));
  }

  /** In a well-named schema a display column named like an attachment column is that column. */
  lemma FileNameOnlyFromSource(items: seq<Record>, s: Schema, c: string)
    requires WellNamed(s) && c in s.fileColumns
    ensures var src := DisplaySources(s, Present(items));
      var d := EnsureLink(Project(items, src, s.rename));
      forall k :: 0 <= k < |d.columns| && d.columns[k] == c ==> k < |src| && src[k] == c
  {
    var src := DisplaySources(s, Present(items));
    var p := Project(items, src, s.rename);
    var d := EnsureLink(p);
    DisplaySourcesShape(s, Present(items));
    forall k | 0 <= k < |d.columns| && d.columns[k] == c
      ensures k < |src| && src[k] == c
    {
      assert k < |src|;
      assert src[k] in src;
      ProjectColumn(items, src, s.rename, k);
    }
  }

  lemma FileColumnOf(items: seq<Record>, s: Schema, c: string)
    requires WellNamed(s) && BudgetNamed(s) && c in s.fileColumns
    ensures var d := EnsureLink(Project(items, DisplaySources(s, Present(items)), s.rename));
      var k := IndexOf(d.columns, c);
      && (k.Some? <==> c in Present(items))
      && (k.Some? ==> forall i :: 0 <= i < |items| ==> d.rows[i][k.value] == CellOf(items[i], c))
  {
    var src := DisplaySources(s, Present(items));
    var p := Project(items, src, s.rename);
    var d := EnsureLink(p);
    FileNameOnlyFromSource(items, s, c);
    DisplaySourcesShape(s, Present(items));
    if c in d.columns {
      var k := IndexOf(d.columns, c).value;
      assert src[k] in src;
      ProjectColumn(items, src, s.rename, k);
      assert c != BudgetColumn by {
        assert BudgetColumn in s.rename;
      }
    } else if c in src {
      ProjectColumn(items, src, s.rename, IndexOf(src, c).value);
    }
  }

  /** Looking an attachment column up by name in the display finds it exactly when the records
      carry it, and then finds the record texts: no other display column carries that name. */
  lemma FileColumnAt(items: seq<Record>, category: string, c: string)
    requires c in SchemaFor(category).fileColumns
    ensures var d := DisplayTable(items, category);
      var k := IndexOf(d.columns, c);
      && (k.Some? <==> c in Present(items))
      && (k.Some? ==> forall i :: 0 <= i < |items| ==> d.rows[i][k.value] == CellOf(items[i], c))
  {
    SchemaForFacts(category);
    FileColumnOf(items, SchemaFor(category), c);
  }

  /** A projection over a source list holding the budget column shows it, formatted, under the
      name the rename map gives it. */
  lemma BudgetColumnOf(items: seq<Record>, sources: seq<string>, rename: map<string, string>)
    requires BudgetColumn in sources && Renamed(BudgetColumn, rename) == BudgetTitle
    ensures var p := Project(items, sources, rename);
      exists j :: (0 <= j < |p.columns| && p.columns[j] == BudgetTitle
        && forall i :: 0 <= i < |items| ==> p.rows[i][j] == FormatBudget(CellOf(items[i], BudgetColumn)))
  {
    var j := IndexOf(sources, BudgetColumn).value;
    ProjectColumn(items, sources, rename, j);
  }

  /** When the records carry a budget, the result table shows it under "배정예산금액", formatted
      by `format_money`, with a missing budget shown as "nan". */
  lemma BudgetShown(items: seq<Record>, category: string)
    requires BudgetColumn in Present(items)
    ensures var d := DisplayTable(items, category);
      exists j :: (0 <= j < |d.columns| && d.columns[j] == BudgetTitle
        && forall i :: 0 <= i < |items| ==> d.rows[i][j] == FormatBudget(CellOf(items[i], BudgetColumn)))
  {
    var s := SchemaFor(category);
    var src := DisplaySources(s, Present(items));
    assert BudgetColumn in src && Renamed(BudgetColumn, s.rename) == BudgetTitle by {
      SchemaBudgetNamed(category);
      DisplaySourcesShape(s, Present(items));
    }
    var j := IndexOf(src, BudgetColumn).value;
    ProjectColumn(items, src, s.rename, j);
    var p := Project(items, src, s.rename);
    assert DisplayTable(items, category).columns[j] == p.columns[j];
  }

  /** The export table's columns are the category's save list filtered to the present columns,
      in list order, each under its export name. */
  lemma ExportColumns(items: seq<Record>, category: string)
    ensures var s := SchemaFor(category);
      var src := KeepPresent(s.save, Present(items));
      var e := ExportTable(items, category);
      |e.columns| == |src| && forall j :: 0 <= j < |src| ==> e.columns[j] == Renamed(src[j], s.saveRename)
  {
  }

  /** Each export column holds every record's own cell of its source column, row by row. */
  lemma ExportCells(items: seq<Record>, category: string)
    ensures var s := SchemaFor(category);
      var src := KeepPresent(s.save, Present(items));
      var e := ExportTable(items, category);
      forall i, j :: 0 <= i < |items| && 0 <= j < |src| ==> e.rows[i][j] == FrameCell(items[i], src[j])
  {
  }

  /** The saved table formats the budget the same way. */
  lemma BudgetSaved(items: seq<Record>, category: string)
    requires BudgetColumn in Present(items)
    ensures var e := ExportTable(items, category);
      exists j :: (0 <= j < |e.columns| && e.columns[j] == BudgetTitle
        && forall i :: 0 <= i < |items| ==> e.rows[i][j] == FormatBudget(CellOf(items[i], BudgetColumn)))
  {
    var s := SchemaFor(category);
    SchemaBudgetNamed(category);
    var saved := KeepPresent(s.save, Present(items));
    assert BudgetColumn in saved;
    BudgetColumnOf(items, saved, s.saveRename);
    assert ExportTable(items, category) == Project(items, saved, s.saveRename);
  }

}
