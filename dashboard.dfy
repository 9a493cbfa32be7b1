/** The coordinator of both WIP dashboards: the rows, totals, explanation
    index, report date, loading and error flags and comment-dialog state,
    and the handlers that replace them. Every server call is an input: the
    value it resolved to, or its rejection. */
module Dashboard {
  import opened Wrappers
  import opened Fields
  import opened Calendar
  import opened Schema
  import opened Grouping
  import opened Annotations
  import opened Cells
  import opened Labels
  import Modal

  // ----- snapshot rows -----

  /** One WIP snapshot row: its id, its job number, and the values of the
      other fields it carries (a field it lacks reads as `undefined`). */
  datatype Row = Row(id: int, jobNumber: string, cells: map<Field, Value>)

  /** `job[field]`. */
  function CellValue(r: Row, f: Field): (v: Value)
    ensures f == JobNumber ==> v == Value.Text(r.jobNumber)
    ensures f != JobNumber && f in r.cells ==> v == r.cells[f]
    ensures f != JobNumber && f !in r.cells ==> v == Absent
  {
    if f == JobNumber then Value.Text(r.jobNumber)
    else if f in r.cells then r.cells[f] else Absent
  }

  /** The object the update call resolves to: whatever properties the
      server sent back. */
  datatype RowPatch = RowPatch(id: Option<int>, jobNumber: Option<string>, cells: map<Field, Value>)

  /** `{ ...wip, ...updatedWip }`: every property the server sent wins,
      every other one is kept. */
  function MergeRow(old_: Row, patch: RowPatch): (r: Row)
    ensures r.id == patch.id.GetOr(old_.id) && r.jobNumber == patch.jobNumber.GetOr(old_.jobNumber)
    ensures r.cells.Keys == old_.cells.Keys + patch.cells.Keys
  {
    Row(patch.id.GetOr(old_.id), patch.jobNumber.GetOr(old_.jobNumber), old_.cells + patch.cells)
  }

  /** What a merged row shows in a given column: the server's value where
      it sent one, the old one everywhere else. */
  lemma MergeRowCell(old_: Row, patch: RowPatch, f: Field)
    requires f != JobNumber
    ensures CellValue(MergeRow(old_, patch), f) ==
            if f in patch.cells then patch.cells[f] else CellValue(old_, f)
  {
  }

  /** Merging the same server answer twice is merging it once. */
  lemma MergeRowIdempotent(old_: Row, patch: RowPatch)
    ensures MergeRow(MergeRow(old_, patch), patch) == MergeRow(old_, patch)
  {
    var once := MergeRow(old_, patch);
    assert once.cells + patch.cells == once.cells;
  }

  /** `prevData.map(wip => wip.id === wipId ? { ...wip, ...updatedWip } : wip)`. */
  function ReplaceRows(rows: seq<Row>, wipId: int, patch: RowPatch): (r: seq<Row>)
    ensures |r| == |rows|
    ensures forall i | 0 <= i < |rows| :: rows[i].id == wipId ==> r[i] == MergeRow(rows[i], patch)
    ensures forall i | 0 <= i < |rows| :: rows[i].id != wipId ==> r[i] == rows[i]
  {
    if rows == [] then []
    else
      var head := if rows[0].id == wipId then MergeRow(rows[0], patch) else rows[0];
      [head] + ReplaceRows(rows[1..], wipId, patch)
  }

  /** A server answer that keeps the row's id (or sends none) can be
      applied twice with the effect of once. */
  lemma ReplaceRowsIdempotent(rows: seq<Row>, wipId: int, patch: RowPatch)
    requires patch.id.None? || patch.id == Some(wipId)
    ensures ReplaceRows(ReplaceRows(rows, wipId, patch), wipId, patch) == ReplaceRows(rows, wipId, patch)
  {
    var once := ReplaceRows(rows, wipId, patch);
    var twice := ReplaceRows(once, wipId, patch);
    forall i | 0 <= i < |rows|
      ensures twice[i] == once[i]
    {
      if rows[i].id == wipId {
        MergeRowIdempotent(rows[i], patch);
      }
    }
  }

  /** What a row is looked up by: its job number, as `handleAddComment`
      does, or its id, by which React keys the grid's rows. */
  datatype RowKey = ByJobNumber(jobNumber: string) | ById(id: int)

  predicate Matches(row: Row, key: RowKey) {
    match key
    case ByJobNumber(jobNumber) => row.jobNumber == jobNumber
    case ById(id) => row.id == id
  }

  /** `wipData.find(w => w.job_number === jobNumber)` (or the same by id),
      as a position. */
  function FirstRow(rows: seq<Row>, key: RowKey): (p: Option<nat>)
    ensures p.Some? ==> p.value < |rows| && Matches(rows[p.value], key)
    ensures p.Some? ==> forall j | 0 <= j < p.value :: !Matches(rows[j], key)
    ensures p.None? ==> forall j | 0 <= j < |rows| :: !Matches(rows[j], key)
  {
    if rows == [] then None
    else if Matches(rows[0], key) then Some(0)
    else
      match FirstRow(rows[1..], key)
      case None => None
      case Some(k) => Some(k + 1)
  }

  // ----- the explanation index built on load -----

  /** The index after the first `n` per-row fetches: a row whose fetch
      resolved gets its list stored under its id, a row whose fetch was
      rejected is skipped. */
  function IndexPrefix(rows: seq<Row>, fetches: seq<Outcome<seq<Explanation>>>, n: nat): Index
    requires n <= |rows| == |fetches|
  {
    if n == 0 then map[]
    else
      var m := IndexPrefix(rows, fetches, n - 1);
      if fetches[n - 1].Ok? then m[rows[n - 1].id := fetches[n - 1].value] else m
  }

  /** `explanationsMap` once every row has been fetched. */
  function ExplanationIndex(rows: seq<Row>, fetches: seq<Outcome<seq<Explanation>>>): (index: Index)
    requires |rows| == |fetches|
    ensures forall k :: k in index <==> exists i :: 0 <= i < |rows| && rows[i].id == k && fetches[i].Ok?
  {
    IndexKeysAll(rows, fetches);
    IndexPrefix(rows, fetches, |rows|)
  }

  lemma IndexKeysAll(rows: seq<Row>, fetches: seq<Outcome<seq<Explanation>>>)
    requires |rows| == |fetches|
    ensures forall k :: k in IndexPrefix(rows, fetches, |rows|) <==>
              exists i :: 0 <= i < |rows| && rows[i].id == k && fetches[i].Ok?
  {
    forall k {
      IndexKeys(rows, fetches, |rows|, k);
    }
  }

  /** The loop of `loadWIPData` that fills `explanationsMap`, one awaited
      fetch per row, in row order. */
  method BuildExplanationIndex(rows: seq<Row>, fetches: seq<Outcome<seq<Explanation>>>)
    returns (index: Index)
    requires |rows| == |fetches|
    ensures index == ExplanationIndex(rows, fetches)
  {
    index := map[];
    for i := 0 to |rows|
      invariant index == IndexPrefix(rows, fetches, i)
    {
      match fetches[i]
      case Ok(list) =>
        index := index[rows[i].id := list];
      case Err(_) =>
    }
  }

  /** The index has an entry for exactly the ids of rows whose fetch
      resolved. */
  lemma {:induction false} IndexKeys(rows: seq<Row>, fetches: seq<Outcome<seq<Explanation>>>, n: nat, k: int)
    requires n <= |rows| == |fetches|
    ensures k in IndexPrefix(rows, fetches, n) <==>
            exists i :: 0 <= i < n && rows[i].id == k && fetches[i].Ok?
  {
    if n > 0 {
      IndexKeys(rows, fetches, n - 1, k);
      if rows[n - 1].id == k && fetches[n - 1].Ok? {
        assert 0 <= n - 1 < n && rows[n - 1].id == k && fetches[n - 1].Ok?;
      }
    }
  }

  /** A row's entry is the list of its own fetch, provided no later row
      carries the same id (a later row with that id would overwrite it). */
  lemma {:induction false} IndexEntry(rows: seq<Row>, fetches: seq<Outcome<seq<Explanation>>>, n: nat, i: nat)
    requires n <= |rows| == |fetches| && i < n
    requires fetches[i].Ok?
    requires forall j | i < j < n :: rows[j].id != rows[i].id
    ensures rows[i].id in IndexPrefix(rows, fetches, n)
    ensures IndexPrefix(rows, fetches, n)[rows[i].id] == fetches[i].value
  {
    if i < n - 1 {
      IndexEntry(rows, fetches, n - 1, i);
    }
  }

  predicate DistinctIds(rows: seq<Row>) {
    forall i, j | 0 <= i < j < |rows| :: rows[i].id != rows[j].id
  }

  /** With distinct row ids, each row's lookup yields its own fetched list,
      and the empty list when its fetch failed. */
  lemma RowLookupAfterLoad(rows: seq<Row>, fetches: seq<Outcome<seq<Explanation>>>, i: nat)
    requires |rows| == |fetches| && i < |rows| && DistinctIds(rows)
    ensures fetches[i].Ok? ==> RowExplanations(ExplanationIndex(rows, fetches), rows[i].id) == fetches[i].value
    ensures fetches[i].Err? ==> RowExplanations(ExplanationIndex(rows, fetches), rows[i].id) == []
  {
    if fetches[i].Ok? {
      IndexEntry(rows, fetches, |rows|, i);
    } else {
      IndexKeys(rows, fetches, |rows|, rows[i].id);
    }
  }

  // ----- the report date as the system header shows it -----

  function DigitChar(d: int): (c: char)
    requires 0 <= d < 10
    ensures '0' <= c <= '9'
  {
    ('0' as int + d) as char
  }

  /** The decimal numeral of a number, without leading zeros. */
  function NatText(n: nat): (s: string)
    ensures |s| >= 1 && forall k | 0 <= k < |s| :: '0' <= s[k] <= '9'
    ensures (n == 0) == (s == "0")
    decreases n
  {
    if n < 10 then [DigitChar(n)] else NatText(n / 10) + [DigitChar(n % 10)]
  }

  function IntText(n: int): string {
    if n < 0 then "-" + NatText(-n) else NatText(n)
  }

  /** `toLocaleDateString('en-US', { year: 'numeric', month: 'long', day:
      'numeric' })` of a report date, e.g. "July 31, 2025". */
  function LongDate(d: Date): (text: string)
    requires ValidDate(d)
    ensures |MonthName(d.month)| < |text| && text[..|MonthName(d.month)|] == MonthName(d.month)
    ensures text[|MonthName(d.month)|] == ' '
  {
    MonthName(d.month) + " " + NatText(d.day) + ", " + IntText(d.year)
  }

  /** The section header row: one cell per group, its label and its
      column span. Only the system section is given the date. */
  function HeaderCells(g: seq<Group>, reportDate: Date): (h: seq<(string, nat)>)
    requires ValidDate(reportDate)
    ensures |h| == |g|
    ensures forall i | 0 <= i < |g| :: h[i].1 == |g[i].1|
    ensures forall i | 0 <= i < |g| ::
              h[i].0 == SectionLabel(g[i].0, if g[i].0 == "system" then Some(LongDate(reportDate)) else None)
  {
    seq(|g|, i requires 0 <= i < |g| =>
      (SectionLabel(g[i].0, if g[i].0 == "system" then Some(LongDate(reportDate)) else None), |g[i].1|))
  }

  /** One header cell per section, in order of first appearance, spanning
      that section's columns; only the system cell carries the date. */
  function Headers(cols: seq<Column>, reportDate: Date): (h: seq<(string, nat)>)
    requires ValidDate(reportDate)
    ensures |h| == |FirstAppearances(cols)|
    ensures forall i | 0 <= i < |h| :: h[i].1 == |ColumnsIn(cols, FirstAppearances(cols)[i])|
    ensures forall i | 0 <= i < |h| ::
              var section := FirstAppearances(cols)[i];
              h[i].0 == SectionLabel(section, if section == "system" then Some(LongDate(reportDate)) else None)
  {
    GroupColumnsCorrect(cols);
    HeaderCells(GroupColumns(cols), reportDate)
  }

  /** The labels of the seven schema sections, in schema order. */
  lemma SevenHeaderCells(g: seq<Group>, reportDate: Date)
    requires ValidDate(reportDate)
    requires Names(g) == ["system", "contract", "cost", "gaap", "margin", "billing", "adjustments"]
    requires |g[0].1| == 2 && |g[1].1| == 5 && |g[2].1| == 5 && |g[3].1| == 4
    requires |g[4].1| == 4 && |g[5].1| == 1 && |g[6].1| == 3
    ensures HeaderCells(g, reportDate) ==
            [("Projects - " + LongDate(reportDate), 2), ("Contract Section", 5), ("Cost Section", 5),
             ("US GAAP Section", 4), ("Job Margin Section", 4), ("Billing Section", 1),
             ("WIP Adjustments", 3)]
  {
    assert g[0].0 == "system" && g[1].0 == "contract" && g[2].0 == "cost" && g[3].0 == "gaap";
    assert g[4].0 == "margin" && g[5].0 == "billing" && g[6].0 == "adjustments";
  }

  /** The header row of the grid: the dated projects cell over the two
      system columns, then the six fixed section labels, spanning 24
      columns in all. */
  lemma HeaderRow(reportDate: Date)
    requires ValidDate(reportDate)
    ensures Headers(DynamicColumnsCorrected(reportDate), reportDate) ==
            [("Projects - " + LongDate(reportDate), 2), ("Contract Section", 5), ("Cost Section", 5),
             ("US GAAP Section", 4), ("Job Margin Section", 4), ("Billing Section", 1),
             ("WIP Adjustments", 3)]
  {
    var current, prior := MonthName(reportDate.month), PriorMonthName(reportDate);
    SchemaHeaderSpans(current, prior);
    SevenHeaderCells(GroupColumns(ColumnsFor(current, prior)), reportDate);
  }

  // ----- the comment dialog state kept by the dashboard -----

  /** `commentModal`. `value` is what the clicked cell showed. */
  datatype ModalState = ModalState(
    isOpen: bool,
    jobNumber: string,
    field: Field,
    value: Shown,
    wipSnapshotId: Option<int>,
    existingComment: Option<string>,
    existingCommentId: Option<int>,
    existingExplanation: Option<Explanation>)

  const ClosedModal: ModalState := ModalState(false, "", JobNumber, Blank, None, None, None, None)

  /** JavaScript truthiness of an optional id: undefined and 0 are falsy. */
  predicate TruthyId(id: Option<int>)
    ensures id.None? ==> !TruthyId(id)
    ensures id == Some(0) ==> !TruthyId(id)
    ensures id.Some? && id.value != 0 ==> TruthyId(id)
  {
    id.Some? && id.value != 0
  }

  /** The call `handleSaveComment` makes. */
  datatype CommentCall =
    | UpdateCall(snapshotId: int, explanationId: int, text: string)
    | CreateCall(snapshotId: int, fieldName: string, text: string)

  /** The call `handleSaveComment` makes for the dialog's state, if any:
      none without a (truthy) snapshot id; an update of the existing
      explanation when it has a truthy id; a create for the field
      otherwise. The untrimmed comment is sent. */
  function CommentCallFor(m: ModalState, comment: string): (c: Option<CommentCall>)
    ensures c.None? <==> !TruthyId(m.wipSnapshotId)
    ensures c.Some? ==> c.value.snapshotId == m.wipSnapshotId.value && c.value.text == comment
    ensures c.Some? ==> (c.value.UpdateCall? <==> TruthyId(m.existingCommentId))
    ensures c.Some? && c.value.UpdateCall? ==> c.value.explanationId == m.existingCommentId.value
    ensures c.Some? && c.value.CreateCall? ==> c.value.fieldName == Key(m.field)
  {
    if !TruthyId(m.wipSnapshotId) then None
    else if TruthyId(m.existingCommentId) then
      Some(UpdateCall(m.wipSnapshotId.value, m.existingCommentId.value, comment))
    else
      Some(CreateCall(m.wipSnapshotId.value, Key(m.field), comment))
  }

  /** An explanation id of 0 is treated as no explanation: a create is
      sent, exactly as when there is none. */
  lemma ZeroCommentIdCreates(m: ModalState, comment: string)
    ensures CommentCallFor(m.(existingCommentId := Some(0)), comment) ==
            CommentCallFor(m.(existingCommentId := None), comment)
    ensures TruthyId(m.wipSnapshotId) ==> CommentCallFor(m.(existingCommentId := Some(0)), comment).value.CreateCall?
  {
  }

  /** `existingExplanation?.id`. */
  function IdOf(e: Option<Explanation>): (id: Option<int>)
    ensures id.Some? <==> e.Some?
    ensures id.Some? ==> id.value == e.value.id
  {
    match e
    case None => None
    case Some(x) => Some(x.id)
  }

  // ----- the dashboards -----

  /** The totals block of the response, shown as the summary header. */
  datatype Totals = Totals(totalProjects: Value, totalContract: Value, totalJobMargin: Value,
                           overallMarginPercent: Value)

  /** What `latestWithTotals` resolves to. */
  datatype LoadResponse = LoadResponse(snapshots: seq<Row>, totals: Option<Totals>, reportDate: Option<Date>)

  /** The read-only dashboard, or the editable one for a user who is or is
      not an admin. */
  datatype Kind = ReadOnly | Editable(isAdmin: bool)

  const LoadFailedMessage: string := "Failed to load WIP data"
  const CommentFailedMessage: string := "Failed to save comment"

  /** The cell a dashboard draws for one row and one column, at rest. */
  function CellFor(kind: Kind, index: Index, row: Row, col: Column): (v: CellView)
    ensures !v.Editor?
    ensures v.Plain? <==> IsIdentity(col.key)
    ensures v.Plain? ==> v.value == CellValue(row, col.key)
    ensures v.Display? ==> v.shown == FormatValue(CellValue(row, col.key), col.colType)
    ensures v.Display? ==> v.marks == CellMarks(CommentExplanation(index, row.id, col.key))
    ensures v.Display? ==> (v.editIcon <==> kind.Editable? && IsEditable(kind.isAdmin, col.key))
  {
    var e := CommentExplanation(index, row.id, col.key);
    match kind
    case ReadOnly => ReadOnlyView(CellValue(row, col.key), col.colType, col.key, e)
    case Editable(isAdmin) =>
      EditableView(CellValue(row, col.key), col.colType, col.key, isAdmin, false, "", false, e)
  }

  function GridCells(kind: Kind, index: Index, rows: seq<Row>, cols: seq<Column>): (cells: seq<seq<CellView>>)
    ensures |cells| == |rows|
    ensures forall i | 0 <= i < |rows| :: |cells[i]| == |cols|
    ensures forall i, j | 0 <= i < |rows| && 0 <= j < |cols| :: cells[i][j] == CellFor(kind, index, rows[i], cols[j])
  {
    seq(|rows|, i requires 0 <= i < |rows| =>
      seq(|cols|, j requires 0 <= j < |cols| => CellFor(kind, index, rows[i], cols[j])))
  }

  /** The column titles, one per column. */
  function Titles(cols: seq<Column>): (t: seq<string>)
    ensures |t| == |cols|
    ensures forall j | 0 <= j < |cols| :: t[j] == cols[j].title
  {
    seq(|cols|, j requires 0 <= j < |cols| => cols[j].title)
  }

  /** What the dashboard renders. */
  datatype DashboardView =
    | LoadingScreen
    | ErrorScreen(message: string)
    | Grid(adminNotice: bool, summary: Option<Totals>, headers: seq<(string, nat)>,
           titles: seq<string>, cells: seq<seq<CellView>>, dialog: Modal.Props)

  class WipDashboard {
    const kind: Kind
    var rows: seq<Row>
    var totals: Option<Totals>
    var explanations: Index
    var loading: bool
    var error: Option<string>
    var reportDate: Date
    var modal: ModalState

    predicate Valid()
      reads this
    {
      ValidDate(reportDate)
    }

    /** The state on mount, before the first load has settled. */
    constructor (kind: Kind)
      ensures Valid()
      ensures this.kind == kind && rows == [] && totals.None? && explanations == map[]
      ensures loading && error.None? && reportDate == Date(2025, 7, 31) && modal == ClosedModal
    {
      this.kind := kind;
      rows := [];
      totals := None;
      explanations := map[];
      loading := true;
      error := None;
      reportDate := Date(2025, 7, 31);
      modal := ClosedModal;
    }

    /** The column schema for the current report date. */
    function Columns(): (cols: seq<Column>)
      reads this
      requires Valid()
      ensures |cols| == 24 && cols[0].key == JobNumber && cols[1].key == ProjectName
    {
      DynamicColumnsCorrected(reportDate)
    }

    /** `loadWIPData`. On success the rows and totals are those of the one
        response, the index is rebuilt from the per-row fetches, and the
        report date is replaced (and reported to the parent) only when the
        response carries one. On failure the old rows, totals, index and
        date stay and the error is set. Loading is over either way. */
    method Load(response: Outcome<LoadResponse>, fetches: seq<Outcome<seq<Explanation>>>)
      returns (notified: Option<Date>)
      requires Valid()
      requires response.Ok? ==> |fetches| == |response.value.snapshots|
      requires response.Ok? && response.value.reportDate.Some? ==> ValidDate(response.value.reportDate.value)
      modifies this
      ensures Valid()
      ensures !loading && modal == old(modal)
      ensures response.Ok? ==>
                && rows == response.value.snapshots && totals == response.value.totals
                && explanations == ExplanationIndex(response.value.snapshots, fetches)
                && error.None?
                && reportDate == response.value.reportDate.GetOr(old(reportDate))
                && notified == response.value.reportDate
      ensures response.Err? ==>
                && rows == old(rows) && totals == old(totals) && explanations == old(explanations)
                && reportDate == old(reportDate) && notified.None?
                && error == Some(response.message.GetOr(LoadFailedMessage))
    {
      loading := true;
      error := None;
      notified := None;
      match response {
        case Ok(r) =>
          rows := r.snapshots;
          totals := r.totals;
          if r.reportDate.Some? {
            reportDate := r.reportDate.value;
            notified := r.reportDate;
          }
          var index := BuildExplanationIndex(r.snapshots, fetches);
          explanations := index;
        case Err(message) =>
          error := Some(message.GetOr(LoadFailedMessage));
      }
      loading := false;
    }

    /** `handleSaveCell` of the editable dashboard. When the update call
        fails nothing changes and the failure is passed back to the cell;
        otherwise the row with that id takes the server's fields and a full
        reload follows, which may report a new date to the parent. */
    method SaveCell(request: SaveRequest, update: Outcome<RowPatch>, reload: Outcome<LoadResponse>,
                    fetches: seq<Outcome<seq<Explanation>>>)
      returns (failed: bool, notified: Option<Date>)
      requires Valid() && kind.Editable?
      requires update.Ok? && reload.Ok? ==> |fetches| == |reload.value.snapshots|
      requires update.Ok? && reload.Ok? && reload.value.reportDate.Some? ==>
                 ValidDate(reload.value.reportDate.value)
      modifies this
      ensures Valid()
      ensures failed <==> update.Err?
      ensures modal == old(modal)
      ensures update.Err? ==>
                && rows == old(rows) && totals == old(totals) && explanations == old(explanations)
                && loading == old(loading) && error == old(error) && reportDate == old(reportDate)
      ensures update.Ok? ==> !loading
      ensures update.Ok? && reload.Err? ==>
                && rows == ReplaceRows(old(rows), request.wipId, update.value)
                && totals == old(totals) && explanations == old(explanations)
                && reportDate == old(reportDate)
                && error == Some(reload.message.GetOr(LoadFailedMessage))
      ensures update.Ok? && reload.Ok? ==>
                && rows == reload.value.snapshots && totals == reload.value.totals
                && explanations == ExplanationIndex(reload.value.snapshots, fetches)
                && error.None?
                && reportDate == reload.value.reportDate.GetOr(old(reportDate))
                && notified == reload.value.reportDate
      ensures !(update.Ok? && reload.Ok?) ==> notified.None?
    {
      notified := None;
      match update
      case Err(_) =>
        failed := true;
      case Ok(patch) =>
        rows := ReplaceRows(rows, request.wipId, patch);
        notified := Load(reload, fetches);
        failed := false;
    }

    /** The cell this dashboard's state draws for row id `wipId` and a
        column, if a row with that id is there. */
    function CellAt(wipId: int, field: Field): (c: Option<(Value, Option<Explanation>)>)
      reads this
      ensures c.Some? <==> exists j | 0 <= j < |rows| :: rows[j].id == wipId
      ensures c.Some? ==> exists k | 0 <= k < |rows| ::
                && rows[k].id == wipId && (forall j | 0 <= j < k :: rows[j].id != wipId)
                && c.value.0 == CellValue(rows[k], field)
      ensures c.Some? ==> c.value.1 == CommentExplanation(explanations, wipId, field)
    {
      match FirstRow(rows, ById(wipId))
      case None => None
      case Some(k) => Some((CellValue(rows[k], field), CommentExplanation(explanations, wipId, field)))
    }

    /** A cell's save, end to end: `handleSave` sends the cleaned draft to
        `handleSaveCell`, which rethrows a failed update. On a failure the
        cell stays in edit mode with its draft and raises the alert. On
        success the reload's loading screen has unmounted the cell, so the
        cell drawn afterwards is a fresh one holding the value and the
        explanation the new state gives its row; a cell whose row is gone
        is not drawn again and keeps only its last props. */
    method SaveFromCell(cell: EditableCell, update: Outcome<RowPatch>, reload: Outcome<LoadResponse>,
                        fetches: seq<Outcome<seq<Explanation>>>)
      returns (request: SaveRequest, alert: Option<string>, notified: Option<Date>)
      requires Valid() && kind.Editable? && cell.Valid() && cell.isEditing
      requires update.Ok? && reload.Ok? ==> |fetches| == |reload.value.snapshots|
      requires update.Ok? && reload.Ok? && reload.value.reportDate.Some? ==>
                 ValidDate(reload.value.reportDate.value)
      modifies this, cell
      ensures Valid() && cell.Valid()
      ensures request == SaveRequest(cell.wipId, cell.field, ParseDraft(cell.cellType, old(cell.editValue)))
      ensures !cell.isSaving
      ensures update.Err? ==>
                && cell.isEditing == old(cell.isEditing) && cell.editValue == old(cell.editValue)
                && cell.value == old(cell.value) && cell.explanation == old(cell.explanation)
                && alert == Some(SaveFailedAlert) && notified.None?
                && rows == old(rows) && totals == old(totals) && explanations == old(explanations)
                && loading == old(loading) && error == old(error) && reportDate == old(reportDate)
      ensures update.Ok? ==> !cell.isEditing && cell.editValue == "" && alert.None? && !loading
      ensures modal == old(modal)
      ensures update.Ok? && CellAt(cell.wipId, cell.field).Some? ==>
                (cell.value, cell.explanation) == CellAt(cell.wipId, cell.field).value
      ensures update.Ok? && CellAt(cell.wipId, cell.field).None? ==>
                cell.value == old(cell.value) && cell.explanation == old(cell.explanation)
      ensures update.Ok? && reload.Err? ==>
                && rows == ReplaceRows(old(rows), cell.wipId, update.value)
                && totals == old(totals) && explanations == old(explanations)
                && reportDate == old(reportDate)
                && error == Some(reload.message.GetOr(LoadFailedMessage))
      ensures update.Ok? && reload.Ok? ==>
                && rows == reload.value.snapshots && totals == reload.value.totals
                && explanations == ExplanationIndex(reload.value.snapshots, fetches) && error.None?
                && reportDate == reload.value.reportDate.GetOr(old(reportDate))
                && notified == reload.value.reportDate
      ensures !(update.Ok? && reload.Ok?) ==> notified.None?
    {
      request := cell.BeginSave();
      var failed;
      failed, notified := SaveCell(request, update, reload, fetches);
      alert := cell.FinishSave(!failed);
      if !failed {
        match CellAt(cell.wipId, cell.field)
        case Some(c) => cell.Remount(c.0, c.1);
        case None => cell.Remount(cell.value, cell.explanation);
      }
    }

    /** `handleAddComment`: open the dialog on the first row with that job
        number, with the first explanation of that row for the field, if
        any. An unknown job number changes nothing. */
    method AddComment(jobNumber: string, field: Field, value: Shown)
      modifies this
      ensures rows == old(rows) && totals == old(totals) && explanations == old(explanations)
      ensures loading == old(loading) && error == old(error) && reportDate == old(reportDate)
      ensures FirstRow(rows, ByJobNumber(jobNumber)).None? ==> modal == old(modal)
      ensures FirstRow(rows, ByJobNumber(jobNumber)).Some? ==>
                var row := rows[FirstRow(rows, ByJobNumber(jobNumber)).value];
                var e := CommentExplanation(explanations, row.id, field);
                && modal.isOpen && modal.jobNumber == jobNumber && modal.field == field
                && modal.value == value && modal.wipSnapshotId == Some(row.id)
                && modal.existingExplanation == e
                && modal.existingComment == Comment(explanations, row.id, field)
                && (modal.existingCommentId.Some? <==> e.Some?)
                && (e.Some? ==> modal.existingCommentId.value == e.value.id)
    {
      match FirstRow(rows, ByJobNumber(jobNumber))
      case None =>
      case Some(k) =>
        var row := rows[k];
        var e := CommentExplanation(explanations, row.id, field);
        modal := ModalState(true, jobNumber, field, value, Some(row.id),
                            Comment(explanations, row.id, field), IdOf(e), e);
    }

    /** The dialog's `onClose`: `{ ...prev, isOpen: false }`. */
    method CloseModal()
      modifies this
      ensures modal == old(modal).(isOpen := false)
      ensures rows == old(rows) && totals == old(totals) && explanations == old(explanations)
      ensures loading == old(loading) && error == old(error) && reportDate == old(reportDate)
    {
      modal := modal.(isOpen := false);
    }

    /** `handleSaveComment`. Without a snapshot id nothing happens.
        Otherwise the update or create call is sent; when it and the
        re-fetch of the row's explanations both resolve, only that row's
        entry of the index is replaced, and when either is rejected the
        index is kept and the error is set. */
    method SaveComment(comment: string, call: Outcome<()>, refetch: Outcome<seq<Explanation>>)
      returns (sent: Option<CommentCall>)
      modifies this
      ensures sent == CommentCallFor(old(modal), comment)
      ensures modal == old(modal) && rows == old(rows) && totals == old(totals)
      ensures loading == old(loading) && reportDate == old(reportDate)
      ensures sent.None? ==> explanations == old(explanations) && error == old(error)
      ensures sent.Some? && call.Ok? && refetch.Ok? ==>
                && explanations == old(explanations)[sent.value.snapshotId := refetch.value]
                && error == old(error)
      ensures sent.Some? && call.Ok? && refetch.Ok? ==>
                forall k | k != sent.value.snapshotId ::
                  RowExplanations(explanations, k) == RowExplanations(old(explanations), k)
      ensures sent.Some? && !(call.Ok? && refetch.Ok?) ==>
                explanations == old(explanations) && error == Some(CommentFailedMessage)
    {
      sent := CommentCallFor(modal, comment);
      if sent.None? {
        return;
      }
      var id := modal.wipSnapshotId.value;
      if call.Err? || refetch.Err? {
        error := Some(CommentFailedMessage);
        return;
      }
      explanations := explanations[id := refetch.value];
    }

    /** The dialog's Save: a non-blank draft goes, untrimmed, to
        `handleSaveComment`, and the dialog is closed straight away; the
        save works from the dialog state it was given, so closing does not
        affect it. A blank draft does nothing. */
    method SubmitComment(dialog: Modal.CommentModal, call: Outcome<()>, refetch: Outcome<seq<Explanation>>)
      returns (sent: Option<CommentCall>)
      modifies this
      ensures rows == old(rows) && totals == old(totals) && loading == old(loading)
      ensures reportDate == old(reportDate)
      ensures !Modal.CanSave(dialog.comment) ==>
                && sent.None? && modal == old(modal) && explanations == old(explanations)
                && error == old(error)
      ensures Modal.CanSave(dialog.comment) ==>
                && sent == CommentCallFor(old(modal), dialog.comment)
                && modal == old(modal).(isOpen := false)
      ensures sent.None? ==> explanations == old(explanations) && error == old(error)
      ensures sent.Some? && call.Ok? && refetch.Ok? ==>
                && explanations == old(explanations)[sent.value.snapshotId := refetch.value]
                && error == old(error)
      ensures sent.Some? && !(call.Ok? && refetch.Ok?) ==>
                explanations == old(explanations) && error == Some(CommentFailedMessage)
    {
      var effects := dialog.HandleSave();
      sent := None;
      if effects.save.Some? {
        sent := SaveComment(effects.save.value, call, refetch);
      }
      if effects.close {
        CloseModal();
      }
    }

    /** The props the dashboard passes to the comment dialog. The read-only
        dashboard shows the field's label; the editable one its raw key. */
    function DialogProps(): (p: Modal.Props)
      reads this
      ensures p.isOpen == modal.isOpen && p.jobNumber == modal.jobNumber && p.fieldValue == modal.value
      ensures p.existingComment == modal.existingComment && p.existingExplanation == modal.existingExplanation
      ensures kind.ReadOnly? ==> p.fieldLabel == FieldLabel(modal.field)
      ensures kind.Editable? ==> p.fieldLabel == Key(modal.field)
    {
      var fieldLabel := if kind.ReadOnly? then FieldLabel(modal.field) else Key(modal.field);
      Modal.Props(modal.isOpen, modal.jobNumber, fieldLabel, modal.value, modal.existingComment,
                  modal.existingExplanation)
    }

    /** The rendered dashboard: the spinner while loading, else the error
        screen when the error is a non-empty message, else the grid. */
    function View(): (v: DashboardView)
      reads this
      requires Valid()
      ensures v.LoadingScreen? <==> loading
      ensures v.ErrorScreen? <==> !loading && error.Some? && error.value != ""
      ensures v.ErrorScreen? ==> v.message == error.value
      ensures v.Grid? ==>
                && (v.adminNotice <==> kind == Editable(true))
                && v.summary == totals
                && v.headers == Headers(Columns(), reportDate)
                && v.titles == Titles(Columns()) && |v.titles| == 24
                && v.cells == GridCells(kind, explanations, rows, Columns())
                && v.dialog == DialogProps()
    {
      if loading then LoadingScreen
      else if error.Some? && error.value != "" then ErrorScreen(error.value)
      else
        var cols := Columns();
        Grid(kind == Editable(true), totals, Headers(cols, reportDate),
             Titles(cols),
             GridCells(kind, explanations, rows, cols), DialogProps())
    }
  }

  /** Every row of the grid has one cell per column; the two identity
      columns are plain text (the job number in the first), the read-only
      dashboard offers no edit icon anywhere, and no cell is in edit mode. */
  lemma GridShape(d: WipDashboard)
    requires d.Valid() && d.View().Grid?
    ensures var v := d.View();
            && |v.cells| == |d.rows|
            && forall i | 0 <= i < |d.rows| ::
                 && |v.cells[i]| == 24
                 && v.cells[i][0] == Plain(Value.Text(d.rows[i].jobNumber))
                 && v.cells[i][1].Plain?
                 && (forall j | 0 <= j < 24 ::
                       && !v.cells[i][j].Editor?
                       && (d.kind.ReadOnly? && v.cells[i][j].Display? ==> !v.cells[i][j].editIcon))
  {
    GridCellsShape(d.kind, d.explanations, d.rows, d.Columns());
  }

  lemma GridCellsShape(kind: Kind, index: Index, rows: seq<Row>, cols: seq<Column>)
    requires |cols| == 24 && cols[0].key == JobNumber && cols[1].key == ProjectName
    ensures var cells := GridCells(kind, index, rows, cols);
            forall i | 0 <= i < |rows| ::
              && |cells[i]| == 24
              && cells[i][0] == Plain(Value.Text(rows[i].jobNumber))
              && cells[i][1].Plain?
              && (forall j | 0 <= j < 24 ::
                    && !cells[i][j].Editor?
                    && (kind.ReadOnly? && cells[i][j].Display? ==> !cells[i][j].editIcon))
  {
  }

  /** A rejected comment save replaces the grid by the error screen. */
  lemma CommentFailureShowsError(d: WipDashboard)
    requires d.Valid() && !d.loading && d.error == Some(CommentFailedMessage)
    ensures d.View() == ErrorScreen(CommentFailedMessage)
  {
  }
}
