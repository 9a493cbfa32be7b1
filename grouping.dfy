/** The section header row: `columns.reduce` into an object keyed by
    section, read back with `Object.entries` (insertion order), one header
    cell per section spanning that section's column count. */
module Grouping {
  import opened Wrappers
  import opened Schema

  /** One entry of the grouped-columns object: a section and its columns. */
  type Group = (string, seq<Column>)

  function Names(g: seq<Group>): (names: seq<string>)
    ensures |names| == |g|
    ensures forall i | 0 <= i < |g| :: names[i] == g[i].0
  {
    seq(|g|, i requires 0 <= i < |g| => g[i].0)
  }

  /** The position of `section` among the groups, if it has one. */
  function IndexOfSection(g: seq<Group>, section: string): (r: Option<nat>)
    ensures r.Some? ==> r.value < |g| && g[r.value].0 == section
    ensures r.None? <==> section !in Names(g)
  {
    if g == [] then None
    else if g[0].0 == section then Some(0)
    else match IndexOfSection(g[1..], section)
      case None => (assert Names(g) == [g[0].0] + Names(g[1..]); None)
      case Some(i) => Some(i + 1)
  }

  /** One step of the reduce: push the column onto its section's list,
      creating the list at the end when the section is new. */
  function AddColumn(acc: seq<Group>, c: Column): (r: seq<Group>)
    ensures TotalSpan(r) == TotalSpan(acc) + 1
    ensures c.section in Names(acc) ==> Names(r) == Names(acc)
    ensures c.section !in Names(acc) ==> Names(r) == Names(acc) + [c.section]
  {
    match IndexOfSection(acc, c.section)
    case None =>
      TotalSpanAppend(acc, [(c.section, [c])]);
      assert TotalSpan([(c.section, [c])]) == 1;
      var r := acc + [(c.section, [c])];
      assert Names(r) == Names(acc) + [c.section];
      r
    case Some(i) =>
      TotalSpanUpdate(acc, i, (acc[i].0, acc[i].1 + [c]));
      var r := acc[i := (acc[i].0, acc[i].1 + [c])];
      assert Names(r) == Names(acc);
      r
  }

  /** `groupedColumns`, as a left fold over the columns: the sections in
      order of first appearance, spanning all the columns between them. */
  function GroupColumns(cols: seq<Column>): (g: seq<Group>)
    ensures Names(g) == FirstAppearances(cols)
    ensures TotalSpan(g) == |cols|
    decreases |cols|
  {
    if cols == [] then [] else AddColumn(GroupColumns(cols[..|cols| - 1]), cols[|cols| - 1])
  }

  /** The columns of `cols` whose section is `section`, in order. */
  function ColumnsIn(cols: seq<Column>, section: string): (r: seq<Column>)
    ensures |r| <= |cols|
    ensures forall c | c in r :: c in cols && c.section == section
    decreases |cols|
  {
    if cols == [] then []
    else
      var init := ColumnsIn(cols[..|cols| - 1], section);
      if cols[|cols| - 1].section == section then init + [cols[|cols| - 1]] else init
  }

  /** The sections of `cols` in order of first appearance. */
  function FirstAppearances(cols: seq<Column>): seq<string>
    decreases |cols|
  {
    if cols == [] then []
    else
      var init := FirstAppearances(cols[..|cols| - 1]);
      if cols[|cols| - 1].section in init then init else init + [cols[|cols| - 1].section]
  }

  predicate Distinct(names: seq<string>) {
    forall i, j | 0 <= i < j < |names| :: names[i] != names[j]
  }

  function TotalSpan(g: seq<Group>): nat {
    if g == [] then 0 else |g[0].1| + TotalSpan(g[1..])
  }

  lemma {:induction false} TotalSpanAppend(g: seq<Group>, h: seq<Group>)
    ensures TotalSpan(g + h) == TotalSpan(g) + TotalSpan(h)
  {
    if g != [] {
      assert (g + h)[1..] == g[1..] + h;
      TotalSpanAppend(g[1..], h);
    } else {
      assert g + h == h;
    }
  }

  lemma {:induction false} TotalSpanUpdate(g: seq<Group>, i: nat, grp: Group)
    requires i < |g|
    ensures TotalSpan(g[i := grp]) == TotalSpan(g) - |g[i].1| + |grp.1|
  {
    if i == 0 {
      assert g[i := grp][1..] == g[1..];
    } else {
      assert g[i := grp][1..] == g[1..][i - 1 := grp];
      TotalSpanUpdate(g[1..], i - 1, grp);
    }
  }

  /** The group names are the sections in first-appearance order, and each
      group holds exactly its section's columns, in column order. */
  lemma {:induction false} GroupColumnsCorrect(cols: seq<Column>)
    ensures Names(GroupColumns(cols)) == FirstAppearances(cols)
    ensures forall i | 0 <= i < |GroupColumns(cols)| ::
              GroupColumns(cols)[i].1 == ColumnsIn(cols, GroupColumns(cols)[i].0)
    decreases |cols|
  {
    if cols != [] {
      var init := cols[..|cols| - 1];
      var c := cols[|cols| - 1];
      var g := GroupColumns(init);
      GroupColumnsCorrect(init);
      var g' := GroupColumns(cols);
      assert g' == AddColumn(g, c);
      match IndexOfSection(g, c.section)
      case None =>
        assert Names(g') == Names(g) + [c.section];
        forall i | 0 <= i < |g'| ensures g'[i].1 == ColumnsIn(cols, g'[i].0) {
          if i < |g| {
            assert g[i].0 != c.section;
          } else {
            assert ColumnsIn(init, c.section) == [] by {
              if ColumnsIn(init, c.section) != [] {
                FirstAppearancesCover(init, ColumnsIn(init, c.section)[0]);
              }
            }
          }
        }
      case Some(k) =>
        assert Names(g') == Names(g);
        forall i | 0 <= i < |g'| ensures g'[i].1 == ColumnsIn(cols, g'[i].0) {
          if i != k {
            assert g[i].0 != c.section by { DistinctNames(init); }
          }
        }
    }
  }

  /** Every column's section is among the first appearances. */
  lemma {:induction false} FirstAppearancesCover(cols: seq<Column>, c: Column)
    requires c in cols
    ensures c.section in FirstAppearances(cols)
    decreases |cols|
  {
    if c != cols[|cols| - 1] {
      assert c in cols[..|cols| - 1];
      FirstAppearancesCover(cols[..|cols| - 1], c);
    }
  }

  /** No section heads two header cells. */
  lemma {:induction false} DistinctNames(cols: seq<Column>)
    ensures Distinct(Names(GroupColumns(cols)))
    decreases |cols|
  {
    if cols != [] {
      var init := cols[..|cols| - 1];
      var c := cols[|cols| - 1];
      DistinctNames(init);
      var g := GroupColumns(init);
      match IndexOfSection(g, c.section)
      case None =>
        assert Names(AddColumn(g, c)) == Names(g) + [c.section];
      case Some(k) =>
        assert Names(AddColumn(g, c)) == Names(g);
    }
  }

  /** The fold takes one more step for one more column. */
  lemma GroupStep(cols: seq<Column>, c: Column)
    ensures GroupColumns(cols + [c]) == AddColumn(GroupColumns(cols), c)
  {
    assert (cols + [c])[..|cols|] == cols;
  }

  /** Appending a block of columns of one new section adds exactly one
      group, holding that block. */
  lemma {:induction false} GroupAppendBlock(cols: seq<Column>, block: seq<Column>, section: string)
    requires block != [] && forall c | c in block :: c.section == section
    requires section !in Names(GroupColumns(cols))
    ensures GroupColumns(cols + block) == GroupColumns(cols) + [(section, block)]
    decreases |block|
  {
    var last := block[|block| - 1];
    var front := block[..|block| - 1];
    assert block == front + [last];
    assert last.section == section by { assert last in block; }
    if front == [] {
      GroupAppendFirst(cols, last);
    } else {
      forall c | c in front ensures c.section == section { assert c in block; }
      GroupAppendBlock(cols, front, section);
      GroupAppendNext(cols, front, last);
    }
  }

  /** The first column of a new section opens its group. */
  lemma GroupAppendFirst(cols: seq<Column>, c: Column)
    requires c.section !in Names(GroupColumns(cols))
    ensures GroupColumns(cols + [c]) == GroupColumns(cols) + [(c.section, [c])]
  {
    GroupStep(cols, c);
    AddNewSection(GroupColumns(cols), c);
  }

  /** A further column of the section that was opened last joins its group. */
  lemma GroupAppendNext(cols: seq<Column>, front: seq<Column>, c: Column)
    requires c.section !in Names(GroupColumns(cols))
    requires GroupColumns(cols + front) == GroupColumns(cols) + [(c.section, front)]
    ensures GroupColumns(cols + (front + [c])) == GroupColumns(cols) + [(c.section, front + [c])]
  {
    GroupStep(cols + front, c);
    assert cols + (front + [c]) == (cols + front) + [c];
    AddToLastGroup(GroupColumns(cols), c.section, front, c);
  }

  /** A column of a section with no group yet opens a new group at the end. */
  lemma AddNewSection(g: seq<Group>, c: Column)
    requires c.section !in Names(g)
    ensures AddColumn(g, c) == g + [(c.section, [c])]
  {
    assert IndexOfSection(g, c.section).None?;
  }

  /** A column of the last group's section is pushed onto that group. */
  lemma AddToLastGroup(g: seq<Group>, section: string, front: seq<Column>, c: Column)
    requires section !in Names(g) && c.section == section
    ensures AddColumn(g + [(section, front)], c) == g + [(section, front + [c])]
  {
    AppendedGroupFound(g, section, front);
    var h := g + [(section, front)];
    assert h[|g| := (section, front + [c])] == g + [(section, front + [c])];
  }

  lemma {:induction false} AppendedGroupFound(g: seq<Group>, section: string, cols: seq<Column>)
    requires section !in Names(g)
    ensures IndexOfSection(g + [(section, cols)], section) == Some(|g|)
  {
    if g != [] {
      assert Names(g) == [g[0].0] + Names(g[1..]);
      assert (g + [(section, cols)])[1..] == g[1..] + [(section, cols)];
      AppendedGroupFound(g[1..], section, cols);
    }
  }

  predicate AllIn(block: seq<Column>, section: string) {
    block != [] && forall c | c in block :: c.section == section
  }

  /** The blocks laid end to end. */
  function Flatten(blocks: seq<seq<Column>>): seq<Column>
    decreases |blocks|
  {
    if blocks == [] then [] else Flatten(blocks[..|blocks| - 1]) + blocks[|blocks| - 1]
  }

  function Zip(names: seq<string>, blocks: seq<seq<Column>>): (g: seq<Group>)
    requires |names| == |blocks|
    ensures |g| == |names| && Names(g) == names
    ensures forall i | 0 <= i < |g| :: g[i] == (names[i], blocks[i])
  {
    seq(|names|, i requires 0 <= i < |names| => (names[i], blocks[i]))
  }

  /** Columns laid out as consecutive single-section blocks with distinct
      sections group back into exactly those blocks. */
  lemma {:induction false} GroupBlocks(blocks: seq<seq<Column>>, names: seq<string>)
    requires |blocks| == |names| && Distinct(names)
    requires forall i | 0 <= i < |blocks| :: AllIn(blocks[i], names[i])
    ensures GroupColumns(Flatten(blocks)) == Zip(names, blocks)
    decreases |blocks|
  {
    if blocks != [] {
      var n := |blocks| - 1;
      GroupBlocks(blocks[..n], names[..n]);
      assert names[n] !in names[..n];
      GroupAppendBlock(Flatten(blocks[..n]), blocks[n], names[n]);
      assert Zip(names[..n], blocks[..n]) + [(names[n], blocks[n])] == Zip(names, blocks);
    }
  }

  lemma FlattenSeven(a: seq<Column>, b: seq<Column>, c: seq<Column>, d: seq<Column>,
                     e: seq<Column>, f: seq<Column>, h: seq<Column>)
    ensures Flatten([a, b, c, d, e, f, h]) == a + b + c + d + e + f + h
  {
    var blocks := [a, b, c, d, e, f, h];
    assert Flatten(blocks[..1]) == a by { assert blocks[..1][..0] == []; }
    assert Flatten(blocks[..2]) == a + b by { assert blocks[..2][..1] == blocks[..1]; }
    assert Flatten(blocks[..3]) == a + b + c by { assert blocks[..3][..2] == blocks[..2]; }
    assert Flatten(blocks[..4]) == a + b + c + d by { assert blocks[..4][..3] == blocks[..3]; }
    assert Flatten(blocks[..5]) == a + b + c + d + e by { assert blocks[..5][..4] == blocks[..4]; }
    assert Flatten(blocks[..6]) == a + b + c + d + e + f by { assert blocks[..6][..5] == blocks[..5]; }
    assert blocks[..6] == blocks[..|blocks| - 1];
  }

  lemma ColumnsForBlocks(currentMonth: string, priorMonth: string)
    ensures ColumnsFor(currentMonth, priorMonth) ==
            SystemColumns() + ContractColumns(currentMonth, priorMonth) + CostColumns(currentMonth, priorMonth)
            + GaapColumns() + MarginColumns(currentMonth, priorMonth) + BillingColumns() + AdjustmentColumns()
  {
  }

  lemma SectionNamesDistinct()
    ensures Distinct(["system", "contract", "cost", "gaap", "margin", "billing", "adjustments"])
  {
  }

  lemma SevenBlockSpans(cols: seq<Column>, a: seq<Column>, b: seq<Column>, c: seq<Column>, d: seq<Column>,
                        e: seq<Column>, f: seq<Column>, h: seq<Column>)
    requires cols == Flatten([a, b, c, d, e, f, h])
    requires AllIn(a, "system") && AllIn(b, "contract") && AllIn(c, "cost") && AllIn(d, "gaap")
    requires AllIn(e, "margin") && AllIn(f, "billing") && AllIn(h, "adjustments")
    ensures GroupColumns(cols) ==
            Zip(["system", "contract", "cost", "gaap", "margin", "billing", "adjustments"], [a, b, c, d, e, f, h])
    ensures var g := GroupColumns(cols);
            && Names(g) == ["system", "contract", "cost", "gaap", "margin", "billing", "adjustments"]
            && |g[0].1| == |a| && |g[1].1| == |b| && |g[2].1| == |c| && |g[3].1| == |d|
            && |g[4].1| == |e| && |g[5].1| == |f| && |g[6].1| == |h|
  {
    var blocks := [a, b, c, d, e, f, h];
    var names := ["system", "contract", "cost", "gaap", "margin", "billing", "adjustments"];
    SectionNamesDistinct();
    GroupBlocks(blocks, names);
  }

  /** The header row of the grid: seven section cells, in schema order,
      spanning 2, 5, 5, 4, 4, 1 and 3 columns. */
  lemma SchemaHeaderSpans(currentMonth: string, priorMonth: string)
    ensures var g := GroupColumns(ColumnsFor(currentMonth, priorMonth));
            && Names(g) == ["system", "contract", "cost", "gaap", "margin", "billing", "adjustments"]
            && |g[0].1| == 2 && |g[1].1| == 5 && |g[2].1| == 5 && |g[3].1| == 4
            && |g[4].1| == 4 && |g[5].1| == 1 && |g[6].1| == 3
  {
    var a, b, c := SystemColumns(), ContractColumns(currentMonth, priorMonth), CostColumns(currentMonth, priorMonth);
    var d, e, f, h := GaapColumns(), MarginColumns(currentMonth, priorMonth), BillingColumns(), AdjustmentColumns();
    assert |a| == 2 && |b| == 5 && |c| == 5 && |d| == 4 && |e| == 4 && |f| == 1 && |h| == 3;
    ColumnsForBlocks(currentMonth, priorMonth);
    assert AllIn(a, "system") && AllIn(b, "contract") && AllIn(c, "cost") && AllIn(d, "gaap");
    assert AllIn(e, "margin") && AllIn(f, "billing") && AllIn(h, "adjustments");
    FlattenSeven(a, b, c, d, e, f, h);
    SevenBlockSpans(ColumnsFor(currentMonth, priorMonth), a, b, c, d, e, f, h);
  }
}
