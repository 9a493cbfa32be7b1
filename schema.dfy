/** The column schema of the WIP grid (`getDynamicColumns`), the section
    header grouping (`groupedColumns`), and the header and field labels. */
module Schema {
  import opened Wrappers
  import opened Fields
  import opened Calendar

  /** One column descriptor; `colType` is None for the two system columns. */
  datatype Column = Column(key: Field, title: string, section: string, width: string,
                           colType: Option<CellType>, frozen: bool)

  predicate InSection(s: seq<Column>, section: string, frozen: bool) {
    forall c | c in s :: c.section == section && c.frozen == frozen
  }

  function SystemColumns(): (s: seq<Column>)
    ensures |s| == 2 && InSection(s, "system", true)
  {
    [ Column(JobNumber, "Job #", "system", "100px", None, true),
      Column(ProjectName, "Project Name", "system", "300px", None, true) ]
  }

  function ContractColumns(currentMonth: string, priorMonth: string): (s: seq<Column>)
    ensures |s| == 5 && InSection(s, "contract", false)
  {
    [ Column(CurrentMonthOriginalContractAmount, "Original Contract", "contract", "140px", Some(Currency), false),
      Column(CurrentMonthChangeOrderAmount, "Change Orders", "contract", "130px", Some(Currency), false),
      Column(CurrentMonthTotalContractAmount, currentMonth + " Contract", "contract", "140px", Some(Currency), false),
      Column(PriorMonthTotalContractAmount, priorMonth + " Contract", "contract", "130px", Some(Currency), false),
      Column(CurrentVsPriorContractVariance, "Contract Variance", "contract", "140px", Some(Currency), false) ]
  }

  function CostColumns(currentMonth: string, priorMonth: string): (s: seq<Column>)
    ensures |s| == 5 && InSection(s, "cost", false)
  {
    [ Column(CurrentMonthCostToDate, "Cost to Date", "cost", "130px", Some(Currency), false),
      Column(CurrentMonthEstimatedCostToComplete, "Est. Cost to Complete", "cost", "160px", Some(Currency), false),
      Column(CurrentMonthEstimatedFinalCost, currentMonth + " Final Cost", "cost", "140px", Some(Currency), false),
      Column(PriorMonthEstimatedFinalCost, priorMonth + " Final Cost", "cost", "140px", Some(Currency), false),
      Column(CurrentVsPriorEstimatedFinalCostVariance, "Final Cost Variance", "cost", "150px", Some(Currency), false) ]
  }

  function GaapColumns(): (s: seq<Column>)
    ensures |s| == 4 && InSection(s, "gaap", false)
  {
    [ Column(UsGaapPercentCompletion, "GAAP % Complete", "gaap", "130px", Some(Percentage), false),
      Column(RevenueEarnedToDateUsGaap, "Revenue Earned (GAAP)", "gaap", "160px", Some(Currency), false),
      Column(EstimatedJobMarginToDateUsGaap, "Job Margin (GAAP)", "gaap", "150px", Some(Currency), false),
      Column(EstimatedJobMarginToDatePercentSales, "Job Margin %", "gaap", "120px", Some(Percentage), false) ]
  }

  function MarginColumns(currentMonth: string, priorMonth: string): (s: seq<Column>)
    ensures |s| == 4 && InSection(s, "margin", false)
  {
    [ Column(CurrentMonthEstimatedJobMarginAtCompletion, currentMonth + " Job Margin", "margin", "140px", Some(Currency), false),
      Column(PriorMonthEstimatedJobMarginAtCompletion, priorMonth + " Job Margin", "margin", "140px", Some(Currency), false),
      Column(CurrentVsPriorEstimatedJobMargin, "Job Margin Variance", "margin", "150px", Some(Currency), false),
      Column(CurrentMonthEstimatedJobMarginPercentSales, "Job Margin % Sales", "margin", "150px", Some(Percentage), false) ]
  }

  function BillingColumns(): (s: seq<Column>)
    ensures |s| == 1 && InSection(s, "billing", false)
  {
    [ Column(CurrentMonthRevenueBilledToDate, "Revenue Billed", "billing", "140px", Some(Currency), false) ]
  }

  function AdjustmentColumns(): (s: seq<Column>)
    ensures |s| == 3 && InSection(s, "adjustments", false)
  {
    [ Column(CurrentMonthCostsInExcessBillings, "Costs in Excess", "adjustments", "140px", Some(Currency), false),
      Column(CurrentMonthBillingsExcessRevenue, "Billings in Excess", "adjustments", "150px", Some(Currency), false),
      Column(CurrentMonthAddlEntryRequired, "Additional Entry", "adjustments", "140px", Some(Currency), false) ]
  }

  predicate DataSections(s: seq<Column>) {
    forall c | c in s :: !c.frozen && c.section != "system"
  }

  /** Six blocks of unfrozen non-system columns of sizes 5, 5, 4, 4, 1 and 3
      make 22 such columns, each block at its offset. */
  lemma DataBlocks(a: seq<Column>, b: seq<Column>, c: seq<Column>, d: seq<Column>,
                   e: seq<Column>, f: seq<Column>)
    requires |a| == 5 && |b| == 5 && |c| == 4 && |d| == 4 && |e| == 1 && |f| == 3
    requires DataSections(a) && DataSections(b) && DataSections(c)
    requires DataSections(d) && DataSections(e) && DataSections(f)
    ensures var s := a + (b + (c + (d + (e + f))));
            && |s| == 22 && DataSections(s)
            && s[..5] == a && s[5..10] == b && s[14..18] == d
  {
    var s := a + (b + (c + (d + (e + f))));
    assert s[..5] == a;
    assert s[5..] == b + (c + (d + (e + f)));
    assert s[5..][..5] == b;
    assert s[14..] == d + (e + f);
    assert s[14..][..4] == d;
  }

  /** The 22 data columns after the two system columns, section by section. */
  function DataColumns(currentMonth: string, priorMonth: string): (s: seq<Column>)
    ensures |s| == 22 && DataSections(s)
    ensures s[..5] == ContractColumns(currentMonth, priorMonth)
    ensures s[5..10] == CostColumns(currentMonth, priorMonth)
    ensures s[14..18] == MarginColumns(currentMonth, priorMonth)
  {
    var contract := ContractColumns(currentMonth, priorMonth);
    var cost := CostColumns(currentMonth, priorMonth);
    var gaap := GaapColumns();
    var margin := MarginColumns(currentMonth, priorMonth);
    var billing := BillingColumns();
    var adjustments := AdjustmentColumns();
    DataBlocks(contract, cost, gaap, margin, billing, adjustments);
    contract + (cost + (gaap + (margin + (billing + adjustments))))
  }

  /** The 24-column array literal of `getDynamicColumns`, given the two
      month names it interpolates: two frozen system columns first, then
      22 unfrozen data columns. */
  function ColumnsFor(currentMonth: string, priorMonth: string): (cols: seq<Column>)
    ensures |cols| == 24
    ensures forall i | 0 <= i < |cols| :: cols[i].frozen <==> i < 2
    ensures forall i | 0 <= i < |cols| :: cols[i].section == "system" <==> i < 2
    ensures cols[0].key == JobNumber && cols[1].key == ProjectName
  {
    var sys := SystemColumns();
    var data := DataColumns(currentMonth, priorMonth);
    var cols := sys + data;
    forall i | 2 <= i < |cols| ensures !cols[i].frozen && cols[i].section != "system" {
      assert cols[i] == data[i - 2];
      assert data[i - 2] in data;
    }
    cols
  }

  /** Only the six month-labelled columns depend on the month names: the other
      18 columns are the same for every report date. */
  lemma OtherColumnsConstant(a: string, b: string, c: string, d: string)
    ensures forall i | 0 <= i < 24 && i != 4 && i != 5 && i != 9 && i != 10 && i != 16 && i != 17 ::
              ColumnsFor(a, b)[i] == ColumnsFor(c, d)[i]
  {
    var x, y := DataColumns(a, b), DataColumns(c, d);
    FixedBlockColumns(a, b, c, d);
    DataColumnsBlocks(a, b);
    DataColumnsBlocks(c, d);
    DataBlocksAgree(ContractColumns(a, b), CostColumns(a, b), GaapColumns(), MarginColumns(a, b),
                    BillingColumns(), AdjustmentColumns(),
                    ContractColumns(c, d), CostColumns(c, d), MarginColumns(c, d));
    SystemThenData(ColumnsFor(a, b), x);
    SystemThenData(ColumnsFor(c, d), y);
    forall i | 0 <= i < 24 && i != 4 && i != 5 && i != 9 && i != 10 && i != 16 && i != 17
      ensures ColumnsFor(a, b)[i] == ColumnsFor(c, d)[i]
    {
      if 2 <= i {
        assert ColumnsFor(a, b)[i] == x[i - 2] && ColumnsFor(c, d)[i] == y[i - 2];
      }
    }
  }

  /** The columns of the interpolated blocks that carry no month name. */
  lemma FixedBlockColumns(a: string, b: string, c: string, d: string)
    ensures var p, q := ContractColumns(a, b), ContractColumns(c, d);
            p[0] == q[0] && p[1] == q[1] && p[4] == q[4]
    ensures var p, q := CostColumns(a, b), CostColumns(c, d);
            p[0] == q[0] && p[1] == q[1] && p[4] == q[4]
    ensures var p, q := MarginColumns(a, b), MarginColumns(c, d);
            p[2] == q[2] && p[3] == q[3]
  {
  }

  lemma DataColumnsBlocks(a: string, b: string)
    ensures DataColumns(a, b) ==
            ContractColumns(a, b) + (CostColumns(a, b) + (GaapColumns() + (MarginColumns(a, b)
            + (BillingColumns() + AdjustmentColumns()))))
  {
  }

  /** Two data layouts that differ only inside the contract, cost and margin
      blocks, and there only at the two month-labelled positions of each. */
  lemma DataBlocksAgree(a: seq<Column>, b: seq<Column>, c: seq<Column>, d: seq<Column>,
                        e: seq<Column>, f: seq<Column>, a': seq<Column>, b': seq<Column>, d': seq<Column>)
    requires |a| == |a'| == 5 && |b| == |b'| == 5 && |c| == 4 && |d| == |d'| == 4 && |e| == 1 && |f| == 3
    requires a[0] == a'[0] && a[1] == a'[1] && a[4] == a'[4]
    requires b[0] == b'[0] && b[1] == b'[1] && b[4] == b'[4]
    requires d[2] == d'[2] && d[3] == d'[3]
    ensures var s := a + (b + (c + (d + (e + f))));
            var t := a' + (b' + (c + (d' + (e + f))));
            forall k | 0 <= k < 22 && k != 2 && k != 3 && k != 7 && k != 8 && k != 14 && k != 15 ::
              s[k] == t[k]
  {
    var tail, tail' := d + (e + f), d' + (e + f);
    var mid, mid' := b + (c + tail), b' + (c + tail');
    forall k | 0 <= k < 22 && k != 2 && k != 3 && k != 7 && k != 8 && k != 14 && k != 15
      ensures (a + mid)[k] == (a' + mid')[k]
    {
      if 5 <= k {
        assert (a + mid)[k] == mid[k - 5] && (a' + mid')[k] == mid'[k - 5];
        if 10 <= k {
          assert mid[k - 5] == (c + tail)[k - 10] && mid'[k - 5] == (c + tail')[k - 10];
          if 14 <= k {
            assert (c + tail)[k - 10] == tail[k - 14] && (c + tail')[k - 10] == tail'[k - 14];
          }
        }
      }
    }
  }

  lemma SystemThenData(cols: seq<Column>, data: seq<Column>)
    requires |data| == 22 && cols == SystemColumns() + data
    ensures forall i | 2 <= i < 24 :: cols[i] == data[i - 2]
  {
  }

  /** The six month-relative labels: "<month> Contract", "<month> Final
      Cost" and "<month> Job Margin", current month then prior month. */
  lemma MonthLabels(currentMonth: string, priorMonth: string)
    ensures var cols := ColumnsFor(currentMonth, priorMonth);
            && cols[4].title == currentMonth + " Contract" && cols[5].title == priorMonth + " Contract"
            && cols[9].title == currentMonth + " Final Cost" && cols[10].title == priorMonth + " Final Cost"
            && cols[16].title == currentMonth + " Job Margin" && cols[17].title == priorMonth + " Job Margin"
  {
    var data := DataColumns(currentMonth, priorMonth);
    ColumnsForData(currentMonth, priorMonth);
    ContractLabels(data[..5], currentMonth, priorMonth);
    CostLabels(data[5..10], currentMonth, priorMonth);
    MarginLabels(data[14..18], currentMonth, priorMonth);
  }

  lemma ColumnsForData(currentMonth: string, priorMonth: string)
    ensures var cols := ColumnsFor(currentMonth, priorMonth);
            var data := DataColumns(currentMonth, priorMonth);
            && cols[4] == data[..5][2] && cols[5] == data[..5][3]
            && cols[9] == data[5..10][2] && cols[10] == data[5..10][3]
            && cols[16] == data[14..18][0] && cols[17] == data[14..18][1]
  {
    var data := DataColumns(currentMonth, priorMonth);
    assert ColumnsFor(currentMonth, priorMonth) == SystemColumns() + data;
  }

  lemma ContractLabels(block: seq<Column>, currentMonth: string, priorMonth: string)
    requires block == ContractColumns(currentMonth, priorMonth)
    ensures block[2].title == currentMonth + " Contract" && block[3].title == priorMonth + " Contract"
  {
  }

  lemma CostLabels(block: seq<Column>, currentMonth: string, priorMonth: string)
    requires block == CostColumns(currentMonth, priorMonth)
    ensures block[2].title == currentMonth + " Final Cost" && block[3].title == priorMonth + " Final Cost"
  {
  }

  lemma MarginLabels(block: seq<Column>, currentMonth: string, priorMonth: string)
    requires block == MarginColumns(currentMonth, priorMonth)
    ensures block[0].title == currentMonth + " Job Margin" && block[1].title == priorMonth + " Job Margin"
  {
  }

  /** `getDynamicColumns(reportDate)` as written: the prior month is taken
      from `setMonth(getMonth() - 1)`, day overflow included. */
  function DynamicColumns(reportDate: Date): (cols: seq<Column>)
    requires ValidDate(reportDate)
    ensures |cols| == 24
    ensures cols[4].title == MonthName(reportDate.month) + " Contract"
    ensures cols[5].title == PriorMonthNameAsWritten(reportDate) + " Contract"
    ensures cols[9].title == MonthName(reportDate.month) + " Final Cost"
    ensures cols[10].title == PriorMonthNameAsWritten(reportDate) + " Final Cost"
    ensures cols[16].title == MonthName(reportDate.month) + " Job Margin"
    ensures cols[17].title == PriorMonthNameAsWritten(reportDate) + " Job Margin"
    ensures var p := PrevMonth(reportDate.year, reportDate.month);
            cols[5].title == cols[4].title <==> reportDate.day > DaysInMonth(p.0, p.1)
    ensures var p := PrevMonth(reportDate.year, reportDate.month);
            cols[10].title == cols[9].title <==> reportDate.day > DaysInMonth(p.0, p.1)
    ensures var p := PrevMonth(reportDate.year, reportDate.month);
            cols[17].title == cols[16].title <==> reportDate.day > DaysInMonth(p.0, p.1)
  {
    var current := MonthName(reportDate.month);
    var prior := PriorMonthNameAsWritten(reportDate);
    MonthLabels(current, prior);
    PriorMonthNameAsWrittenRepeats(reportDate);
    assert prior != current ==>
             && prior + " Contract" != current + " Contract"
             && prior + " Final Cost" != current + " Final Cost"
             && prior + " Job Margin" != current + " Job Margin" by {
      if prior != current {
        SuffixCancels(prior, current, " Contract");
        SuffixCancels(prior, current, " Final Cost");
        SuffixCancels(prior, current, " Job Margin");
      }
    }
    ColumnsFor(current, prior)
  }

  /** The column schema with the prior month taken from the calendar, as
      the labels intend; its prior-month labels never repeat the current
      month. */
  function DynamicColumnsCorrected(reportDate: Date): (cols: seq<Column>)
    requires ValidDate(reportDate)
    ensures |cols| == 24
    ensures cols[4].title == MonthName(reportDate.month) + " Contract"
    ensures cols[5].title == PriorMonthName(reportDate) + " Contract"
    ensures cols[9].title == MonthName(reportDate.month) + " Final Cost"
    ensures cols[10].title == PriorMonthName(reportDate) + " Final Cost"
    ensures cols[16].title == MonthName(reportDate.month) + " Job Margin"
    ensures cols[17].title == PriorMonthName(reportDate) + " Job Margin"
    ensures cols[5].title != cols[4].title && cols[10].title != cols[9].title
    ensures cols[17].title != cols[16].title
  {
    var current := MonthName(reportDate.month);
    var prior := PriorMonthName(reportDate);
    var cols := ColumnsFor(current, prior);
    MonthLabels(current, prior);
    SuffixCancels(prior, current, " Contract");
    SuffixCancels(prior, current, " Final Cost");
    SuffixCancels(prior, current, " Job Margin");
    cols
  }

  /** The corrected prior-month label on a given date, by the name of the
      previous calendar month. */
  lemma CorrectedPriorLabel(d: Date, name: string, title: string)
    requires ValidDate(d)
    requires d.month == 1 ==> name == "December"
    requires d.month > 1 ==> name == MonthName(d.month - 1)
    requires title == name + " Contract"
    ensures DynamicColumnsCorrected(d)[5].title == title
  {
    PriorMonthNameIsPrevious(d);
  }

  /** On the default report date, 2025-07-31, the prior column is June's. */
  lemma CorrectedLabelJuly(d: Date)
    requires d.year == 2025 && d.month == 7 && d.day == 31
    ensures DynamicColumnsCorrected(d)[5].title == "June Contract"
  {
    assert ValidDate(d);
    CorrectedPriorLabel(d, "June", "June Contract");
  }

  /** On 2025-03-31, where the as-written schema labels "March" twice, the
      corrected one shows February. */
  lemma CorrectedLabelMarch(d: Date)
    requires d.year == 2025 && d.month == 3 && d.day == 31
    ensures DynamicColumnsCorrected(d)[5].title == "February Contract"
  {
    assert ValidDate(d);
    CorrectedPriorLabel(d, "February", "February Contract");
  }

  /** Across the year boundary, on 2025-01-31, the prior column is December's. */
  lemma CorrectedLabelJanuary(d: Date)
    requires d.year == 2025 && d.month == 1 && d.day == 31
    ensures DynamicColumnsCorrected(d)[5].title == "December Contract"
  {
    assert ValidDate(d);
    CorrectedPriorLabel(d, "December", "December Contract");
  }

  /** Appending the same suffix keeps distinct strings distinct. */
  lemma SuffixCancels(a: string, b: string, suffix: string)
    requires a != b
    ensures a + suffix != b + suffix
  {
    if |a| == |b| {
      assert (a + suffix)[..|a|] == a && (b + suffix)[..|b|] == b;
    }
  }
}
