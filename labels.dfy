/** Header and dialog labels: `getSectionLabel` and the read-only
    dashboard's `FIELD_LABELS` table, both with their fall-backs. */
module Labels {
  import opened Wrappers
  import opened Fields

  /** The fixed labels of the non-system sections. */
  const SectionLabels: map<string, string> := map[
    "contract" := "Contract Section",
    "cost" := "Cost Section",
    "gaap" := "US GAAP Section",
    "margin" := "Job Margin Section",
    "billing" := "Billing Section",
    "adjustments" := "WIP Adjustments"]

  /** `getSectionLabel(section, reportDate)`. `longDate` is the
      `toLocaleDateString` text of the report date, passed only for the
      system section and only when the date is a non-empty string. */
  function SectionLabel(section: string, longDate: Option<string>): (text: string)
    ensures section == "system" && longDate.Some? ==> text == "Projects - " + longDate.value
    ensures section == "system" && longDate.None? ==> text == "Projects"
    ensures section != "system" && section in SectionLabels ==> text == SectionLabels[section]
    ensures section != "system" && section !in SectionLabels ==> text == section
  {
    if section == "system" then
      if longDate.Some? then "Projects - " + longDate.value else "Projects"
    else if section in SectionLabels then SectionLabels[section]
    else section
  }

  /** A section's own name is shown exactly for the unknown sections: every
      known section has a label different from its name. */
  lemma SectionLabelFallback(section: string, longDate: Option<string>)
    ensures SectionLabel(section, longDate) == section <==>
            section != "system" && section !in SectionLabels
  {
    if section == "system" {
      assert SectionLabel(section, longDate)[..8] == "Projects";
    }
  }

  /** `FIELD_LABELS`: every column except the two identity columns. The
      source keys it by the field's wire key; `Key` is one-to-one, so
      keying by the field is the same table. */
  const FieldLabels: map<Field, string> := map[
    CurrentMonthOriginalContractAmount := "Original Contract Amount",
    CurrentMonthChangeOrderAmount := "Change Order Amount",
    CurrentMonthTotalContractAmount := "Total Contract Amount",
    PriorMonthTotalContractAmount := "Prior Month Contract",
    CurrentVsPriorContractVariance := "Contract Variance",
    CurrentMonthCostToDate := "Cost to Date",
    CurrentMonthEstimatedCostToComplete := "Estimated Cost to Complete",
    CurrentMonthEstimatedFinalCost := "Estimated Final Cost",
    PriorMonthEstimatedFinalCost := "Prior Month Final Cost",
    CurrentVsPriorEstimatedFinalCostVariance := "Final Cost Variance",
    UsGaapPercentCompletion := "US GAAP % Complete",
    RevenueEarnedToDateUsGaap := "Revenue Earned (GAAP)",
    EstimatedJobMarginToDateUsGaap := "Job Margin (GAAP)",
    EstimatedJobMarginToDatePercentSales := "Job Margin %",
    CurrentMonthEstimatedJobMarginAtCompletion := "Estimated Job Margin",
    PriorMonthEstimatedJobMarginAtCompletion := "Prior Job Margin",
    CurrentVsPriorEstimatedJobMargin := "Job Margin Variance",
    CurrentMonthEstimatedJobMarginPercentSales := "Job Margin % of Sales",
    CurrentMonthRevenueBilledToDate := "Revenue Billed to Date",
    CurrentMonthCostsInExcessBillings := "Costs in Excess of Billings",
    CurrentMonthBillingsExcessRevenue := "Billings in Excess of Revenue",
    CurrentMonthAddlEntryRequired := "Additional Entry Required"]

  /** `FIELD_LABELS[field] || field`: the label the read-only dashboard's
      dialog shows for a field. */
  function FieldLabel(field: Field): (text: string)
    ensures field in FieldLabels ==> text == FieldLabels[field]
    ensures field !in FieldLabels ==> text == Key(field)
  {
    if field in FieldLabels then FieldLabels[field] else Key(field)
  }

  /** The table covers every column but the two identity columns, so only
      those fall back to their raw key. */
  lemma FieldLabelFallback(field: Field)
    ensures field in FieldLabels <==> field != JobNumber && field != ProjectName
    ensures field == JobNumber || field == ProjectName ==> FieldLabel(field) == Key(field)
  {
  }
}
