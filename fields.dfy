/** The closed set of snapshot-row fields shown as grid columns, their wire
    keys, and the values a cell can hold. */
module Fields {

  /** One constructor per column key of the WIP grid, in column order. */
  datatype Field =
    | JobNumber
    | ProjectName
    | CurrentMonthOriginalContractAmount
    | CurrentMonthChangeOrderAmount
    | CurrentMonthTotalContractAmount
    | PriorMonthTotalContractAmount
    | CurrentVsPriorContractVariance
    | CurrentMonthCostToDate
    | CurrentMonthEstimatedCostToComplete
    | CurrentMonthEstimatedFinalCost
    | PriorMonthEstimatedFinalCost
    | CurrentVsPriorEstimatedFinalCostVariance
    | UsGaapPercentCompletion
    | RevenueEarnedToDateUsGaap
    | EstimatedJobMarginToDateUsGaap
    | EstimatedJobMarginToDatePercentSales
    | CurrentMonthEstimatedJobMarginAtCompletion
    | PriorMonthEstimatedJobMarginAtCompletion
    | CurrentVsPriorEstimatedJobMargin
    | CurrentMonthEstimatedJobMarginPercentSales
    | CurrentMonthRevenueBilledToDate
    | CurrentMonthCostsInExcessBillings
    | CurrentMonthBillingsExcessRevenue
    | CurrentMonthAddlEntryRequired

  /** The snake_case property name of the field on a snapshot row; this is
      what an explanation's `field_name` is compared with. */
  function Key(f: Field): string {
    match f
    case JobNumber => "job_number"
    case ProjectName => "project_name"
    case CurrentMonthOriginalContractAmount => "current_month_original_contract_amount"
    case CurrentMonthChangeOrderAmount => "current_month_change_order_amount"
    case CurrentMonthTotalContractAmount => "current_month_total_contract_amount"
    case PriorMonthTotalContractAmount => "prior_month_total_contract_amount"
    case CurrentVsPriorContractVariance => "current_vs_prior_contract_variance"
    case CurrentMonthCostToDate => "current_month_cost_to_date"
    case CurrentMonthEstimatedCostToComplete => "current_month_estimated_cost_to_complete"
    case CurrentMonthEstimatedFinalCost => "current_month_estimated_final_cost"
    case PriorMonthEstimatedFinalCost => "prior_month_estimated_final_cost"
    case CurrentVsPriorEstimatedFinalCostVariance => "current_vs_prior_estimated_final_cost_variance"
    case UsGaapPercentCompletion => "us_gaap_percent_completion"
    case RevenueEarnedToDateUsGaap => "revenue_earned_to_date_us_gaap"
    case EstimatedJobMarginToDateUsGaap => "estimated_job_margin_to_date_us_gaap"
    case EstimatedJobMarginToDatePercentSales => "estimated_job_margin_to_date_percent_sales"
    case CurrentMonthEstimatedJobMarginAtCompletion => "current_month_estimated_job_margin_at_completion"
    case PriorMonthEstimatedJobMarginAtCompletion => "prior_month_estimated_job_margin_at_completion"
    case CurrentVsPriorEstimatedJobMargin => "current_vs_prior_estimated_job_margin"
    case CurrentMonthEstimatedJobMarginPercentSales => "current_month_estimated_job_margin_percent_sales"
    case CurrentMonthRevenueBilledToDate => "current_month_revenue_billed_to_date"
    case CurrentMonthCostsInExcessBillings => "current_month_costs_in_excess_billings"
    case CurrentMonthBillingsExcessRevenue => "current_month_billings_excess_revenue"
    case CurrentMonthAddlEntryRequired => "current_month_addl_entry_required"
  }

  /** The formatting type a column declares. */
  datatype CellType = Currency | Percentage | Text

  /** A cell's raw value on a snapshot row. Numbers are carried as the
      decimal text JavaScript's `String(n)` gives them (so zero, and minus
      zero, are "0"); the grid only stringifies them, compares them with 0,
      and hands them to locale formatting. */
  datatype Value = Absent | Number(text: string) | Text(text: string)

  /** JavaScript truthiness of a cell value: undefined/null, "", 0 and NaN
      are falsy. */
  predicate Truthy(v: Value) {
    match v
    case Absent => false
    case Number(t) => t != "0" && t != "NaN"
    case Text(s) => s != ""
  }
}
