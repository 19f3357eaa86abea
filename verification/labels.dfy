/**
 * The display labels shared by the proposal template, the comparison matrix
 * and the history list: a category code or company-size code maps to its
 * Japanese label, and an unknown code is shown as it is.
 */
module Labels {

  predicate KnownCategory(category: string) {
    category in {"accounting", "expense", "attendance", "hr", "workflow", "e_contract", "invoice", "procurement"}
  }

  /** `CATEGORY_LABELS[category] || category`. */
  function CategoryLabel(category: string): (r: string)
    ensures KnownCategory(category) ==> r != category && r != ""
    ensures !KnownCategory(category) ==> r == category
  {
    match category
    case "accounting" => "会計"
    case "expense" => "経費精算"
    case "attendance" => "勤怠管理"
    case "hr" => "人事労務"
    case "workflow" => "ワークフロー"
    case "e_contract" => "電子契約"
    case "invoice" => "請求書"
    case "procurement" => "調達"
    case _ => category
  }

  predicate KnownCompanySize(size: string) {
    size in {"1-50", "51-100", "101-300", "301-1000", "1001+"}
  }

  /** `COMPANY_SIZE_LABELS[size] || size`. */
  function CompanySizeLabel(size: string): (r: string)
    ensures KnownCompanySize(size) ==> r != size && r != ""
    ensures !KnownCompanySize(size) ==> r == size
  {
    match size
    case "1-50" => "1〜50名"
    case "51-100" => "51〜100名"
    case "101-300" => "101〜300名"
    case "301-1000" => "301〜1000名"
    case "1001+" => "1001名以上"
    case _ => size
  }
}
