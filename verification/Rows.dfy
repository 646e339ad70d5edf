/** What the tenant service and the app service share: tenant rows, defaults, and what goes wrong. */
module Rows {
  datatype TenantRow = TenantRow(name: string, displayName: string, plan: string)

  /** What goes wrong during one operation: the database write, or one of the calls around it. */
  datatype Fault = NoFault | StoreFails | NoClient | TenantLookupFails | GetFails | WriteFails

  function OrElse<T(==)>(x: T, unset: T, default: T): T {
    if x == unset then default else x
  }

  predicate ValidPlan(plan: string) {
    plan == "free" || plan == "starter" || plan == "pro" || plan == "enterprise"
  }
}
