/** The risk taxonomy of tools (internal/mcp/risk.go): a bitmask, seen as a set. */
module RiskClass {
  datatype Risk =
    | Read | Write | SensitiveRead | Billing | Admin | PermissionChange | ExternalSideEffect | Destructive

  /** The bits, other than destructive, that the limiters treat as high risk. */
  predicate IsSensitiveWrite(risks: set<Risk>) {
    Billing in risks || Admin in risks || PermissionChange in risks || ExternalSideEffect in risks
  }
}
