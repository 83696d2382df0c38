/** The alerts the token revoker consumes, and the filter in front of it. */
module Alerts {
  import opened Tokens

  type User = string
  type AlertId = string

  datatype Alert = Alert(id: AlertId, class_: string, severity: string, userId: User, jti: Jti)

  const SEVERITIES: set<string> := {"High", "Critical"}

  predicate ShouldProcess(a: Alert) {
    a.class_ == "Account Compromise" && a.severity in SEVERITIES
  }
}
