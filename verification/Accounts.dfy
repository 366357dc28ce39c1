/** The account row as the authority checks read it, and the rule every account must satisfy. */
module Accounts {
  import opened Foundations

  datatype Role = USER | ADMIN

  datatype Status = PENDING_VERIFICATION | PENDING_APPROVAL | REJECTED | ACTIVE | SUSPENDED

  datatype Department = SALES | APPROVAL | CUTTING | PRODUCTION | QUALITY | WAREHOUSE

  datatype Account = Account(
    id: Id, email: string, fullName: string, phone: Option<string>,
    role: Role, status: Status, department: Option<Department>,
    staffApprovedAt: Option<Instant>, staffApprovedById: Option<Id>,
    accessVersion: nat, emailVerifiedAt: Option<Instant>)

  datatype Denial = Granted | AccountRestricted | DepartmentDenied

  /** assertBusinessAuthority. */
  function BusinessAuthority(a: Account, department: Option<Department>): Denial {
    if a.role == ADMIN then
      if a.status != ACTIVE || a.emailVerifiedAt == None then AccountRestricted else Granted
    else if a.status != ACTIVE || a.emailVerifiedAt == None || a.staffApprovedAt == None
      || a.staffApprovedById == None || a.department == None then AccountRestricted
    else if department != None && a.department != department then DepartmentDenied
    else Granted
  }

  /** The refinement of safeUserSchema together with the database checks on approval pairs and versions. */
  predicate Consistent(a: Account) {
    && (a.status == PENDING_VERIFICATION <==> a.emailVerifiedAt == None)
    && (a.staffApprovedAt == None <==> a.staffApprovedById == None)
    && a.accessVersion <= MAX_VERSION
    && (a.status == PENDING_VERIFICATION ==> a.department == None && a.staffApprovedAt == None)
    && (a.role == ADMIN ==>
      a.status != PENDING_APPROVAL && a.status != REJECTED && a.department == None && a.staffApprovedAt == None)
    && (a.role == USER ==>
      && (a.status == PENDING_APPROVAL || a.status == REJECTED ==> a.department == None && a.staffApprovedAt == None)
      && (a.status == ACTIVE ==> a.department != None && a.staffApprovedAt != None)
      && (a.status == SUSPENDED ==> (a.department == None <==> a.staffApprovedAt == None)))
  }
}
