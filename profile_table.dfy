/** The employee profile table: the role labels and the fallback texts of its cells. */
module ProfileTable {
  import opened JsValues

  const RoleLabels: map<string, string> := map[
    "admin" := "Administrator",
    "employee" := "Employee",
    "accountant" := "Accountant",
    "operation" := "Operations",
    "sales_manager" := "Sales Manager"
  ]

  /** `getRoleLabel`: the label of a known role, otherwise the role itself. */
  function RoleLabel(role: string): (r: string)
    ensures role == "admin" ==> r == "Administrator"
    ensures role == "employee" ==> r == "Employee"
    ensures role == "accountant" ==> r == "Accountant"
    ensures role == "operation" ==> r == "Operations"
    ensures role == "sales_manager" ==> r == "Sales Manager"
    ensures role !in {"admin", "employee", "accountant", "operation", "sales_manager"} ==> r == role
  {
    if role in RoleLabels && RoleLabels[role] != "" then RoleLabels[role] else role
  }

  /** The lookup is exact: a role differing only in case is not translated. */
  lemma RoleLabelIsCaseSensitive()
    ensures RoleLabel("Admin") == "Admin" && RoleLabel("ADMIN") == "ADMIN"
  {
  }

  /** No label is itself a role key, so labelling twice changes nothing more. */
  lemma RoleLabelIdempotent(role: string)
    ensures RoleLabel(RoleLabel(role)) == RoleLabel(role)
  {
    if role in RoleLabels {
      assert RoleLabel(role) !in RoleLabels;
    }
  }

  /** The name cell shows `OrFallback(full_name, UnnamedUser)`. */
  const UnnamedUser := "Unnamed User"

  /** The status cell: 'Active' exactly when `is_active` is truthy. */
  function StatusCell(isActive: Value): (r: string)
    ensures r == "Active" <==> Truthy(isActive)
    ensures r == "Inactive" <==> !Truthy(isActive)
  {
    if Truthy(isActive) then "Active" else "Inactive"
  }
}
