/** The three roles a profile can carry (`profiles.role`). */
module Roles {
  import opened Wrappers

  datatype Role = Admin | Leader | Member

  /** `role === 'admin' || role === 'leader'` on a role that may be absent
      (no profile loaded, or the lookup failed). */
  predicate IsManager(role: Option<Role>): (b: bool)
    ensures b <==> role.Some? && !role.value.Member?
  {
    role == Some(Admin) || role == Some(Leader)
  }
}
