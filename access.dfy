/**
 * The role gate. The same expression is written out in the navigation bar,
 * the dashboard, the profile page and the report detail; it is defined once
 * here and every view uses it.
 */
module Access {
  import opened Types

  /**
   * `profile?.role === 'municipal_admin' || profile?.role === 'super_admin'`;
   * the administrators are exactly the signed-in principals that are not citizens.
   */
  predicate IsAdmin(profile: Option<Profile>): (r: bool)
    ensures r <==> profile.Some? && profile.value.role != Citizen
  {
    profile.Some? && (profile.value.role == MunicipalAdmin || profile.value.role == SuperAdmin)
  }

  /** `profile?.id === report.user_id` */
  predicate IsOwner(profile: Option<Profile>, report: Report)
  {
    profile.Some? && profile.value.id == report.userId
  }
}
