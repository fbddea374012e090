/** Who may see churn analytics for a seller (`ChurnPolicy#show?`). Whether the feature flag is
    on for the seller and which of the four roles the user holds for that seller are inputs. */
module ChurnPolicy {

  /** The answers of `role_admin_for?`, `role_marketing_for?`, `role_support_for?` and
      `role_accountant_for?` for the seller. */
  datatype Roles = Roles(admin: bool, marketing: bool, support: bool, accountant: bool)

  const NoRoles := Roles(false, false, false, false)

  /** `show?`: the feature is on for the seller and the user holds at least one of the roles. */
  function Show(featureActive: bool, roles: Roles): (r: bool)
    ensures !featureActive ==> !r
    ensures featureActive ==> (r <==> roles != NoRoles)
  {
    featureActive && (roles.admin || roles.marketing || roles.support || roles.accountant)
  }

  /** `b` holds every role `a` holds. */
  predicate HasAllOf(b: Roles, a: Roles) {
    (a.admin ==> b.admin) && (a.marketing ==> b.marketing) && (a.support ==> b.support) && (a.accountant ==> b.accountant)
  }

  /** Granting more roles never takes access away. */
  lemma ShowMonotone(featureActive: bool, a: Roles, b: Roles)
    requires HasAllOf(b, a) && Show(featureActive, a)
    ensures Show(featureActive, b)
  {
  }

  /** With the feature on, each single role is enough. */
  lemma EachRoleSuffices()
    ensures Show(true, NoRoles.(admin := true))
    ensures Show(true, NoRoles.(marketing := true))
    ensures Show(true, NoRoles.(support := true))
    ensures Show(true, NoRoles.(accountant := true))
    ensures !Show(true, NoRoles)
  {
  }
}
