/**
 * src/components/MovieSectionCard.jsx: whether a user's plan opens a film
 * section, by the plan hierarchy basico < premium < cinefilo.
 */
module SectionAccess {
  import opened Wrappers

  /** planHierarchy, with 0 for a missing or unknown plan. */
  function PlanLevel(plan: Option<string>): (r: nat)
    ensures r <= 3
    ensures r == 0 <==> !(plan == Some("basico") || plan == Some("premium") || plan == Some("cinefilo"))
  {
    if plan == Some("basico") then 1
    else if plan == Some("premium") then 2
    else if plan == Some("cinefilo") then 3
    else 0
  }

  /** userHasAccess: a section without a required plan is open; otherwise the user's level must reach the required one. */
  predicate HasAccess(requiresPlan: Option<string>, userPlan: Option<string>) {
    if requiresPlan.None? || requiresPlan == Some("") then true
    else PlanLevel(userPlan) >= PlanLevel(requiresPlan)
  }

  /** No required plan, or one outside the hierarchy, opens the section to every user. */
  lemma UnknownRequirementIsOpen(requiresPlan: Option<string>, userPlan: Option<string>)
    requires PlanLevel(requiresPlan) == 0
    ensures HasAccess(requiresPlan, userPlan)
  {
  }

  /** A user whose plan ranks at least as high has at least the same access. */
  lemma AccessIsMonotone(requiresPlan: Option<string>, lower: Option<string>, higher: Option<string>)
    requires PlanLevel(lower) <= PlanLevel(higher)
    ensures HasAccess(requiresPlan, lower) ==> HasAccess(requiresPlan, higher)
  {
  }

  /** A cinefilo plan opens every section; a premium plan does not open a cinefilo section. */
  lemma CinefiloOpensAll(requiresPlan: Option<string>)
    ensures HasAccess(requiresPlan, Some("cinefilo"))
    ensures !HasAccess(Some("cinefilo"), Some("premium"))
  {
  }

  datatype Section = Section(key: string, displayName: string, requiresPlan: Option<string>)

  datatype ClickOutcome = OpenSection(key: string) | Alert(message: string)

  /** handleClick: onClick(section.key) exactly when the user has access, an alert otherwise. */
  function HandleClick(section: Section, userPlan: Option<string>): (r: ClickOutcome)
    ensures r.OpenSection? <==> HasAccess(section.requiresPlan, userPlan)
    ensures r.OpenSection? ==> r.key == section.key
  {
    if HasAccess(section.requiresPlan, userPlan) then OpenSection(section.key)
    else Alert("\"" + section.displayName + "\" está disponible para planes PREMIUM o CINÉFILO. Compra o actualiza tu membresía para acceder.")
  }
}
