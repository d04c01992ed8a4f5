/** Which jobs may leave the machine (privacy.rs). */
module Privacy {
  import opened Jobs

  datatype Preference = PreferLocal | PreferExternal | ExternalOnly | LocalOnly

  datatype RoutingPolicy = RoutingPolicy(preference: Preference, fallback: bool, externalLevels: seq<PrivacyLevel>)

  datatype Denial =
    | NotAccepted(level: PrivacyLevel)
    | NeverExternal
    | OwnerForbids(level: PrivacyLevel)
    | PolicyForbids(level: PrivacyLevel)

  datatype Decision = Allow | Deny(why: Denial)

  function AcceptsLevel(privacy: PrivacyLevel, accepted: seq<PrivacyLevel>): Decision {
    if privacy in accepted then Allow else Deny(NotAccepted(privacy))
  }

  function Check(privacy: PrivacyLevel, allowExternal: bool, external: bool, policy: RoutingPolicy): Decision {
    if !external then Allow
    else match privacy
      case LocalOnly => Deny(NeverExternal)
      case Sensitive => CheckOwned(privacy, allowExternal, policy)
      case Private => CheckOwned(privacy, allowExternal, policy)
      case Public => if Public in policy.externalLevels then Allow else Deny(PolicyForbids(Public))
  }

  /** The levels whose owner has a say. */
  function CheckOwned(privacy: PrivacyLevel, allowExternal: bool, policy: RoutingPolicy): Decision {
    if !allowExternal then Deny(OwnerForbids(privacy))
    else if privacy !in policy.externalLevels then Deny(PolicyForbids(privacy))
    else Allow
  }

  /** A job may leave the machine: its level is not local-only, the policy lists the level, and its
      owner agreed unless the job is public. */
  predicate MayLeave(privacy: PrivacyLevel, allowExternal: bool, policy: RoutingPolicy) {
    privacy != PrivacyLevel.LocalOnly && privacy in policy.externalLevels && (privacy == Public || allowExternal)
  }

  lemma AllowedIff(privacy: PrivacyLevel, allowExternal: bool, external: bool, policy: RoutingPolicy)
    ensures Check(privacy, allowExternal, external, policy) == Allow
       <==> !external || MayLeave(privacy, allowExternal, policy)
  {
  }
}
