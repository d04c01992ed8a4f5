/** How the gateway picks the backend of a job: `candidates_for` and the choice that follows it
    (gateway.rs). */
module Routing {
  import opened Text
  import opened Json
  import opened Jobs
  import opened Privacy

  datatype Entry = Entry(provider: string, model: string, capabilities: seq<string>)

  /** The catalog, the registered adapters and whether their calls leave the machine, and the
      operator's rules. */
  datatype Site = Site(catalog: seq<Entry>, registry: map<string, bool>, policy: RoutingPolicy, accepted: seq<PrivacyLevel>)

  datatype Refusal =
    | PrivacyViolation(why: Denial)
    | ModelUnavailable(model: string)
    | NoCapableBackend(capability: string)

  datatype Route = Chosen(position: nat) | Refused(reason: Refusal)

  function RequestedModel(job: Job): Option<string> {
    job.payload.At("model").AsStr()
  }

  // ---- the rules -----------------------------------------------------------------------

  /** A candidate is named by its position in the catalog. */
  predicate Capable(site: Site, i: nat, capability: string) {
    i < |site.catalog| && capability in site.catalog[i].capabilities && site.catalog[i].provider in site.registry
  }

  predicate External(site: Site, i: nat) {
    i < |site.catalog| && site.catalog[i].provider in site.registry && site.registry[site.catalog[i].provider]
  }

  /** Serves the capability, and exactly the requested model when one was named. */
  predicate Serves(site: Site, i: nat, capability: string, requested: Option<string>) {
    Capable(site, i, capability) && (requested.Some? ==> site.catalog[i].model == requested.value)
  }

  predicate PreferenceAdmits(preference: Preference, external: bool) {
    match preference
    case LocalOnly => !external
    case ExternalOnly => external
    case _ => true
  }

  /** Serves, on a side of the machine the preference admits. */
  predicate Admitted(site: Site, i: nat, capability: string, requested: Option<string>) {
    Serves(site, i, capability, requested) && PreferenceAdmits(site.policy.preference, External(site, i))
  }

  /** A local backend could serve, and the policy does not let the worker reach past it. */
  ghost predicate HeldLocal(site: Site, capability: string, requested: Option<string>) {
    && site.policy.preference == PreferLocal && !site.policy.fallback
    && exists j: nat :: Admitted(site, j, capability, requested) && !External(site, j)
  }

  ghost predicate Candidate(site: Site, i: nat, capability: string, requested: Option<string>) {
    Admitted(site, i, capability, requested) && (External(site, i) ==> !HeldLocal(site, capability, requested))
  }

  predicate LocalFirst(preference: Preference) {
    preference == PreferLocal || preference == Preference.LocalOnly
  }

  /** The order of candidates: the preferred side of the machine first, then catalog order. */
  predicate Before(site: Site, i: nat, j: nat) {
    if External(site, i) == External(site, j) then i < j else External(site, j) == LocalFirst(site.policy.preference)
  }

  predicate Allows(site: Site, job: Job, c: nat) {
    Check(job.privacy, job.allowExternal, External(site, c), site.policy) == Allow
  }

  /** A candidate the job's privacy allows. */
  ghost predicate Eligible(site: Site, job: Job, i: nat) {
    && Candidate(site, i, job.capability, RequestedModel(job))
    && Allows(site, job, i)
  }

  // ---- the algorithm -------------------------------------------------------------------

  lemma AscendingPush(xs: seq<nat>, x: nat)
    requires Ascending(xs) && forall c | c in xs :: c < x
    ensures Ascending(xs + [x])
  {
    assert forall a | 0 <= a < |xs| :: xs[a] in xs;
  }

  lemma {:induction false} RetainKeeps(xs: seq<nat>, keep: nat -> bool)
    ensures forall x: nat :: x in Retain(xs, keep) <==> x in xs && keep(x)
    ensures Ascending(xs) ==> Ascending(Retain(xs, keep))
  {
    if xs != [] {
      RetainKeeps(xs[..|xs| - 1], keep);
      var before, last := xs[..|xs| - 1], xs[|xs| - 1];
      assert xs == before + [last];
      if Ascending(xs) {
        assert forall c | c in Retain(before, keep) :: c in before && c < last;
        AscendingPush(Retain(before, keep), last);
      }
    }
  }

  predicate Ascending(xs: seq<nat>) {
    forall a, b | 0 <= a < b < |xs| :: xs[a] < xs[b]
  }

  /** A stable sort by a key that is false or true. */
  function SortByKey(xs: seq<nat>, key: nat -> bool): seq<nat> {
    Retain(xs, (x: nat) => !key(x)) + Retain(xs, key)
  }

  predicate Ordered(site: Site, cands: seq<nat>) {
    forall a, b | 0 <= a < b < |cands| :: Before(site, cands[a], cands[b])
  }

  /** Sorting puts the preferred side first and keeps catalog order on each side. */
  lemma SortOrders(site: Site, xs: seq<nat>)
    requires Ascending(xs)
    ensures var r := SortByKey(xs, SortKey(site)); Ordered(site, r) && forall x: nat :: x in r <==> x in xs
  {
    RetainKeeps(xs, (x: nat) => !SortKey(site)(x));
    RetainKeeps(xs, SortKey(site));
    var first, second := Retain(xs, (x: nat) => !SortKey(site)(x)), Retain(xs, SortKey(site));
    forall a, b | 0 <= a < b < |first + second|
      ensures Before(site, (first + second)[a], (first + second)[b])
    {
      if b < |first| {
        assert first[a] in first && first[b] in first;
      } else if a < |first| {
        assert first[a] in first && second[b - |first|] in second;
      } else {
        assert second[a - |first|] in second && second[b - |first|] in second;
      }
    }
  }

  function SortKey(site: Site): nat -> bool {
    (c: nat) => External(site, c) == LocalFirst(site.policy.preference)
  }

  method RetainIf(xs: seq<nat>, keep: nat -> bool) returns (r: seq<nat>)
    requires Ascending(xs)
    ensures Ascending(r) && forall x: nat :: x in r <==> x in xs && keep(x)
  {
    RetainKeeps(xs, keep);
    r := Retain(xs, keep);
  }

  method CandidatesFor(site: Site, capability: string, requested: Option<string>) returns (cands: seq<nat>)
    ensures forall i: nat :: i in cands <==> Candidate(site, i, capability, requested)
    ensures Ordered(site, cands)
  {
    cands := [];
    for k := 0 to |site.catalog|
      invariant Ascending(cands) && forall i: nat :: i in cands <==> i < k && Capable(site, i, capability)
    {
      if capability in site.catalog[k].capabilities && site.catalog[k].provider in site.registry {
        AscendingPush(cands, k);
        cands := cands + [k];
      }
    }
    if requested.Some? {
      cands := RetainIf(cands, (c: nat) => c < |site.catalog| && site.catalog[c].model == requested.value);
    }
    assert forall i: nat :: i in cands <==> Serves(site, i, capability, requested);
    match site.policy.preference {
      case LocalOnly => cands := RetainIf(cands, (c: nat) => !External(site, c));
      case ExternalOnly => cands := RetainIf(cands, (c: nat) => External(site, c));
      case _ =>
    }
    assert forall i: nat :: i in cands <==> Admitted(site, i, capability, requested);
    if site.policy.preference == PreferLocal && !site.policy.fallback && exists c: nat | c in cands :: !External(site, c) {
      cands := RetainIf(cands, (c: nat) => !External(site, c));
    }
    SortOrders(site, cands);
    cands := SortByKey(cands, SortKey(site));
  }

  /** The first candidate the privacy rules allow, and the last denial before it. */
  method FirstAllowed(site: Site, job: Job, cands: seq<nat>) returns (chosen: Option<nat>, denial: Option<Denial>)
    ensures chosen.Some? ==> exists k | 0 <= k < |cands| ::
              && chosen.value == cands[k] && Allows(site, job, cands[k])
              && forall j | 0 <= j < k :: !Allows(site, job, cands[j])
    ensures chosen.None? ==> forall c | c in cands :: !Allows(site, job, c)
    ensures chosen.None? ==> if cands == [] then denial == None else DeniedFor(site, job, denial)
  {
    denial := None;
    for k := 0 to |cands|
      invariant forall j | 0 <= j < k :: !Allows(site, job, cands[j])
      invariant if k == 0 then denial == None else DeniedFor(site, job, denial)
    {
      match Check(job.privacy, job.allowExternal, External(site, cands[k]), site.policy) {
        case Allow => return Some(cands[k]), denial;
        case Deny(why) => denial := Some(why);
      }
    }
    chosen := None;
  }

  /** The denial every external candidate gets. */
  predicate DeniedFor(site: Site, job: Job, denial: Option<Denial>) {
    denial.Some? && Check(job.privacy, job.allowExternal, true, site.policy) == Deny(denial.value)
  }

  method SelectBackend(site: Site, job: Job) returns (r: Route)
    ensures IsRoute(site, job, r)
  {
    match AcceptsLevel(job.privacy, site.accepted) {
      case Deny(why) => return Refused(PrivacyViolation(why));
      case Allow =>
    }
    var requested := RequestedModel(job);
    var cands := CandidatesFor(site, job.capability, requested);
    var chosen, denial := FirstAllowed(site, job, cands);
    if chosen.Some? {
      ghost var k :| 0 <= k < |cands| && chosen.value == cands[k] && Allows(site, job, cands[k])
                     && forall j | 0 <= j < k :: !Allows(site, job, cands[j]);
      FirstIsBest(site, job, cands, k);
      return Chosen(chosen.value);
    }
    assert forall c :: Eligible(site, job, c) ==> c in cands && Allows(site, job, c);
    assert cands != [] ==> cands[0] in cands;
    if denial.Some? {
      return Refused(PrivacyViolation(denial.value));
    }
    r := Refused(match requested case Some(m) => ModelUnavailable(m) case None => NoCapableBackend(job.capability));
  }

  lemma FirstIsBest(site: Site, job: Job, cands: seq<nat>, k: nat)
    requires forall i: nat :: i in cands <==> Candidate(site, i, job.capability, RequestedModel(job))
    requires Ordered(site, cands) && k < |cands| && Allows(site, job, cands[k])
    requires forall j | 0 <= j < k :: !Allows(site, job, cands[j])
    ensures Best(site, job, cands[k])
  {
    forall j | Eligible(site, job, j) && j != cands[k]
      ensures Before(site, cands[k], j)
    {
      var b :| 0 <= b < |cands| && cands[b] == j;
      assert Allows(site, job, cands[b]);
    }
  }

  // ---- what a route means --------------------------------------------------------------

  /** The eligible backend that comes before every other. */
  ghost predicate Best(site: Site, job: Job, i: nat) {
    Eligible(site, job, i) && forall j | Eligible(site, job, j) && j != i :: Before(site, i, j)
  }

  /** The best eligible backend, or the reason there is none. */
  ghost predicate IsRoute(site: Site, job: Job, r: Route) {
    var requested := RequestedModel(job);
    if job.privacy !in site.accepted then r == Refused(PrivacyViolation(NotAccepted(job.privacy)))
    else if exists i: nat :: Eligible(site, job, i) then r.Chosen? && Best(site, job, r.position)
    else if exists i: nat :: Candidate(site, i, job.capability, requested) then
      r.Refused? && r.reason.PrivacyViolation? && DeniedFor(site, job, Some(r.reason.why))
    else r == Refused(match requested case Some(m) => ModelUnavailable(m) case None => NoCapableBackend(job.capability))
  }

  /** A job has exactly one route. */
  lemma RouteIsUnique(site: Site, job: Job, r: Route, s: Route)
    requires IsRoute(site, job, r) && IsRoute(site, job, s)
    ensures r == s
  {
  }

  /** Fallback is held back exactly when a backend that will serve locally exists. */
  lemma HeldLocalIff(site: Site, job: Job)
    ensures HeldLocal(site, job.capability, RequestedModel(job))
       <==> && site.policy.preference == PreferLocal && !site.policy.fallback
            && exists j: nat :: Eligible(site, job, j) && !External(site, j)
  {
    if HeldLocal(site, job.capability, RequestedModel(job)) {
      var j :| Admitted(site, j, job.capability, RequestedModel(job)) && !External(site, j);
      assert Eligible(site, job, j);
    }
  }

  /** What a dispatch to an external provider implies. */
  lemma ExternalDispatch(site: Site, job: Job, i: nat)
    requires IsRoute(site, job, Chosen(i)) && External(site, i)
    ensures job.privacy in site.accepted && job.privacy in site.policy.externalLevels
    ensures job.privacy != PrivacyLevel.LocalOnly && (job.privacy == Public || job.allowExternal)
    ensures site.policy.preference != Preference.LocalOnly
    ensures site.policy.preference == PreferLocal && !site.policy.fallback ==>
              forall j: nat :: Eligible(site, job, j) ==> External(site, j)
  {
    AllowedIff(job.privacy, job.allowExternal, true, site.policy);
    HeldLocalIff(site, job);
  }

  /** Which side of the machine wins. Under PreferLocal, with or without fallback, a job only leaves
      when no eligible backend is local; under PreferExternal it only stays when none is external; and
      on either side the earliest eligible backend of the catalog is taken. */
  lemma PreferredSide(site: Site, job: Job, i: nat)
    requires IsRoute(site, job, Chosen(i))
    ensures site.policy.preference == PreferLocal && External(site, i) ==>
              forall j: nat :: Eligible(site, job, j) ==> External(site, j)
    ensures site.policy.preference == PreferExternal && !External(site, i) ==>
              forall j: nat :: Eligible(site, job, j) ==> !External(site, j)
    ensures forall j: nat :: Eligible(site, job, j) && External(site, j) == External(site, i) ==> i <= j
  {
    forall j: nat | Eligible(site, job, j)
      ensures j == i || Before(site, i, j)
    {
    }
  }

  /** An entry of the catalog that can do the job: its provider is registered, it has the capability,
      and it is the model the job names, if it names one. */
  predicate CanServe(site: Site, job: Job, j: nat) {
    && j < |site.catalog| && job.capability in site.catalog[j].capabilities && site.catalog[j].provider in site.registry
    && (job.payload.At("model").Str? ==> site.catalog[j].model == job.payload.At("model").s)
  }

  /** An entry the operator's policy and the job's privacy leave open. */
  predicate OpenTo(site: Site, job: Job, j: nat)
    requires CanServe(site, job, j)
  {
    var external := site.registry[site.catalog[j].provider];
    && (site.policy.preference == Preference.LocalOnly ==> !external)
    && (site.policy.preference == ExternalOnly ==> external)
    && (external ==> MayLeave(job.privacy, job.allowExternal, site.policy))
  }

  /** A job has a backend exactly when its level is accepted and some entry can serve it and is open to
      it; and the backend it has is such an entry. */
  lemma RouteIff(site: Site, job: Job, r: Route)
    requires IsRoute(site, job, r)
    ensures r.Chosen? <==> job.privacy in site.accepted && exists j: nat :: CanServe(site, job, j) && OpenTo(site, job, j)
    ensures r.Chosen? ==> CanServe(site, job, r.position) && OpenTo(site, job, r.position)
  {
    forall j: nat
      ensures Eligible(site, job, j) ==> CanServe(site, job, j) && OpenTo(site, job, j)
    {
      AllowedIff(job.privacy, job.allowExternal, External(site, j), site.policy);
    }
    if job.privacy in site.accepted {
      if j: nat :| CanServe(site, job, j) && OpenTo(site, job, j) {
        OpenIsEligible(site, job, j);
      }
    }
  }

  lemma OpenIsEligible(site: Site, job: Job, j: nat)
    requires CanServe(site, job, j) && OpenTo(site, job, j)
    ensures exists i: nat :: Eligible(site, job, i)
  {
    AllowedIff(job.privacy, job.allowExternal, External(site, j), site.policy);
    assert Admitted(site, j, job.capability, RequestedModel(job));
    if HeldLocal(site, job.capability, RequestedModel(job)) {
      var i: nat :| Admitted(site, i, job.capability, RequestedModel(job)) && !External(site, i);
      assert Eligible(site, job, i);
    } else {
      assert Eligible(site, job, j);
    }
  }

  /** A local backend is never refused for privacy: if one may serve an accepted job, the job runs. */
  lemma LocalBackendSuffices(site: Site, job: Job, j: nat, r: Route)
    requires IsRoute(site, job, r) && job.privacy in site.accepted
    requires Admitted(site, j, job.capability, RequestedModel(job)) && !External(site, j)
    ensures r.Chosen?
  {
    assert Eligible(site, job, j);
  }

  lemma CandidateIff(site: Site, capability: string, requested: Option<string>)
    ensures (exists i: nat :: Candidate(site, i, capability, requested)) <==> exists i: nat :: Admitted(site, i, capability, requested)
  {
    if i :| Admitted(site, i, capability, requested) {
      if HeldLocal(site, capability, requested) {
        var j :| Admitted(site, j, capability, requested) && !External(site, j);
        assert Candidate(site, j, capability, requested);
      } else {
        assert Candidate(site, i, capability, requested);
      }
    }
  }

  /** A refusal says exactly what was missing: acceptance of the level; or any backend serving the
      request on an admitted side of the machine; or, with only external ones, leave to use them. */
  lemma RefusalMeans(site: Site, job: Job, why: Refusal)
    requires IsRoute(site, job, Refused(why))
    ensures var served := exists i: nat :: Admitted(site, i, job.capability, RequestedModel(job));
      && (job.privacy !in site.accepted <==> why == PrivacyViolation(NotAccepted(job.privacy)))
      && (job.privacy in site.accepted ==>
            && (why.PrivacyViolation? <==> served)
            && (served ==> why == PrivacyViolation(
                  if job.privacy == PrivacyLevel.LocalOnly then NeverExternal
                  else if job.privacy != Public && !job.allowExternal then OwnerForbids(job.privacy)
                  else PolicyForbids(job.privacy)))
            && (!served ==> why == if job.payload.At("model").Str? then ModelUnavailable(job.payload.At("model").s)
                                   else NoCapableBackend(job.capability))
            && (served ==> && !MayLeave(job.privacy, job.allowExternal, site.policy)
                           && forall i: nat :: Admitted(site, i, job.capability, RequestedModel(job)) ==> External(site, i)))
  {
    CandidateIff(site, job.capability, RequestedModel(job));
    AllowedIff(job.privacy, job.allowExternal, true, site.policy);
    forall i | Admitted(site, i, job.capability, RequestedModel(job)) && job.privacy in site.accepted
      ensures External(site, i)
    {
      assert !Eligible(site, job, i);
    }
  }
}
