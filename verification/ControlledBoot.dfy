/** The boot evidence record and its constraints (authority_isolation.py,
    `ControlledBootResult`), and the builder the lifecycle uses (authority_service.py,
    `_controlled_boot_result`).
 */
module ControlledBoot {
  import opened JsonTerms

  datatype Phase =
    | AuthorityReady
    | ObserverStarting
    | ObserverReady
    | SchedulerStartingNonpublishable
    | SchedulerStartedNonpublishable
    | SchedulerStartingPublishable
    | SchedulerStartedPublishable
    | Closing
    | Failed
    | Closed

  datatype Evidence = Nonpublishable | Publishable

  datatype BootResult = BootResult(
    profile: string, phase: Phase, evidence: Evidence, authorityConsumed: bool,
    controllerConsumed: bool, observerReady: bool, assumptions: seq<string>, exclusions: seq<string>)

  const PROFILE := "linux-controlled-boot-v1"
  const ASSUMPTIONS := [
    "dedicated_trusted_supervisor_precedes_untrusted_scheduler",
    "privileged_children_use_verified_spawn_entrypoints",
    "supervisor_hardening_is_process_lifetime_irreversible"]
  const EXCLUSIONS := ["pre_existing_attacker", "root_or_cap_sys_ptrace", "denial_of_service"]

  predicate ObserverPhase(p: Phase) {
    p.ObserverReady? || p.SchedulerStartingPublishable? || p.SchedulerStartedPublishable?
  }

  /** Phases in which the controller key cannot have been consumed. */
  predicate BeforeController(p: Phase) {
    p.AuthorityReady? || p.SchedulerStartingNonpublishable? || p.SchedulerStartedNonpublishable?
  }

  predicate Terminal(p: Phase) {
    p.Closing? || p.Failed? || p.Closed?
  }

  /** `ControlledBootResult.__post_init__` accepts the record. */
  predicate Acceptable(r: BootResult) {
    && r.profile == PROFILE
    && r.authorityConsumed
    && (r.evidence.Publishable? <==> r.phase.SchedulerStartedPublishable?)
    && (r.phase.SchedulerStartingPublishable? || r.phase.SchedulerStartedPublishable? ==> r.controllerConsumed)
    && (r.observerReady <==> ObserverPhase(r.phase))
    && !(r.controllerConsumed && BeforeController(r.phase))
    && r.assumptions != [] && r.exclusions != []
  }

  /** `_controlled_boot_result`; without an explicit flag the controller counts as consumed in
      the observer phases only. */
  function Boot(phase: Phase, controllerConsumed: Option<bool>): BootResult {
    BootResult(
      PROFILE, phase,
      if phase.SchedulerStartedPublishable? then Publishable else Nonpublishable,
      true,
      if controllerConsumed.None? then ObserverPhase(phase) else controllerConsumed.value,
      ObserverPhase(phase), ASSUMPTIONS, EXCLUSIONS)
  }

  /** The arguments with which the builder may be called. */
  predicate Buildable(phase: Phase, controllerConsumed: bool) {
    if controllerConsumed then !BeforeController(phase)
    else !phase.SchedulerStartingPublishable? && !phase.SchedulerStartedPublishable?
  }

  /** Exactly these arguments give an acceptable record; the default flag is always one. */
  lemma BuildableIff(phase: Phase, controllerConsumed: bool)
    ensures Acceptable(Boot(phase, Some(controllerConsumed))) <==> Buildable(phase, controllerConsumed)
    ensures Boot(phase, None) == Boot(phase, Some(ObserverPhase(phase))) && Buildable(phase, ObserverPhase(phase))
  {
    assert |ASSUMPTIONS| == 3 && |EXCLUSIONS| == 3;
  }
}
