/** What becomes of a model's answers: a plan, restrictive only if nothing speaks against it. */
module DecisionGate {
  import opened Wrappers
  import Correlation

  /** The six known actions; any other name can come out of a model's answer. */
  datatype Action = Observe | CollectMore | QosProfile | RouteProfile | FlowDrop | HostIsolate | Other(name: string)

  datatype Reason =
    | UnknownAction | UnsupportedAction | BelowPolicyThreshold | IdentityOrProtectedAsset | AlternatePathUnavailable
    | IncompleteEvidence | ThreatResponseDisagreement

  /** Without a list of capabilities every known action is supported. */
  datatype Context = Context(
    capabilities: Option<set<Action>>, protectedAsset: bool, identityVerified: bool, alternatePathHealthy: bool)

  datatype Plan = Plan(
    action: Action, entity: string, ttlSeconds: nat, profile: Option<string>, deferred: Option<Reason>, executed: bool)

  datatype Answers = Answers(choice: Action, confidence: real, threat: bool)

  /** The actions that restrict traffic or a host. */
  predicate Restrictive(action: Action) {
    action == QosProfile || action == RouteProfile || action == FlowDrop || action == HostIsolate
  }

  predicate Supported(context: Context, action: Action) {
    context.capabilities.None? || action in context.capabilities.value
  }

  function Objection(action: Action, confidence: real, context: Context, minConfidence: real): Option<Reason> {
    if action.Other? then Some(UnknownAction)
    else if !Supported(context, action) then Some(UnsupportedAction)
    else if confidence < minConfidence then Some(BelowPolicyThreshold)
    else if action == HostIsolate && (context.protectedAsset || !context.identityVerified)
      then Some(IdentityOrProtectedAsset)
    else if action == RouteProfile && !context.alternatePathHealthy then Some(AlternatePathUnavailable)
    else None
  }

  function ResponsePlan(action: Action, confidence: real, context: Context, entity: string, minConfidence: real): Plan {
    var reason := Objection(action, confidence, context, minConfidence);
    var chosen := if reason.Some? then CollectMore else action;
    Plan(chosen, entity, if Restrictive(chosen) then 300 else 0,
         if chosen == QosProfile then Some("approved_rate_limit")
         else if chosen == RouteProfile then Some("approved_alternate_path") else None,
         reason, false)
  }

  /** Without a threshold for an action no confidence is enough. */
  function Threshold(thresholds: map<Action, real>, action: Action): real {
    if action in thresholds then thresholds[action] else 1.01
  }

  /** `dropped` is the count of the snapshot the answers were made on, if one was passed on. */
  function DecisionPlan(
    answers: Answers, context: Context, entity: string, thresholds: map<Action, real>, dropped: Option<int>): Plan
  {
    var plan :=
      ResponsePlan(answers.choice, answers.confidence, context, entity, Threshold(thresholds, answers.choice));
    var reason :=
      if dropped.Some? && dropped.value > 0 then Some(IncompleteEvidence)
      else if !answers.threat && Restrictive(plan.action) then Some(ThreatResponseDisagreement)
      else None;
    if reason.Some? then ResponsePlan(CollectMore, 1.0, context, entity, 0.0).(deferred := reason) else plan
  }

  /** Exactly when a plan restricts anything. */
  lemma RestrictiveIff(
    answers: Answers, context: Context, entity: string, thresholds: map<Action, real>, dropped: Option<int>)
    ensures var plan := DecisionPlan(answers, context, entity, thresholds, dropped);
            Restrictive(plan.action) <==>
              Restrictive(answers.choice) && answers.threat && (dropped.Some? ==> dropped.value <= 0) &&
              Supported(context, answers.choice) && answers.confidence >= Threshold(thresholds, answers.choice) &&
              (answers.choice == HostIsolate ==> context.identityVerified && !context.protectedAsset) &&
              (answers.choice == RouteProfile ==> context.alternatePathHealthy)
  {
  }

  /** A plan does what was chosen or defers, says why, and only restrictions have a lifetime. */
  lemma PlansAreExplained(
    answers: Answers, context: Context, entity: string, thresholds: map<Action, real>, dropped: Option<int>)
    ensures var plan := DecisionPlan(answers, context, entity, thresholds, dropped);
            plan.action == (if plan.deferred.Some? then CollectMore else answers.choice) &&
            (dropped.Some? && dropped.value > 0 ==> plan.deferred == Some(IncompleteEvidence)) &&
            (plan.ttlSeconds > 0 <==> Restrictive(plan.action)) && !plan.executed && plan.entity == entity
  {
  }

  /**
   A restriction decided on a snapshot of the bounded correlator was decided on complete evidence: an unbounded
   correlator would have shown the same.
   */
  lemma RestrictionsSeeTheWholeHistory<S>(
    cfg: Correlation.Settings, stream: seq<Correlation.Event>, describe: Correlation.Describer<S>, subject: string,
    now: real, answers: Answers, context: Context, thresholds: map<Action, real>)
    requires Correlation.Rising(stream) && cfg.window >= 0.0
    requires forall i | 0 <= i < |stream| :: stream[i].ts <= stream[i].available <= now
    ensures var buffer := Correlation.Run(cfg, stream);
            var seen := Correlation.SnapshotOf(cfg, describe, buffer.events, buffer.dropped, subject, now);
            var plan := DecisionPlan(answers, context, subject, thresholds, Some(seen.bufferDropped));
            Restrictive(plan.action) ==>
              seen == Correlation.SnapshotOf(cfg, describe, Correlation.History(cfg, stream), 0, subject, now)
  {
    var buffer := Correlation.Run(cfg, stream);
    RestrictiveIff(answers, context, subject, thresholds, Some(buffer.dropped));
    if buffer.dropped == 0 {
      Correlation.SnapshotIsComplete(cfg, stream, describe, subject, now);
    }
  }
}
