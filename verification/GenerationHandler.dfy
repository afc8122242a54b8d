/** The generation worker inside the package lifecycle: what an attempt does to the package row. */
module GenerationHandler {
  import D = DeliverableModel
  import I = DeliverableInvariants
  import opened Basics
  import opened GenerationModel
  import opened GenerationInvariants

  /** What the lifecycle model sees of an attempt that ended in this state. */
  function OutcomeOf(s: State, a: Attempt): D.GenerateOutcome {
    match a.scope
    case ScopeRefused => D.ScopeRefused(true)
    case ScopeBroke => D.ScopeRefused(false)
    case ScopeGranted => D.Handled(s.mode.Stopped? || a.world.cancelled(s.clock), s.tally.failed, s.tally.success)
  }

  function AsStatus(status: PackageStatus): D.Status {
    match status
    case Draft => D.Draft
    case GenerationFailed => D.GenerationFailed
    case Cancelled => D.Cancelled
  }

  /** A current job moves the package to the attempt's final status and touches nothing else of
      it; the package counts as failed exactly when the scope check broke, or the attempt ran to
      its end, some field failed and none became completed. */
  lemma PackageFollowsTheAttempt(d: D.Db, fingerprint: D.Digest, s: State, a: Attempt)
    requires I.Inv(d) && d.generationFingerprint == Some(fingerprint) && WellFormed(a) && DistinctIds(a.fields)
    ensures var t := Run(s, a); var after := D.GenerateHandler(d, fingerprint, OutcomeOf(t, a));
            && I.Inv(after) && after == d.(status := AsStatus(FinalStatus(t, a)))
            && (after.status == D.GenerationFailed <==>
                  a.scope.ScopeBroke? ||
                  (&& a.scope.ScopeGranted? && !t.mode.Stopped? && !a.world.cancelled(t.clock)
                   && CountStatus(t, a.fields, Failed) > 0
                   && CountStatus(t, a.fields, Completed) == CountStatus(s, a.fields, Completed)))
  {
    if a.scope.ScopeGranted? {
      FailedAttemptMeans(s, a);
    }
    I.NextKeepsInv(d, D.DoGenerateHandler(fingerprint, OutcomeOf(Run(s, a), a)));
  }
}
