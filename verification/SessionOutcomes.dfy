/** What every event of the session refresh does in a reached state, and a request that is replayed. */
module SessionOutcomes {
  import opened Basics
  import opened SessionRefresh

  ghost predicate OthersStay(c: Client, next: Client, r: nat) {
    forall q :: q != r ==> (q in next.requests <==> q in c.requests) && (q in c.requests ==> next.requests[q] == c.requests[q])
  }

  /** The answer to a fetch, after any run. A first 401 with a stored token leaves the request waiting
      for the refresh in flight; if there was none, exactly one has started, with the stored token. A
      second 401, or one without a token, ends the request and drops the session; any other answer
      ends it and keeps the session. */
  lemma ResponseOutcome(session: Option<Session>, steps: seq<Step>, r: nat, unauthorized: bool)
    requires var c := Run(Start(session), steps); r in c.requests && c.requests[r].Fetching?
    ensures var c := Run(Start(session), steps);
      var next, fetches := Next(c, Response(r, unauthorized)), c.requests[r].fetches;
      && OthersStay(c, next, r) && next.current == c.current && next.issued == c.issued && next.lost == c.lost
      && r in next.requests
      && if unauthorized && fetches == 1 && c.stored.Some? then
           && next.inFlight.Some? && next.requests[r] == Waiting(next.inFlight.value)
           && next.inFlight.value == |next.operations| - 1 && next.stored == c.stored
           && (if c.inFlight.Some? then next.operations == c.operations
               else next.operations == c.operations + [Sent(c.stored.value)])
         else
           && next.requests[r] == Finished(fetches) && fetches in {1, 2}
           && next.operations == c.operations && next.inFlight == c.inFlight
           && next.stored == if unauthorized then None else c.stored
  {
    StartHolds(session);
    RunKeepsInv(Start(session), steps);
  }

  /** A request is fetched for the first time exactly when it begins. */
  lemma BeginOutcome(c: Client, r: nat)
    ensures var next := Next(c, Begin(r));
      && OthersStay(c, next, r) && next == c.(requests := next.requests)
      && r in next.requests && next.requests[r] == if r in c.requests then c.requests[r] else Fetching(1)
  {
  }

  /** The end of the refresh in flight, after any run: a granting answer that arrives saves its
      session, for the client and in the operation; a refusal or a failure saves none and leaves the
      stored session alone. A granted session is lost exactly if the answer fails. */
  lemma SettleOutcome(session: Option<Session>, steps: seq<Step>, o: nat, arrives: bool)
    requires var c := Run(Start(session), steps);
      o < |c.operations| && !c.operations[o].Settled? && (arrives ==> c.operations[o].Answered?)
    ensures var c := Run(Start(session), steps);
      var next, granted := Next(c, if arrives then AnswerArrives(o) else AnswerFails(o)), NewSession(c.operations[o]);
      && o < |next.operations| && next.operations == c.operations[o := next.operations[o]]
      && next.operations[o] == Settled(c.operations[o].token, if arrives then granted else None)
      && next.stored == (if arrives && granted.Some? then granted else c.stored)
      && next.lost == c.lost + (if !arrives && granted.Some? then 1 else 0)
      && next.requests == c.requests && next.inFlight == c.inFlight && next.current == c.current && next.issued == c.issued
  {
    StartHolds(session);
    RunKeepsInv(Start(session), steps);
  }

  /** The server rotates the current session to a new one and refuses any other token. */
  lemma ServerOutcome(c: Client, o: nat)
    requires o < |c.operations| && c.operations[o].Sent?
    ensures var next, token := Next(c, ServerHandles(o)), c.operations[o].token;
      && next == c.(operations := next.operations, current := next.current, issued := next.issued)
      && |next.operations| == |c.operations| && (forall p :: 0 <= p < |c.operations| && p != o ==> next.operations[p] == c.operations[p])
      && (if token == c.current
          then next.issued > c.issued && next.current == next.issued && next.operations[o] == Answered(token, Rotated(next.issued))
          else next.issued == c.issued && next.current == c.current && next.operations[o] == Answered(token, RefusedByServer))
  {
  }

  /** A waiter of a settled refresh fetches a second time if a session was saved, and else ends on its
      401 and drops the session. */
  lemma ResumeOutcome(c: Client, r: nat, o: nat)
    requires r in c.requests && c.requests[r] == Waiting(o) && o < |c.operations| && c.operations[o].Settled?
    ensures var next, saved := Next(c, Resume(r)), c.operations[o].saved.Some?;
      && OthersStay(c, next, r) && r in next.requests && next.requests[r] == (if saved then Fetching(2) else Finished(1))
      && next == c.(requests := next.requests, stored := if saved then c.stored else None)
  {
  }

  /** The variable is free for the next refresh once the one it holds has settled, and not before. */
  lemma ClearOutcome(c: Client, o: nat)
    requires SingleFlight(c)
    ensures var next := Next(c, ClearInFlight(o));
      && next == c.(inFlight := next.inFlight)
      && (next.inFlight.None? <==> c.inFlight.None? || (c.inFlight.value == o && o < |c.operations| && c.operations[o].Settled?))
      && (next.inFlight.Some? ==> next.inFlight == c.inFlight)
  {
  }

  // ---------------------------------------------------------------- a replayed request

  /** The events of one request whose refresh starts, is granted and arrives. */
  function ReplaySteps(c: Client, r: nat): seq<Step> {
    [Response(r, true), ServerHandles(|c.operations|), AnswerArrives(|c.operations|), ClearInFlight(|c.operations|), Resume(r),
     Response(r, false)]
  }

  lemma RunFrom(c: Client, s: seq<Step>, i: nat)
    requires i < |s|
    ensures Run(c, s[i..]) == Run(Next(c, s[i]), s[i + 1..])
  {
    assert s[i..][0] == s[i] && s[i..][1..] == s[i + 1..];
  }

  lemma RunSix(c: Client, s: seq<Step>)
    requires |s| == 6
    ensures Run(c, s) == Next(Next(Next(Next(Next(Next(c, s[0]), s[1]), s[2]), s[3]), s[4]), s[5])
  {
    var c1 := Next(c, s[0]);
    var c2 := Next(c1, s[1]);
    var c3 := Next(c2, s[2]);
    var c4 := Next(c3, s[3]);
    assert s[0..] == s;
    RunFrom(c, s, 0);
    RunFrom(c1, s, 1);
    RunFrom(c2, s, 2);
    RunFrom(c3, s, 3);
    RunFrom(c4, s, 4);
    RunFrom(Next(c4, s[4]), s, 5);
  }

  /** From every reached state with a stored session, no refresh under way and no lost answer: a
      request that meets a 401 on its first fetch is replayed when the refresh arrives, and ends on
      its second fetch with the new session stored. */
  lemma ExpiredSessionIsReplayed(session: Option<Session>, steps: seq<Step>, r: nat)
    requires var c := Run(Start(session), steps);
      r in c.requests && c.requests[r] == Fetching(1) && c.stored.Some? && c.inFlight.None? && c.lost == 0
    ensures var c := Run(Start(session), steps);
      var after := Run(c, ReplaySteps(c, r));
      && r in after.requests && after.requests[r] == Finished(2) && OthersStay(c, after, r)
      && after.stored == Some(after.current) && after.current > c.current && after.inFlight == None
      && |after.operations| == |c.operations| + 1
      && after.operations[|c.operations|] == Settled(c.stored.value, after.stored)
  {
    StartHolds(session);
    RunKeepsInv(Start(session), steps);
    var c := Run(Start(session), steps);
    var o := |c.operations|;
    var s := ReplaySteps(c, r);
    RunSix(c, s);
    assert c.stored.value == c.current;
    var c1 := Next(c, s[0]);
    assert c1.operations == c.operations + [Sent(c.current)] && c1.inFlight == Some(o) && c1.requests[r] == Waiting(o);
    ServerOutcome(c1, o);
    var c2 := Next(c1, s[1]);
    assert c2.operations[o] == Answered(c.current, Rotated(c2.current)) && c2.current > c.current;
    var c3 := Next(c2, s[2]);
    assert c3.operations[o] == Settled(c.current, Some(c2.current)) && c3.stored == Some(c2.current);
    var c5 := Next(Next(c3, s[3]), s[4]);
    assert c5.requests[r] == Fetching(2);
  }

  /** Such a request: it begins, meets a 401 and ends on its second fetch. */
  lemma ReplayedRequest(session: Session, r: nat) returns (steps: seq<Step>)
    ensures var c := Run(Start(Some(session)), steps);
      r in c.requests && c.requests[r] == Finished(2) && c.stored == Some(c.current) && c.current > session
  {
    var first := [Begin(r)];
    var c := Start(Some(session));
    var d := Run(c, first);
    assert first[0..] == first;
    RunFrom(c, first, 0);
    assert d == Next(c, Begin(r));
    ExpiredSessionIsReplayed(Some(session), first, r);
    var rest := ReplaySteps(d, r);
    steps := first + rest;
    assert steps[1..] == rest;
  }
}
