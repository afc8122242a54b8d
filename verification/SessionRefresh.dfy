/**
 The shared session refresh of frontend/lib/api.ts: requests that meet a 401 wait for one
 refresh operation. A step is one turn of the event loop or one act of the server; steps of
 different requests and operations interleave freely.
 */
module SessionRefresh {
  import opened Basics

  /** Sessions are numbered by the order the server issued them; the number stands for both
      tokens. */
  type Session = nat

  datatype Answer = Rotated(session: Session) | RefusedByServer

  datatype Operation =
    | Sent(token: Session)
    | Answered(token: Session, answer: Answer)
    | Settled(token: Session, saved: Option<Session>)

  datatype Request =
    | Fetching(fetches: nat)      // a fetch is under way
    | Waiting(operation: nat)     // for the shared refresh
    | Finished(fetches: nat)

  /** stored: the session storage; inFlight: the module variable refreshInFlight; lost: answers
      of successful rotations that never reached the client. */
  datatype Client = Client(
    stored: Option<Session>,
    inFlight: Option<nat>,
    operations: seq<Operation>,
    requests: map<nat, Request>,
    current: Session,
    issued: nat,
    lost: nat)

  datatype Step =
    | Begin(request: nat)
    | Response(request: nat, unauthorized: bool)
    | ServerHandles(operation: nat)
    | AnswerArrives(operation: nat)
    | AnswerFails(operation: nat)
    | ClearInFlight(operation: nat)
    | Resume(request: nat)

  function Start(session: Option<Session>): Client {
    Client(session, None, [], map[], if session.Some? then session.value else 0,
           if session.Some? then session.value else 0, 0)
  }

  /** A finished request whose last answer was a 401 also drops the stored tokens. */
  function Finish(c: Client, r: nat, fetches: nat, unauthorized: bool): Client {
    c.(requests := c.requests[r := Finished(fetches)],
       stored := if unauthorized then None else c.stored)
  }

  /** refreshSession: join the operation in flight, or start one with the stored token. */
  function JoinRefresh(c: Client, r: nat): Client
    requires c.stored.Some?
  {
    if c.inFlight.Some? then c.(requests := c.requests[r := Waiting(c.inFlight.value)])
    else
      c.(operations := c.operations + [Sent(c.stored.value)],
         inFlight := Some(|c.operations|),
         requests := c.requests[r := Waiting(|c.operations|)])
  }

  function Next(c: Client, step: Step): Client {
    match step
    case Begin(r) =>
      if r in c.requests then c else c.(requests := c.requests[r := Fetching(1)])
    case Response(r, unauthorized) =>
      if r !in c.requests || !c.requests[r].Fetching? then c else
      var q := c.requests[r];
      if unauthorized && q.fetches == 1 && c.stored.Some? then JoinRefresh(c, r)
      else Finish(c, r, q.fetches, unauthorized)
    case ServerHandles(o) =>
      if o >= |c.operations| || !c.operations[o].Sent? then c else
      var token := c.operations[o].token;
      if token == c.current
      then c.(operations := c.operations[o := Answered(token, Rotated(c.issued + 1))],
              current := c.issued + 1, issued := c.issued + 1)
      else c.(operations := c.operations[o := Answered(token, RefusedByServer)])
    case AnswerArrives(o) =>
      if o >= |c.operations| || !c.operations[o].Answered? then c else
      var op := c.operations[o];
      if op.answer.Rotated?
      then c.(operations := c.operations[o := Settled(op.token, Some(op.answer.session))],
              stored := Some(op.answer.session))
      else c.(operations := c.operations[o := Settled(op.token, None)])
    case AnswerFails(o) =>
      if o >= |c.operations| || c.operations[o].Settled? then c else
      var op := c.operations[o];
      c.(operations := c.operations[o := Settled(op.token, None)],
         lost := if op.Answered? && op.answer.Rotated? then c.lost + 1 else c.lost)
    case ClearInFlight(o) =>
      if o < |c.operations| && c.operations[o].Settled? && c.inFlight == Some(o) then c.(inFlight := None) else c
    case Resume(r) =>
      if r !in c.requests || !c.requests[r].Waiting? then c else
      var o := c.requests[r].operation;
      if o >= |c.operations| || !c.operations[o].Settled? then c
      else if c.operations[o].saved.Some? then c.(requests := c.requests[r := Fetching(2)])
      else Finish(c, r, 1, true)
  }

  function Run(c: Client, steps: seq<Step>): Client
    decreases |steps|
  {
    if steps == [] then c else Run(Next(c, steps[0]), steps[1..])
  }

  // ---------------------------------------------------------------- the invariant

  /** Only the operation in flight can be unsettled, and it is the newest. */
  ghost predicate SingleFlight(c: Client) {
    && (c.inFlight.Some? ==> c.inFlight.value == |c.operations| - 1)
    && forall o :: 0 <= o < |c.operations| && !c.operations[o].Settled? ==> c.inFlight == Some(o)
  }

  /** No request fetches more than twice, and who waits waits for a known operation. */
  ghost predicate BoundedFetches(c: Client) {
    forall r :: r in c.requests ==>
      match c.requests[r]
      case Fetching(n) => 1 <= n <= 2
      case Waiting(o) => o < |c.operations|
      case Finished(n) => 1 <= n <= 2
  }

  /** The session of an operation, once the server has rotated to it. */
  function NewSession(op: Operation): Option<Session> {
    match op
    case Sent(_) => None
    case Answered(_, answer) => if answer.Rotated? then Some(answer.session) else None
    case Settled(_, saved) => saved
  }

  /** A refresh replaces its token by a newer one, later operations start from tokens at least
      as new as any an earlier one replaced its token by, and so is the stored session. */
  ghost predicate TokensAdvance(c: Client) {
    && c.current <= c.issued
    && (c.stored.Some? ==> c.stored.value <= c.issued)
    && (forall o :: 0 <= o < |c.operations| ==> c.operations[o].token <= c.issued)
    && (forall o :: 0 <= o < |c.operations| && NewSession(c.operations[o]).Some? ==>
          c.operations[o].token < NewSession(c.operations[o]).value <= c.issued)
    && (forall o, p :: 0 <= o < p < |c.operations| && c.operations[o].Settled? && c.operations[o].saved.Some? ==>
          c.operations[o].saved.value <= c.operations[p].token)
    && (forall o :: 0 <= o < |c.operations| && c.operations[o].Settled? && c.operations[o].saved.Some? && c.stored.Some? ==>
          c.operations[o].saved.value <= c.stored.value)
  }

  /** The stored token, seen from the server: an answer on its way, or a lost one, separates
      the two; nothing else does. */
  ghost predicate InTouch(c: Client) {
    && (forall o :: 0 <= o < |c.operations| && c.operations[o].Sent? ==>
          (c.operations[o].token == c.current <==> c.lost == 0))
    && (forall o :: 0 <= o < |c.operations| && c.operations[o].Answered? && c.operations[o].answer.Rotated? ==>
          c.lost == 0 && c.operations[o].answer.session == c.current)
    && (c.stored.Some? ==>
          (c.stored.value == c.current <==>
             c.lost == 0 && forall o :: 0 <= o < |c.operations| ==>
               !(c.operations[o].Answered? && c.operations[o].answer.Rotated?)))
    && (forall o :: 0 <= o < |c.operations| && !c.operations[o].Settled? && c.stored.Some? ==>
          c.stored.value == c.operations[o].token)
  }

  ghost predicate Inv(c: Client) {
    SingleFlight(c) && BoundedFetches(c) && TokensAdvance(c) && InTouch(c)
  }

  lemma JoinKeepsTokens(c: Client, r: nat)
    requires Inv(c) && c.stored.Some?
    ensures TokensAdvance(JoinRefresh(c, r))
  {
    var next := JoinRefresh(c, r);
    assert forall o :: 0 <= o < |c.operations| ==> next.operations[o] == c.operations[o];
  }

  lemma JoinKeepsTouch(c: Client, r: nat)
    requires Inv(c) && c.stored.Some?
    ensures InTouch(JoinRefresh(c, r))
  {
    var next := JoinRefresh(c, r);
    assert forall o :: 0 <= o < |c.operations| ==> next.operations[o] == c.operations[o];
  }

  lemma JoinKeepsInv(c: Client, r: nat)
    requires Inv(c) && c.stored.Some?
    ensures Inv(JoinRefresh(c, r))
  {
    JoinKeepsTokens(c, r);
    JoinKeepsTouch(c, r);
    var next := JoinRefresh(c, r);
    assert forall o :: 0 <= o < |c.operations| ==> next.operations[o] == c.operations[o];
  }

  /** Changing requests, dropping the stored tokens and clearing a settled flight are harmless. */
  lemma QuietChangeKeepsInv(c: Client, next: Client)
    requires Inv(c) && BoundedFetches(next)
    requires next.operations == c.operations && next.current == c.current && next.issued == c.issued && next.lost == c.lost
    requires next.stored == c.stored || next.stored == None
    requires next.inFlight == c.inFlight ||
             (next.inFlight == None && c.inFlight.Some? && c.operations[c.inFlight.value].Settled?)
    ensures Inv(next)
  {
  }

  lemma RequestStepKeepsInv(c: Client, step: Step)
    requires Inv(c) && (step.Begin? || step.Response? || step.Resume? || step.ClearInFlight?)
    ensures Inv(Next(c, step))
  {
    if step.Response? && step.request in c.requests && c.requests[step.request] == Fetching(1) && c.stored.Some? && step.unauthorized {
      JoinKeepsInv(c, step.request);
    } else {
      QuietChangeKeepsInv(c, Next(c, step));
    }
  }

  lemma ServerKeepsTouch(c: Client, o: nat)
    requires Inv(c)
    ensures InTouch(Next(c, ServerHandles(o)))
  {
    if o < |c.operations| && c.operations[o].Sent? {
      var next := Next(c, ServerHandles(o));
      assert next.operations[o].Answered?;
      assert next.operations[o].answer.Rotated? ==> next.operations[o].answer.session == next.current;
    }
  }

  lemma ServerStepKeepsInv(c: Client, o: nat)
    requires Inv(c)
    ensures Inv(Next(c, ServerHandles(o)))
  {
    ServerKeepsTouch(c, o);
  }

  lemma AnswerKeepsTokens(c: Client, o: nat)
    requires Inv(c)
    ensures TokensAdvance(Next(c, AnswerArrives(o)))
  {
    if o < |c.operations| && c.operations[o].Answered? {
      var next := Next(c, AnswerArrives(o));
      assert c.inFlight == Some(o) && o == |c.operations| - 1;
      assert forall p :: 0 <= p < o ==> next.operations[p] == c.operations[p];
      assert next.operations[o].token == c.operations[o].token;
    }
  }

  lemma AnswerKeepsTouch(c: Client, o: nat)
    requires Inv(c)
    ensures InTouch(Next(c, AnswerArrives(o)))
  {
  }

  lemma AnswerStepKeepsInv(c: Client, o: nat)
    requires Inv(c)
    ensures Inv(Next(c, AnswerArrives(o)))
  {
    AnswerKeepsTokens(c, o);
    AnswerKeepsTouch(c, o);
  }

  lemma FailStepKeepsInv(c: Client, o: nat)
    requires Inv(c)
    ensures Inv(Next(c, AnswerFails(o)))
  {
  }

  lemma NextKeepsInv(c: Client, step: Step)
    requires Inv(c)
    ensures Inv(Next(c, step))
  {
    match step
    case ServerHandles(o) => ServerStepKeepsInv(c, o);
    case AnswerArrives(o) => AnswerStepKeepsInv(c, o);
    case AnswerFails(o) => FailStepKeepsInv(c, o);
    case _ => RequestStepKeepsInv(c, step);
  }

  lemma {:induction false} RunKeepsInv(c: Client, steps: seq<Step>)
    requires Inv(c)
    ensures Inv(Run(c, steps))
    decreases |steps|
  {
    if steps != [] {
      NextKeepsInv(c, steps[0]);
      RunKeepsInv(Next(c, steps[0]), steps[1..]);
    }
  }

  // ---------------------------------------------------------------- what the pages rely on

  lemma StartHolds(session: Option<Session>)
    ensures Inv(Start(session))
  {
  }

  ghost predicate WaitsFor(c: Client, r: nat, o: nat) {
    r in c.requests && c.requests[r] == Waiting(o) && o < |c.operations| && !c.operations[o].Settled?
  }

  /** Every run, whatever the order: at most the newest refresh is outstanding; requests that
      wait for an outstanding one wait for the same one; nobody fetches more than twice. */
  lemma OneSharedRefresh(session: Option<Session>, steps: seq<Step>)
    ensures var c := Run(Start(session), steps);
      && (forall o :: 0 <= o < |c.operations| - 1 ==> c.operations[o].Settled?)
      && (forall r, q, o, p :: WaitsFor(c, r, o) && WaitsFor(c, q, p) ==> o == p)
      && BoundedFetches(c)
  {
    StartHolds(session);
    RunKeepsInv(Start(session), steps);
  }

  /** No refresh starts with a token that an earlier successful refresh has replaced. */
  lemma NoRefreshWithReplacedToken(session: Option<Session>, steps: seq<Step>, o: nat, p: nat)
    requires var c := Run(Start(session), steps); o < p < |c.operations| && c.operations[o].Settled? && c.operations[o].saved.Some?
    ensures var c := Run(Start(session), steps); c.operations[o].token < c.operations[o].saved.value <= c.operations[p].token
  {
    StartHolds(session);
    RunKeepsInv(Start(session), steps);
    var c := Run(Start(session), steps);
    assert NewSession(c.operations[o]).Some?;
  }

  /** The server recognises the token of an outstanding refresh exactly when no answer to an
      earlier rotation was lost: the client never outdates its own token. */
  lemma RefreshRecognisedUnlessAnswerLost(session: Option<Session>, steps: seq<Step>, o: nat)
    requires var c := Run(Start(session), steps); o < |c.operations| && c.operations[o].Sent?
    ensures var c := Run(Start(session), steps); var next := Next(c, ServerHandles(o));
            (next.operations[o].answer == RefusedByServer) <==> c.lost > 0
  {
    StartHolds(session);
    RunKeepsInv(Start(session), steps);
  }

  /** What can have become of a request since it began to wait for operation o: it still waits, or
      the operation settled and the request fetched again if a session was saved and ended if not. */
  ghost predicate Shares(c: Client, r: nat, o: nat) {
    && o < |c.operations| && r in c.requests
    && (c.requests[r] == Waiting(o) ||
        (c.operations[o].Settled? &&
         c.requests[r] in (if c.operations[o].saved.Some? then {Fetching(2), Finished(2)} else {Finished(1)})))
  }

  lemma SettledStays(c: Client, step: Step, o: nat)
    requires o < |c.operations| && c.operations[o].Settled?
    ensures var next := Next(c, step); o < |next.operations| && next.operations[o] == c.operations[o]
  {
  }

  lemma NextShares(c: Client, step: Step, r: nat, o: nat)
    requires Shares(c, r, o)
    ensures Shares(Next(c, step), r, o)
  {
    if c.operations[o].Settled? {
      SettledStays(c, step, o);
    }
  }

  /** All requests that wait for one refresh share its result, whatever happens in between and
      whenever each resumes: a settled operation never changes, and every one of its waiters
      fetches again if it saved a session and ends on its 401 if it did not. */
  lemma {:induction false} WaitersShareTheResult(c: Client, steps: seq<Step>, r: nat, q: nat, o: nat)
    requires Shares(c, r, o) && Shares(c, q, o)
    ensures var d := Run(c, steps);
      && Shares(d, r, o) && Shares(d, q, o)
      && (c.operations[o].Settled? ==> d.operations[o] == c.operations[o])
      && (d.operations[o].Settled? && d.requests[r] == Waiting(o) ==>
            Next(d, Resume(r)).requests[r] == if d.operations[o].saved.Some? then Fetching(2) else Finished(1))
      && (d.requests[r] != Waiting(o) && d.requests[q] != Waiting(o) ==>
            (d.requests[r] == Finished(1) <==> d.requests[q] == Finished(1)))
    decreases |steps|
  {
    if steps != [] {
      NextShares(c, steps[0], r, o);
      NextShares(c, steps[0], q, o);
      if c.operations[o].Settled? {
        SettledStays(c, steps[0], o);
      }
      WaitersShareTheResult(Next(c, steps[0]), steps[1..], r, q, o);
    }
  }

  /** How far a request still is from its end. */
  function Rank(c: Client, r: nat): nat {
    if r !in c.requests then 4
    else match c.requests[r]
    case Fetching(n) => if n == 1 then 3 else 1
    case Waiting(_) => 2
    case Finished(_) => 0
  }

  /** How many steps of the run change the request. */
  ghost function Changes(c: Client, steps: seq<Step>, r: nat): nat
    decreases |steps|
  {
    if steps == [] then 0
    else
      var next := Next(c, steps[0]);
      var same := if r in c.requests then r in next.requests && next.requests[r] == c.requests[r] else r !in next.requests;
      (if same then 0 else 1) + Changes(next, steps[1..], r)
  }

  /** No step takes a request back: it changes only towards its end, and a finished one stays. */
  lemma StepAdvances(c: Client, step: Step, r: nat)
    requires Inv(c)
    ensures var next := Next(c, step);
      if r in c.requests
      then r in next.requests && (next.requests[r] == c.requests[r] || Rank(next, r) < Rank(c, r))
      else r !in next.requests || next.requests[r] == Fetching(1)
  {
  }

  /** Over any run each change takes a request nearer to its end, so it changes four times at most. */
  lemma {:induction false} RequestsOnlyAdvance(c: Client, steps: seq<Step>, r: nat)
    requires Inv(c)
    ensures Changes(c, steps, r) + Rank(Run(c, steps), r) <= Rank(c, r) <= 4
    decreases |steps|
  {
    if steps != [] {
      NextKeepsInv(c, steps[0]);
      StepAdvances(c, steps[0], r);
      RequestsOnlyAdvance(Next(c, steps[0]), steps[1..], r);
    }
  }
}
