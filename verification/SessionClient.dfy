/** The event handlers of frontend/lib/api.ts as code over the module's variables. */
module SessionClient {
  import opened Basics
  import opened SessionRefresh
  import opened SessionOutcomes

  class ApiClient {
    var stored: Option<Session>
    var refreshInFlight: Option<nat>
    var operations: seq<Operation>
    var requests: map<nat, Request>
    // the server's side
    var current: Session
    var issued: nat
    var lost: nat

    ghost function View(): Client
      reads this
    {
      Client(stored, refreshInFlight, operations, requests, current, issued, lost)
    }

    ghost predicate Valid()
      reads this
    {
      Inv(View())
    }

    constructor (session: Option<Session>)
      ensures View() == Start(session) && Valid()
    {
      stored, refreshInFlight, operations, requests := session, None, [], map[];
      current := if session.Some? then session.value else 0;
      issued := if session.Some? then session.value else 0;
      lost := 0;
    }

    method BeginRequest(r: nat)
      requires Valid()
      modifies this
      ensures Valid() && View() == Next(old(View()), Begin(r))
      ensures r in requests && requests[r] == if r in old(requests) then old(requests)[r] else Fetching(1)
    {
      BeginOutcome(View(), r);
      NextKeepsInv(View(), Begin(r));
      if r !in requests {
        requests := requests[r := Fetching(1)];
      }
    }

    /** fetchWithSessionRetry after its fetch: only the first attempt may refresh. */
    method OnResponse(r: nat, unauthorized: bool)
      requires Valid()
      modifies this
      ensures Valid() && View() == Next(old(View()), Response(r, unauthorized))
      ensures r in old(requests) && old(requests)[r] == Fetching(1) && unauthorized && old(stored).Some? ==>
        && refreshInFlight.Some? && r in requests && requests[r] == Waiting(refreshInFlight.value) && stored == old(stored)
        && (old(refreshInFlight).None? ==> operations == old(operations) + [Sent(old(stored).value)])
    {
      NextKeepsInv(View(), Response(r, unauthorized));
      if r !in requests || !requests[r].Fetching? {
        return;
      }
      var fetches := requests[r].fetches;
      var allowRefresh := fetches == 1;
      if allowRefresh && unauthorized && stored.Some? {
        RefreshSession(r);
      } else {
        requests := requests[r := Finished(fetches)];
        if unauthorized {
          stored := None;
        }
      }
    }

    /** Whoever calls it ends up waiting for the newest refresh, the only one outstanding. */
    method RefreshSession(r: nat)
      requires Valid() && stored.Some?
      modifies this
      ensures Valid() && View() == JoinRefresh(old(View()), r)
      ensures refreshInFlight.Some? && Shares(View(), r, refreshInFlight.value)
      ensures forall o :: 0 <= o < |operations| && !operations[o].Settled? ==> refreshInFlight == Some(o)
    {
      JoinKeepsInv(View(), r);
      if refreshInFlight.None? {
        operations := operations + [Sent(stored.value)];
        refreshInFlight := Some(|operations| - 1);
      }
      requests := requests[r := Waiting(refreshInFlight.value)];
    }

    /** performSessionRefresh after its fetch: a usable answer is saved, anything else fails. */
    method FinishRefresh(o: nat, arrived: bool)
      requires Valid() && o < |operations| && !operations[o].Settled?
      requires arrived ==> operations[o].Answered?
      modifies this
      ensures Valid() && View() == Next(old(View()), if arrived then AnswerArrives(o) else AnswerFails(o))
    {
      NextKeepsInv(View(), if arrived then AnswerArrives(o) else AnswerFails(o));
      var op := operations[o];
      if arrived && op.answer.Rotated? {
        stored := Some(op.answer.session);
        operations := operations[o := Settled(op.token, Some(op.answer.session))];
      } else {
        if op.Answered? && op.answer.Rotated? {
          lost := lost + 1;
        }
        operations := operations[o := Settled(op.token, None)];
      }
    }

    /** The finally handler of the shared promise. */
    method OnSettled(o: nat)
      requires Valid()
      modifies this
      ensures Valid() && View() == Next(old(View()), ClearInFlight(o))
      ensures old(refreshInFlight).Some? ==>
        (refreshInFlight.None? <==> old(refreshInFlight).value == o && o < |operations| && operations[o].Settled?)
    {
      ClearOutcome(View(), o);
      NextKeepsInv(View(), ClearInFlight(o));
      if o < |operations| && operations[o].Settled? && refreshInFlight == Some(o) {
        refreshInFlight := None;
      }
    }

    method ResumeWaiter(r: nat)
      requires Valid()
      modifies this
      ensures Valid() && View() == Next(old(View()), Resume(r))
      ensures forall o: nat :: r in old(requests) && old(requests)[r] == Waiting(o) && o < |operations| && operations[o].Settled? ==>
        && r in requests && requests[r] == (if operations[o].saved.Some? then Fetching(2) else Finished(1))
        && stored == (if operations[o].saved.Some? then old(stored) else None)
    {
      if r in requests && requests[r].Waiting? && requests[r].operation < |operations| && operations[requests[r].operation].Settled? {
        ResumeOutcome(View(), r, requests[r].operation);
      }
      NextKeepsInv(View(), Resume(r));
      if r !in requests || !requests[r].Waiting? {
        return;
      }
      var o := requests[r].operation;
      if o < |operations| && operations[o].Settled? {
        if operations[o].saved.Some? {
          requests := requests[r := Fetching(2)];
        } else {
          requests := requests[r := Finished(1)];
          stored := None;
        }
      }
    }
  }
}
