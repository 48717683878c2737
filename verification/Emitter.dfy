/**
 Emitting one batch: fetch a token, upsert the registrations, delete the unregistrations, and
 try once more with a fresh token when the API answers "unauthorized". Each remote call either
 takes full effect or none.
 */
module Emitter {
  import opened Events
  import opened Sequences

  datatype CallResult = Ok | Unauthorized | Failed

  datatype Call =
    | FetchToken(forceUpdate: bool, granted: bool)
    | Upsert(requests: seq<TcpRouteMapping>, result: CallResult)
    | Delete(requests: seq<TcpRouteMapping>, result: CallResult)

  /** How the remote services answer one attempt. */
  datatype Answers = Answers(token: bool, upsert: CallResult, delete: CallResult)

  /** The calls of one attempt, what it leaves of the remote set, and how it ends. */
  datatype Trace = Trace(calls: seq<Call>, mappings: set<TcpRouteMapping>, tokenRefused: bool, result: CallResult)

  /** Upsert, then delete; an empty list is not sent, and a failed upsert ends the attempt. */
  function Send(d: set<TcpRouteMapping>, registrations: seq<TcpRouteMapping>, unregistrations: seq<TcpRouteMapping>,
                a: Answers): (sent: Trace)
    ensures !sent.tokenRefused
  {
    var upserts := if registrations == [] then [] else [Upsert(registrations, a.upsert)];
    if registrations != [] && a.upsert != Ok then Trace(upserts, d, false, a.upsert)
    else
      var registered := d + Elements(registrations);
      if unregistrations == [] then Trace(upserts, registered, false, Ok)
      else Trace(upserts + [Delete(unregistrations, a.delete)],
                 if a.delete == Ok then registered - Elements(unregistrations) else registered,
                 false, a.delete)
  }

  function AttemptTrace(d: set<TcpRouteMapping>, registrations: seq<TcpRouteMapping>,
                        unregistrations: seq<TcpRouteMapping>, forceUpdate: bool, a: Answers): Trace
  {
    if !a.token then Trace([FetchToken(forceUpdate, false)], d, true, Failed)
    else
      var sent := Send(d, registrations, unregistrations, a);
      sent.(calls := [FetchToken(forceUpdate, true)] + sent.calls)
  }

  /** One attempt, and one more exactly when the first was unauthorized. */
  function EmitTrace(d: set<TcpRouteMapping>, registrations: seq<TcpRouteMapping>,
                     unregistrations: seq<TcpRouteMapping>, first: Answers, second: Answers): Trace
  {
    var one := AttemptTrace(d, registrations, unregistrations, false, first);
    if one.result != Unauthorized then one
    else
      var two := AttemptTrace(one.mappings, registrations, unregistrations, true, second);
      two.(calls := one.calls + two.calls)
  }

  // ---------------------------------------------------------------- outcomes

  function CountUpserts(calls: seq<Call>): nat {
    if calls == [] then 0 else CountUpserts(calls[..|calls| - 1]) + if calls[|calls| - 1].Upsert? then 1 else 0
  }

  function CountDeletes(calls: seq<Call>): nat {
    if calls == [] then 0 else CountDeletes(calls[..|calls| - 1]) + if calls[|calls| - 1].Delete? then 1 else 0
  }

  /** What the log of calls says: complete when a delete went through, else registered when an upsert did. */
  function OutcomeOf(d: set<TcpRouteMapping>, registrations: seq<TcpRouteMapping>,
                     unregistrations: seq<TcpRouteMapping>, calls: seq<Call>): set<TcpRouteMapping>
  {
    if Delete(unregistrations, Ok) in calls then d + Elements(registrations) - Elements(unregistrations)
    else if Upsert(registrations, Ok) in calls then d + Elements(registrations)
    else d
  }

  lemma AttemptOutcome(d: set<TcpRouteMapping>, registrations: seq<TcpRouteMapping>,
                       unregistrations: seq<TcpRouteMapping>, forceUpdate: bool, a: Answers)
    ensures var trace := AttemptTrace(d, registrations, unregistrations, forceUpdate, a);
            var registered := d + Elements(registrations);
            && trace.mappings == OutcomeOf(d, registrations, unregistrations, trace.calls)
            && (trace.result == Ok ==> trace.mappings == registered - Elements(unregistrations))
            && (Delete(unregistrations, Ok) in trace.calls ==> trace.result == Ok)
            && (trace.tokenRefused ==> trace.result == Failed)
  {
    assert registrations == [] ==> d + Elements(registrations) == d;
    var registered := d + Elements(registrations);
    assert unregistrations == [] ==> registered - Elements(unregistrations) == registered;
  }

  /** However the calls fail, the remote set ends untouched, with the registrations only, or complete, and the log
      of calls tells which. */
  lemma EmitOutcomes(d: set<TcpRouteMapping>, registrations: seq<TcpRouteMapping>,
                     unregistrations: seq<TcpRouteMapping>, first: Answers, second: Answers)
    ensures var trace := EmitTrace(d, registrations, unregistrations, first, second);
            var registered := d + Elements(registrations);
            && trace.mappings in {d, registered, registered - Elements(unregistrations)}
            && trace.mappings == OutcomeOf(d, registrations, unregistrations, trace.calls)
            && (trace.result == Ok ==> trace.mappings == registered - Elements(unregistrations))
            && (Delete(unregistrations, Ok) in trace.calls ==> trace.result == Ok)
            && (trace.tokenRefused ==> trace.result == Failed)
  {
    var one := AttemptTrace(d, registrations, unregistrations, false, first);
    var two := AttemptTrace(one.mappings, registrations, unregistrations, true, second);
    AttemptOutcome(d, registrations, unregistrations, false, first);
    AttemptOutcome(one.mappings, registrations, unregistrations, true, second);
    hide AttemptTrace, Elements;
    assert forall call :: call in one.calls + two.calls <==> call in one.calls || call in two.calls;
    assert d + Elements(registrations) + Elements(registrations) == d + Elements(registrations);
  }

  /** One attempt: a token first, then the upsert, and a delete only after the upsert went through. */
  ghost predicate WellOrdered(calls: seq<Call>, registrations: seq<TcpRouteMapping>,
                              unregistrations: seq<TcpRouteMapping>)
  {
    && (forall i :: 0 <= i < |calls| && calls[i].Upsert? ==> calls[i].requests == registrations != [])
    && (forall i :: 0 <= i < |calls| && calls[i].Delete? ==>
          && calls[i].requests == unregistrations != []
          && i > 0
          && if registrations == [] then calls[i - 1].FetchToken? && calls[i - 1].granted
             else calls[i - 1] == Upsert(registrations, Ok))
  }

  lemma AttemptIsOrdered(d: set<TcpRouteMapping>, registrations: seq<TcpRouteMapping>,
                         unregistrations: seq<TcpRouteMapping>, forceUpdate: bool, a: Answers)
    ensures var calls := AttemptTrace(d, registrations, unregistrations, forceUpdate, a).calls;
            && WellOrdered(calls, registrations, unregistrations)
            && 0 < |calls| <= 3
            && calls[0].FetchToken? && calls[0].forceUpdate == forceUpdate
            && forall i :: 0 < i < |calls| ==> !calls[i].FetchToken?
  {
  }

  /** The bounds and order of the calls: at most two of each, a fresh token for the second attempt only,
      and no delete unless the registrations before it went through. */
  lemma EmitCalls(d: set<TcpRouteMapping>, registrations: seq<TcpRouteMapping>, unregistrations: seq<TcpRouteMapping>,
                  first: Answers, second: Answers)
    ensures var calls := EmitTrace(d, registrations, unregistrations, first, second).calls;
            && |calls| <= 6 && CountUpserts(calls) <= 2 && CountDeletes(calls) <= 2
            && (forall i :: 0 <= i < |calls| && calls[i].FetchToken? ==> calls[i].forceUpdate == (i != 0))
            && WellOrdered(calls, registrations, unregistrations)
  {
    hide AttemptTrace, CountUpserts, CountDeletes;
    var one := AttemptTrace(d, registrations, unregistrations, false, first);
    var two := AttemptTrace(one.mappings, registrations, unregistrations, true, second);
    AttemptIsOrdered(d, registrations, unregistrations, false, first);
    CountAttempt(d, registrations, unregistrations, false, first);
    AttemptIsOrdered(one.mappings, registrations, unregistrations, true, second);
    CountAttempt(one.mappings, registrations, unregistrations, true, second);
    CountsAdd(one.calls, two.calls);
  }

  lemma CountAttempt(d: set<TcpRouteMapping>, registrations: seq<TcpRouteMapping>,
                     unregistrations: seq<TcpRouteMapping>, forceUpdate: bool, a: Answers)
    ensures var calls := AttemptTrace(d, registrations, unregistrations, forceUpdate, a).calls;
            |calls| <= 3 && CountUpserts(calls) <= 1 && CountDeletes(calls) <= 1
  {
    var calls := AttemptTrace(d, registrations, unregistrations, forceUpdate, a).calls;
    assert CountUpserts(calls[..1]) == CountDeletes(calls[..1]) == 0 by {
      assert calls[..1][..0] == [];
    }
    if |calls| >= 2 {
      assert calls[..2][..1] == calls[..1];
    }
    if |calls| == 3 {
      assert calls[..3][..2] == calls[..2];
    }
    assert calls == calls[..|calls|];
  }

  lemma {:induction false} CountsAdd(a: seq<Call>, b: seq<Call>)
    ensures CountUpserts(a + b) == CountUpserts(a) + CountUpserts(b)
    ensures CountDeletes(a + b) == CountDeletes(a) + CountDeletes(b)
  {
    if b == [] {
      assert a + b == a;
    } else {
      var n := |b| - 1;
      CountsAdd(a, b[..n]);
      assert (a + b)[..|a + b| - 1] == a + b[..n];
    }
  }

  /** Sending once more a batch that went through adds nothing. */
  lemma ResendIsIdempotent(d: set<TcpRouteMapping>, registrations: seq<TcpRouteMapping>,
                           unregistrations: seq<TcpRouteMapping>, a: Answers, b: Answers)
    requires Elements(registrations) !! Elements(unregistrations)
    requires Send(d, registrations, unregistrations, a).result == Ok
    ensures Send(Send(d, registrations, unregistrations, a).mappings, registrations, unregistrations, b).mappings
         == Send(d, registrations, unregistrations, a).mappings
  {
    var all := d + Elements(registrations) - Elements(unregistrations);
    assert all + Elements(registrations) == all;
    assert all - Elements(unregistrations) == all;
    assert unregistrations == [] ==> d + Elements(registrations) == all;
    assert registrations == [] ==> d + Elements(registrations) == d;
  }

  /** The retry, whatever the unauthorized first attempt did: it ends where a first attempt with its answers would
      have ended, except that registrations that went through the first time stay when its own upsert fails. */
  lemma RetryContinues(d: set<TcpRouteMapping>, registrations: seq<TcpRouteMapping>,
                       unregistrations: seq<TcpRouteMapping>, a: Answers, b: Answers)
    requires Send(d, registrations, unregistrations, a).result == Unauthorized
    ensures Send(Send(d, registrations, unregistrations, a).mappings, registrations, unregistrations, b).mappings
         == if registrations != [] && a.upsert == Ok && b.upsert != Ok then d + Elements(registrations)
            else Send(d, registrations, unregistrations, b).mappings
  {
    assert registrations == [] ==> d + Elements(registrations) == d;
    assert d + Elements(registrations) + Elements(registrations) == d + Elements(registrations);
  }

  // ---------------------------------------------------------------- success and retry, decided by the answers

  /** Everything that has to be sent goes through. */
  predicate GoesThrough(registrations: seq<TcpRouteMapping>, unregistrations: seq<TcpRouteMapping>, a: Answers) {
    && a.token
    && (registrations != [] ==> a.upsert == Ok)
    && (unregistrations != [] ==> a.delete == Ok)
  }

  /** The last call that is made is answered with "unauthorized". */
  predicate TurnedAway(registrations: seq<TcpRouteMapping>, unregistrations: seq<TcpRouteMapping>, a: Answers) {
    && a.token
    && if registrations != [] && a.upsert != Ok then a.upsert == Unauthorized
       else unregistrations != [] && a.delete == Unauthorized
  }

  /** The calls of one attempt, each decided by the answers before it. */
  lemma AttemptCalls(d: set<TcpRouteMapping>, registrations: seq<TcpRouteMapping>,
                     unregistrations: seq<TcpRouteMapping>, forceUpdate: bool, a: Answers)
    ensures var trace := AttemptTrace(d, registrations, unregistrations, forceUpdate, a);
            && (trace.result == Ok <==> GoesThrough(registrations, unregistrations, a))
            && (trace.result == Unauthorized <==> TurnedAway(registrations, unregistrations, a))
            && (trace.tokenRefused <==> !a.token)
            && (forall force, granted ::
                  FetchToken(force, granted) in trace.calls <==> force == forceUpdate && granted == a.token)
            && (forall result ::
                  Upsert(registrations, result) in trace.calls <==>
                    a.token && registrations != [] && result == a.upsert)
            && (forall result ::
                  Delete(unregistrations, result) in trace.calls <==>
                    a.token && (registrations != [] ==> a.upsert == Ok) && unregistrations != [] && result == a.delete)
  {
  }

  lemma InEither<T>(x: T, a: seq<T>, b: seq<T>)
    ensures x in a + b <==> x in a || x in b
  {
  }

  /** A second attempt, with a fresh token, is made exactly when the first is turned away; the emission succeeds exactly
      when an attempt goes through that way, and then everything is sent; the error that is returned is that of a
      refused token. */
  lemma RetryIff(d: set<TcpRouteMapping>, registrations: seq<TcpRouteMapping>, unregistrations: seq<TcpRouteMapping>,
                 first: Answers, second: Answers)
    ensures var trace := EmitTrace(d, registrations, unregistrations, first, second);
            var retried := TurnedAway(registrations, unregistrations, first);
            && (forall granted ::
                  FetchToken(true, granted) in trace.calls <==> retried && granted == second.token)
            && (forall granted :: FetchToken(false, granted) in trace.calls <==> granted == first.token)
            && (trace.result == Ok <==>
                  || GoesThrough(registrations, unregistrations, first)
                  || (retried && GoesThrough(registrations, unregistrations, second)))
            && (trace.tokenRefused <==> !first.token || (retried && !second.token))
            && (trace.result == Ok ==> trace.mappings == d + Elements(registrations) - Elements(unregistrations))
  {
    var one := AttemptTrace(d, registrations, unregistrations, false, first);
    var two := AttemptTrace(one.mappings, registrations, unregistrations, true, second);
    AttemptCalls(d, registrations, unregistrations, false, first);
    AttemptCalls(one.mappings, registrations, unregistrations, true, second);
    EmitOutcomes(d, registrations, unregistrations, first, second);
    assert TurnedAway(registrations, unregistrations, first) ==> !GoesThrough(registrations, unregistrations, first);
    hide AttemptTrace, Elements, GoesThrough, TurnedAway;
    forall force, granted
      ensures FetchToken(force, granted) in one.calls + two.calls <==>
                (!force && granted == first.token) || (force && granted == second.token)
    {
      InEither(FetchToken(force, granted), one.calls, two.calls);
    }
  }

  /** When the registrations or the unregistrations of an emission reach the API: in the first attempt, or in the second
      one that follows it. */
  lemma SentIff(d: set<TcpRouteMapping>, registrations: seq<TcpRouteMapping>, unregistrations: seq<TcpRouteMapping>,
                first: Answers, second: Answers)
    ensures var calls := EmitTrace(d, registrations, unregistrations, first, second).calls;
            var retried := TurnedAway(registrations, unregistrations, first);
            Upsert(registrations, Ok) in calls <==>
              registrations != []
              && ((first.token && first.upsert == Ok) || (retried && second.token && second.upsert == Ok))
    ensures var calls := EmitTrace(d, registrations, unregistrations, first, second).calls;
            var retried := TurnedAway(registrations, unregistrations, first);
            Delete(unregistrations, Ok) in calls <==>
              unregistrations != []
              && (|| GoesThrough(registrations, unregistrations, first)
                  || (retried && GoesThrough(registrations, unregistrations, second)))
  {
    var one := AttemptTrace(d, registrations, unregistrations, false, first);
    var two := AttemptTrace(one.mappings, registrations, unregistrations, true, second);
    var upsert, delete := Upsert(registrations, Ok), Delete(unregistrations, Ok);
    AttemptCalls(d, registrations, unregistrations, false, first);
    AttemptCalls(one.mappings, registrations, unregistrations, true, second);
    assert upsert in one.calls <==> first.token && registrations != [] && Ok == first.upsert;
    assert upsert in two.calls <==> second.token && registrations != [] && Ok == second.upsert;
    assert delete in one.calls <==> unregistrations != [] && GoesThrough(registrations, unregistrations, first);
    assert delete in two.calls <==> unregistrations != [] && GoesThrough(registrations, unregistrations, second);
    hide AttemptTrace, GoesThrough, TurnedAway;
    InEither(upsert, one.calls, two.calls);
    InEither(delete, one.calls, two.calls);
  }

  // ---------------------------------------------------------------- runs of emissions

  /** How far an emission got. */
  datatype Reach = Untouched | Registered | Complete

  /** Complete when its last attempt ended well, else registered when an upsert went through. */
  function ReachOf(trace: Trace, registrations: seq<TcpRouteMapping>): Reach {
    if trace.result == Ok then Complete
    else if Upsert(registrations, Ok) in trace.calls then Registered
    else Untouched
  }

  function Reached(raw: set<TcpRouteMapping>, batch: seq<Event>, ttl: int, reach: Reach): set<TcpRouteMapping> {
    match reach
    case Untouched => raw
    case Registered => raw + Requests(Select(batch, Registration), ttl)
    case Complete => RawDeliver(raw, batch, ttl)
  }

  /** The remote set after a list of batches, each emitted as far as it got. */
  function ReachAll(raw: set<TcpRouteMapping>, batches: seq<seq<Event>>, reaches: seq<Reach>, ttl: int)
    : set<TcpRouteMapping>
    requires |reaches| == |batches|
  {
    if batches == [] then raw
    else
      var n := |batches| - 1;
      Reached(ReachAll(raw, batches[..n], reaches[..n], ttl), batches[n], ttl, reaches[n])
  }

  lemma ReachAllSnoc(raw: set<TcpRouteMapping>, batches: seq<seq<Event>>, reaches: seq<Reach>, ttl: int,
                     batch: seq<Event>, reach: Reach)
    requires |reaches| == |batches|
    ensures ReachAll(raw, batches + [batch], reaches + [reach], ttl)
         == Reached(ReachAll(raw, batches, reaches, ttl), batch, ttl, reach)
  {
    hide Reached;
    assert (batches + [batch])[..|batches|] == batches && (reaches + [reach])[..|batches|] == reaches;
  }

  lemma EmissionReaches(d: set<TcpRouteMapping>, batch: seq<Event>, ttl: int, registrations: seq<TcpRouteMapping>,
                        unregistrations: seq<TcpRouteMapping>, first: Answers, second: Answers)
    requires Elements(registrations) == Requests(Select(batch, Registration), ttl)
    requires Elements(unregistrations) == Requests(Select(batch, Unregistration), ttl)
    ensures var trace := EmitTrace(d, registrations, unregistrations, first, second);
            trace.mappings == Reached(d, batch, ttl, ReachOf(trace, registrations))
  {
    EmitOutcomes(d, registrations, unregistrations, first, second);
    hide EmitTrace, Requests, Select, Elements;
  }

  // ---------------------------------------------------------------- the emitter

  /** The token service and the routing API; every call is recorded. */
  class Remote {
    var mappings: set<TcpRouteMapping>
    var calls: seq<Call>

    constructor ()
      ensures mappings == {} && calls == []
    {
      mappings, calls := {}, [];
    }

    method FetchToken(forceUpdate: bool) returns (granted: bool)
      modifies this`calls
      ensures calls == old(calls) + [Call.FetchToken(forceUpdate, granted)]
    {
      granted := *;
      calls := calls + [Call.FetchToken(forceUpdate, granted)];
    }

    method UpsertTcpRouteMappings(requests: seq<TcpRouteMapping>) returns (result: CallResult)
      modifies this
      ensures calls == old(calls) + [Upsert(requests, result)]
      ensures mappings == if result == Ok then old(mappings) + Elements(requests) else old(mappings)
    {
      result := *;
      if result == Ok {
        mappings := mappings + Elements(requests);
      }
      calls := calls + [Upsert(requests, result)];
    }

    method DeleteTcpRouteMappings(requests: seq<TcpRouteMapping>) returns (result: CallResult)
      modifies this
      ensures calls == old(calls) + [Delete(requests, result)]
      ensures mappings == if result == Ok then old(mappings) - Elements(requests) else old(mappings)
    {
      result := *;
      if result == Ok {
        mappings := mappings - Elements(requests);
      }
      calls := calls + [Delete(requests, result)];
    }
  }

  class TcpEmitter {
    const remote: Remote
    const ttl: int
    /** The remote set at the start, the batches handed to `Emit` since, and how far each of them got. */
    ghost const baseline: set<TcpRouteMapping>
    ghost var batches: seq<seq<Event>>
    ghost var reaches: seq<Reach>

    constructor (remote: Remote, ttl: int)
      ensures Valid() && this.remote == remote && this.ttl == ttl && baseline == remote.mappings
      ensures batches == [] && reaches == []
    {
      this.remote, this.ttl, baseline := remote, ttl, remote.mappings;
      batches, reaches := [], [];
    }

    /** The remote set is what the batches made of the one at the start, each as far as it got. */
    ghost predicate Valid()
      reads this, remote
    {
      |reaches| == |batches| && remote.mappings == ReachAll(baseline, batches, reaches, ttl)
    }

    method EmitOnce(registrations: seq<TcpRouteMapping>, unregistrations: seq<TcpRouteMapping>)
      returns (result: CallResult, ghost answers: Answers)
      modifies remote
      ensures answers.token
      ensures var sent := Send(old(remote.mappings), registrations, unregistrations, answers);
              && remote.mappings == sent.mappings
              && remote.calls == old(remote.calls) + sent.calls
              && result == sent.result
    {
      answers := Answers(true, Ok, Ok);
      if |registrations| > 0 {
        result := remote.UpsertTcpRouteMappings(registrations);
        answers := answers.(upsert := result);
        if result != Ok {
          return;
        }
      } else {
        assert remote.mappings + Elements(registrations) == remote.mappings;
      }
      if |unregistrations| > 0 {
        result := remote.DeleteTcpRouteMappings(unregistrations);
        answers := answers.(delete := result);
        return;
      }
      result := Ok;
    }

    /** The error returned is that of the token service only; a failed upsert or delete is not reported. */
    method Emit(events: seq<HeapEvent>) returns (failed: bool, ghost first: Answers, ghost second: Answers)
      requires Valid()
      modifies this`batches, this`reaches, remote
      ensures Valid() && batches == old(batches) + [EventViews(events)]
      ensures exists registrations, unregistrations ::
                && ListsEvents(registrations, Select(EventViews(events), Registration), ttl)
                && ListsEvents(unregistrations, Select(EventViews(events), Unregistration), ttl)
                && Elements(registrations) == Requests(Select(EventViews(events), Registration), ttl)
                && Elements(unregistrations) == Requests(Select(EventViews(events), Unregistration), ttl)
                && var trace := EmitTrace(old(remote.mappings), registrations, unregistrations, first, second);
                   && remote.mappings == trace.mappings
                   && remote.calls == old(remote.calls) + trace.calls
                   && reaches == old(reaches) + [ReachOf(trace, registrations)]
                   && failed == trace.tokenRefused
    {
      hide EventViews, Select, Requests, Elements, EmitTrace, ReachAll, ReachOf, Reached, ListsEvents, PairCount;
      ghost var views, before := EventViews(events), remote.mappings;
      var registrations, unregistrations := ToMappingRequests(events, ttl);
      failed, first, second := EmitRequests(registrations, unregistrations);
      ghost var trace := EmitTrace(before, registrations, unregistrations, first, second);
      EmissionReaches(before, views, ttl, registrations, unregistrations, first, second);
      ReachAllSnoc(baseline, batches, reaches, ttl, views, ReachOf(trace, registrations));
      batches, reaches := batches + [views], reaches + [ReachOf(trace, registrations)];
      assert EventViews(events) == views;
    }

    method EmitRequests(registrations: seq<TcpRouteMapping>, unregistrations: seq<TcpRouteMapping>)
      returns (failed: bool, ghost first: Answers, ghost second: Answers)
      modifies remote
      ensures var trace := EmitTrace(old(remote.mappings), registrations, unregistrations, first, second);
              && remote.mappings == trace.mappings
              && remote.calls == old(remote.calls) + trace.calls
              && failed == trace.tokenRefused
    {
      hide Send, Elements;
      first, second := Answers(false, Ok, Ok), Answers(false, Ok, Ok);
      var useCachedToken := true;
      ghost var start, log := remote.mappings, remote.calls;
      for count := 0 to 2
        invariant useCachedToken <==> count == 0
        invariant (count == 0 ==> !first.token) && (count <= 1 ==> !second.token)
        invariant count == 0 ==> remote.mappings == start && remote.calls == log
        invariant count >= 1 ==>
                    var one := AttemptTrace(start, registrations, unregistrations, false, first);
                    && one.result == Unauthorized
                    && (count == 1 ==> remote.mappings == one.mappings && remote.calls == log + one.calls)
        invariant count == 2 ==>
                    var trace := EmitTrace(start, registrations, unregistrations, first, second);
                    && remote.mappings == trace.mappings && remote.calls == log + trace.calls && !trace.tokenRefused
      {
        var granted := remote.FetchToken(!useCachedToken);
        assert log + [] == log;
        if !granted {
          Associative(log, AttemptTrace(start, registrations, unregistrations, false, first).calls,
                      [Call.FetchToken(true, false)]);
          return true, first, second;
        }
        ghost var before := remote.mappings;
        var result;
        ghost var answers;
        result, answers := EmitOnce(registrations, unregistrations);
        if count == 0 {
          first := answers;
        } else {
          second := answers;
        }
        Associative(log, [Call.FetchToken(!useCachedToken, true)],
                    Send(before, registrations, unregistrations, answers).calls);
        Associative(log, AttemptTrace(start, registrations, unregistrations, false, first).calls,
                    AttemptTrace(before, registrations, unregistrations, true, answers).calls);
        if result == Unauthorized {
          useCachedToken := false;
        } else {
          break;
        }
      }
      return false, first, second;
    }
  }
}
