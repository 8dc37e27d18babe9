/**
 Single-flight token refresh: any number of requests may find their token expired at once; one of
 them refreshes it and the others wait for its outcome, then each request is retried once.

 The program is cut at its awaits. Between two awaits nothing else runs, so each event below is atomic.
*/
module TokenRefresh {
  import opened Wrappers
  import opened Sequences

  type Token = string

  /** Where a request is waiting. */
  datatype Phase =
    | Idle
    | Sent
    | AwaitsRefreshResponse
    | AwaitsRefreshBody
    | Subscribed
    | Resumes(newToken: Option<Token>)
    | Retried(token: Token)
    | Finished

  /**
   A request: its phase, how often it was sent, how often its promise was settled, and, for the
   statements below, the number of the refresh it joined.
  */
  datatype Call = Call(phase: Phase, sends: nat, settlements: nat, joined: Option<nat>)

  /**
   `posts` counts the refresh requests sent, and `outcomes` lists what the completed ones brought,
   None for a failure. Neither is kept by the program.
  */
  datatype State = State(isRefreshing: bool, subscribers: seq<int>, calls: seq<Call>, posts: nat,
      outcomes: seq<Option<Token>>)

  datatype Event =
    | Send(c: nat)
    | Answered(c: nat, unauthorized: bool, hasRefreshToken: bool)
    | RefreshResponse(c: nat, ok: bool)
    | RefreshBody(c: nat, newToken: Option<Token>)
    | Resume(c: nat)
    | RetryAnswered(c: nat)

  const NEW_CALL := Call(Idle, 0, 0, None)

  function Initial(n: nat): State {
    State(false, [], seq(n, i => NEW_CALL), 0, [])
  }

  function Leads(p: Phase): bool { p == AwaitsRefreshResponse || p == AwaitsRefreshBody }

  predicate Enabled(s: State, e: Event) {
    e.c < |s.calls| &&
    match e
    case Send(c) => s.calls[c].phase == Idle
    case Answered(c, _, _) => s.calls[c].phase == Sent
    case RefreshResponse(c, _) => s.calls[c].phase == AwaitsRefreshResponse
    case RefreshBody(c, _) => s.calls[c].phase == AwaitsRefreshBody
    case Resume(c) => s.calls[c].phase.Resumes?
    case RetryAnswered(c) => s.calls[c].phase.Retried?
  }

  // ---- What each event does -----------------------------------------------------------------------

  function Told(call: Call, newToken: Option<Token>): Call {
    call.(phase := Resumes(newToken), settlements := call.settlements + 1)
  }

  /** Every subscriber is resolved with the token, or rejected; a rejection is caught and read as no token. */
  function SettleAll(calls: seq<Call>, queue: seq<int>, newToken: Option<Token>): seq<Call> {
    seq(|calls|, i requires 0 <= i < |calls| => if i in queue then Told(calls[i], newToken) else calls[i])
  }

  /** The leader's refresh is over: the subscribers are settled, the leader continues, the flag is cleared. */
  function Complete(s: State, c: nat, newToken: Option<Token>): State
    requires c < |s.calls|
  {
    var settled := SettleAll(s.calls, s.subscribers, newToken);
    State(false, [], settled[c := Told(s.calls[c], newToken)], s.posts, s.outcomes + [newToken])
  }

  /** refreshAccessTokenQueued up to its first await. */
  function EnterRefresh(s: State, c: nat, hasRefreshToken: bool): State
    requires c < |s.calls|
  {
    var call := s.calls[c];
    if !hasRefreshToken then s.(calls := s.calls[c := call.(phase := Resumes(None))])
    else if s.isRefreshing then
      s.(subscribers := s.subscribers + [c],
         calls := s.calls[c := call.(phase := Subscribed, joined := Some(|s.outcomes|))])
    else
      s.(isRefreshing := true, posts := s.posts + 1,
         calls := s.calls[c := call.(phase := AwaitsRefreshResponse, joined := Some(|s.outcomes|))])
  }

  function Step(s: State, e: Event): State
    requires Enabled(s, e)
  {
    var call := s.calls[e.c];
    match e
    case Send(c) => s.(calls := s.calls[c := call.(phase := Sent, sends := call.sends + 1)])
    case Answered(c, unauthorized, hasRefreshToken) =>
      if unauthorized then EnterRefresh(s, c, hasRefreshToken) else s.(calls := s.calls[c := call.(phase := Finished)])
    case RefreshResponse(c, ok) =>
      if ok then s.(calls := s.calls[c := call.(phase := AwaitsRefreshBody)]) else Complete(s, c, None)
    case RefreshBody(c, newToken) => Complete(s, c, newToken)
    case Resume(c) =>
      (match call.phase.newToken
       case Some(t) => s.(calls := s.calls[c := call.(phase := Retried(t), sends := call.sends + 1)])
       case None => s.(calls := s.calls[c := call.(phase := Finished)]))
    case RetryAnswered(c) => s.(calls := s.calls[c := call.(phase := Finished)])
  }

  // ---- The invariant ------------------------------------------------------------------------------

  /** A request that continues with or retries on an outcome got it from the refresh it joined. */
  ghost predicate FromItsRefresh(s: State, call: Call, newToken: Option<Token>) {
    call.joined.Some? && call.joined.value < |s.outcomes| && s.outcomes[call.joined.value] == newToken
  }

  ghost predicate CallValid(s: State, call: Call) {
    && call.settlements <= 1 && call.sends <= 2
    && (call.joined.Some? ==> call.joined.value <= |s.outcomes|)
    && match call.phase
       case Idle => call == NEW_CALL
       case Sent => call.sends == 1 && call.settlements == 0 && call.joined == None
       case AwaitsRefreshResponse => call.sends == 1 && call.settlements == 0 && call.joined == Some(|s.outcomes|)
       case AwaitsRefreshBody => call.sends == 1 && call.settlements == 0 && call.joined == Some(|s.outcomes|)
       case Subscribed => call.sends == 1 && call.settlements == 0 && call.joined == Some(|s.outcomes|)
       case Resumes(newToken) =>
         && call.sends == 1
         && (if call.joined.Some? then call.settlements == 1 && FromItsRefresh(s, call, newToken)
             else newToken == None && call.settlements == 0)
       case Retried(token) => call.sends == 2 && call.settlements == 1 && FromItsRefresh(s, call, Some(token))
       case Finished =>
         if call.joined.None? then call.sends == 1 && call.settlements == 0
         else
           && call.settlements == 1 && call.joined.value < |s.outcomes|
           && call.sends == if s.outcomes[call.joined.value].Some? then 2 else 1
  }

  ghost predicate OneLeader(s: State) {
    && (forall c, d :: 0 <= c < |s.calls| && 0 <= d < |s.calls| ==>
          Leads(s.calls[c].phase) && Leads(s.calls[d].phase) ==> c == d)
    && (s.isRefreshing <==> exists c :: 0 <= c < |s.calls| && Leads(s.calls[c].phase))
  }

  ghost predicate QueueValid(s: State) {
    && NoDuplicates(s.subscribers)
    && (forall c :: c in s.subscribers <==> 0 <= c < |s.calls| && s.calls[c].phase == Subscribed)
    && (!s.isRefreshing ==> s.subscribers == [])
  }

  ghost predicate Inv(s: State) {
    && OneLeader(s) && QueueValid(s)
    && s.posts == |s.outcomes| + (if s.isRefreshing then 1 else 0)
    && forall c :: 0 <= c < |s.calls| ==> CallValid(s, s.calls[c])
  }

  lemma InitialInv(n: nat)
    ensures Inv(Initial(n))
  {
  }

  /** An event that moves one request between phases that neither lead nor subscribe. */
  lemma QuietStep(s: State, c: nat, call: Call)
    requires Inv(s) && c < |s.calls| && CallValid(s, call)
    requires Leads(s.calls[c].phase) == Leads(call.phase)
    requires s.calls[c].phase != Subscribed && call.phase != Subscribed
    ensures Inv(s.(calls := s.calls[c := call]))
  {
    var t := s.(calls := s.calls[c := call]);
    if s.isRefreshing {
      var l :| 0 <= l < |s.calls| && Leads(s.calls[l].phase);
      assert Leads(t.calls[l].phase);
    }
  }

  lemma EnterKeepsInv(s: State, c: nat, hasRefreshToken: bool)
    requires Inv(s) && c < |s.calls| && s.calls[c].phase == Sent
    ensures Inv(EnterRefresh(s, c, hasRefreshToken))
  {
    var t := EnterRefresh(s, c, hasRefreshToken);
    if !hasRefreshToken {
      QuietStep(s, c, t.calls[c]);
    } else if s.isRefreshing {
      var l :| 0 <= l < |s.calls| && Leads(s.calls[l].phase);
      assert Leads(t.calls[l].phase);
      assert c !in s.subscribers;
    } else {
      assert Leads(t.calls[c].phase);
    }
  }

  lemma CompleteKeepsInv(s: State, c: nat, newToken: Option<Token>)
    requires Inv(s) && c < |s.calls| && Leads(s.calls[c].phase)
    ensures Inv(Complete(s, c, newToken))
  {
    var t := Complete(s, c, newToken);
    forall i | 0 <= i < |t.calls|
      ensures CallValid(t, t.calls[i]) && !Leads(t.calls[i].phase) && t.calls[i].phase != Subscribed
    {
      if i != c && i !in s.subscribers {
        assert t.calls[i] == s.calls[i];
      }
    }
  }

  lemma StepKeepsInv(s: State, e: Event)
    requires Inv(s) && Enabled(s, e)
    ensures Inv(Step(s, e))
  {
    var t := Step(s, e);
    match e
    case Send(c) => QuietStep(s, c, t.calls[c]);
    case Answered(c, unauthorized, hasRefreshToken) =>
      if unauthorized {
        EnterKeepsInv(s, c, hasRefreshToken);
      } else {
        QuietStep(s, c, t.calls[c]);
      }
    case RefreshResponse(c, ok) =>
      if ok {
        QuietStep(s, c, t.calls[c]);
      } else {
        CompleteKeepsInv(s, c, None);
      }
    case RefreshBody(c, newToken) => CompleteKeepsInv(s, c, newToken);
    case Resume(c) => QuietStep(s, c, t.calls[c]);
    case RetryAnswered(c) => QuietStep(s, c, t.calls[c]);
  }

  // ---- Every interleaving -------------------------------------------------------------------------

  /** The events can happen in this order, from n requests not yet sent. */
  ghost predicate Possible(n: nat, es: seq<Event>)
    decreases |es|, 0
  {
    es == [] ||
    (Possible(n, es[..|es| - 1]) && Enabled(Reached(n, es[..|es| - 1]), es[|es| - 1]))
  }

  ghost function Reached(n: nat, es: seq<Event>): (s: State)
    requires Possible(n, es)
    ensures Inv(s) && |s.calls| == n
    decreases |es|, 1
  {
    if es == [] then
      InitialInv(n);
      Initial(n)
    else
      var before := Reached(n, es[..|es| - 1]);
      StepKeepsInv(before, es[|es| - 1]);
      Step(before, es[|es| - 1])
  }

  /**
   At most one refresh is in flight, nobody waits when none is, a request is settled at most once and
   sent at most twice, and a retry carries the token of the refresh that its request joined. A
   finished request that joined a refresh was settled exactly once, and was sent again exactly if
   that refresh brought a token.
  */
  ghost predicate FliesOnce(s: State) {
    && s.posts <= |s.outcomes| + 1
    && (!s.isRefreshing ==> s.subscribers == [] && s.posts == |s.outcomes|)
    && (forall c, d :: 0 <= c < |s.calls| && 0 <= d < |s.calls| ==>
          Leads(s.calls[c].phase) && Leads(s.calls[d].phase) ==> c == d)
    && (forall c :: 0 <= c < |s.calls| ==> s.calls[c].settlements <= 1 && s.calls[c].sends <= 2)
    && (forall c :: 0 <= c < |s.calls| && s.calls[c].phase == Finished ==>
          if s.calls[c].joined.None? then s.calls[c].sends == 1 && s.calls[c].settlements == 0
          else
            && s.calls[c].settlements == 1 && s.calls[c].joined.value < |s.outcomes|
            && s.calls[c].sends == if s.outcomes[s.calls[c].joined.value].Some? then 2 else 1)
    && (forall c :: 0 <= c < |s.calls| && s.calls[c].phase.Retried? ==>
          FromItsRefresh(s, s.calls[c], Some(s.calls[c].phase.token)))
  }

  lemma InvFliesOnce(s: State)
    requires Inv(s)
    ensures FliesOnce(s)
  {
    assert forall c :: 0 <= c < |s.calls| ==> CallValid(s, s.calls[c]);
  }

  /** Whatever the interleaving, for any number of requests. */
  lemma SingleFlight(n: nat, es: seq<Event>)
    requires Possible(n, es)
    ensures FliesOnce(Reached(n, es)) && |Reached(n, es).calls| == n
  {
    InvFliesOnce(Reached(n, es));
  }

  // ---- What the events say ------------------------------------------------------------------------

  /** Nothing is assumed about the answers: whatever a request waits for may come out either way. */
  lemma AnyAnswerMayCome(n: nat, es: seq<Event>, c: nat, flag: bool, hasRefreshToken: bool, newToken: Option<Token>)
    requires Possible(n, es) && c < n
    ensures var phase := Reached(n, es).calls[c].phase;
            && (phase == Idle ==> Possible(n, es + [Send(c)]))
            && (phase == Sent ==> Possible(n, es + [Answered(c, flag, hasRefreshToken)]))
            && (phase == AwaitsRefreshResponse ==> Possible(n, es + [RefreshResponse(c, flag)]))
            && (phase == AwaitsRefreshBody ==> Possible(n, es + [RefreshBody(c, newToken)]))
  {
    MayFollow(n, es, Send(c));
    MayFollow(n, es, Answered(c, flag, hasRefreshToken));
    MayFollow(n, es, RefreshResponse(c, flag));
    MayFollow(n, es, RefreshBody(c, newToken));
  }

  lemma MayFollow(n: nat, es: seq<Event>, e: Event)
    requires Possible(n, es)
    ensures Possible(n, es + [e]) <==> Enabled(Reached(n, es), e)
  {
    assert (es + [e])[..|es|] == es;
  }

  /** What the completed refreshes brought, told by the answers to them alone. */
  function OutcomesIn(es: seq<Event>): seq<Option<Token>> {
    if es == [] then []
    else
      OutcomesIn(es[..|es| - 1]) +
      match es[|es| - 1]
      case RefreshResponse(_, ok) => if ok then [] else [None]
      case RefreshBody(_, newToken) => [newToken]
      case Send(_) => []
      case Answered(_, _, _) => []
      case Resume(_) => []
      case RetryAnswered(_) => []
  }

  /** The i-th event answers request c as unauthorized while a refresh token is there. */
  predicate AsksForRefresh(es: seq<Event>, c: nat, i: int) {
    0 <= i < |es| && es[i] == Answered(c, true, true)
  }

  ghost predicate JoinedAsAsked(es: seq<Event>, c: nat, call: Call) {
    && (call.joined.Some? ==> exists i :: AsksForRefresh(es, c, i))
    && (forall i :: AsksForRefresh(es, c, i) ==> call.joined == Some(|OutcomesIn(es[..i])|))
  }

  lemma StepOutcomes(s: State, e: Event)
    requires Enabled(s, e)
    ensures Step(s, e).outcomes == s.outcomes + OutcomesIn([e])
  {
    assert [e][..0] == [];
  }

  lemma StepJoins(s: State, e: Event, c: nat)
    requires Inv(s) && Enabled(s, e) && c < |s.calls|
    ensures |Step(s, e).calls| == |s.calls|
    ensures Step(s, e).calls[c].joined ==
            if e == Answered(c, true, true) then Some(|s.outcomes|) else s.calls[c].joined
    ensures e == Answered(c, true, true) ==> s.calls[c].joined == None
  {
    assert CallValid(s, s.calls[c]);
    match e
    case Send(_) =>
    case Answered(_, _, _) =>
    case RefreshResponse(_, _) =>
    case RefreshBody(_, _) =>
    case Resume(_) =>
    case RetryAnswered(_) =>
  }

  lemma {:induction false} OutcomesAreTold(n: nat, es: seq<Event>)
    requires Possible(n, es)
    ensures Reached(n, es).outcomes == OutcomesIn(es)
    decreases |es|
  {
    if es != [] {
      var front, e := es[..|es| - 1], es[|es| - 1];
      OutcomesAreTold(n, front);
      StepOutcomes(Reached(n, front), e);
      assert [e][..0] == [];
    }
  }

  /**
   A request joins a refresh exactly if it is answered as unauthorized while a refresh token is
   there, and it joins the one after those that were complete by then.
  */
  lemma {:induction false} JoinsExactlyWhenUnauthorized(n: nat, es: seq<Event>, c: nat)
    requires Possible(n, es) && c < n
    ensures Reached(n, es).calls[c].joined.Some? <==> exists i :: AsksForRefresh(es, c, i)
    ensures JoinedAsAsked(es, c, Reached(n, es).calls[c])
    decreases |es|
  {
    if es != [] {
      var front, e := es[..|es| - 1], es[|es| - 1];
      JoinsExactlyWhenUnauthorized(n, front, c);
      OutcomesAreTold(n, front);
      StepJoins(Reached(n, front), e, c);
      JoinedOneMore(es, c, Reached(n, front).calls[c], Reached(n, es).calls[c]);
    }
  }

  lemma JoinedOneMore(es: seq<Event>, c: nat, before: Call, after: Call)
    requires es != []
    requires var front, e := es[..|es| - 1], es[|es| - 1];
             && JoinedAsAsked(front, c, before)
             && after.joined == (if e == Answered(c, true, true) then Some(|OutcomesIn(front)|) else before.joined)
             && (e == Answered(c, true, true) ==> before.joined == None)
    ensures JoinedAsAsked(es, c, after)
    ensures after.joined.Some? <==> exists i :: AsksForRefresh(es, c, i)
  {
    var front, e := es[..|es| - 1], es[|es| - 1];
    forall i | AsksForRefresh(es, c, i)
      ensures after.joined == Some(|OutcomesIn(es[..i])|)
    {
      if i < |front| {
        assert AsksForRefresh(front, c, i) && front[..i] == es[..i];
      }
    }
    if after.joined.Some? {
      if e == Answered(c, true, true) {
        assert AsksForRefresh(es, c, |front|);
      } else {
        var i :| AsksForRefresh(front, c, i);
        assert AsksForRefresh(es, c, i);
      }
    }
  }

  /**
   Told by the events alone: a finished request was sent twice exactly if it was answered as
   unauthorized while a refresh token was there and the refresh it joined brought a token; else it
   was sent once, and whoever was answered otherwise joined none.
  */
  lemma SentAgainIff(n: nat, es: seq<Event>, c: nat)
    requires Possible(n, es) && c < n && Reached(n, es).calls[c].phase == Finished
    ensures var sends := Reached(n, es).calls[c].sends;
            && (sends == 1 || sends == 2)
            && (forall i :: AsksForRefresh(es, c, i) ==> |OutcomesIn(es[..i])| < |OutcomesIn(es)|)
            && (sends == 2 <==>
                  exists i :: AsksForRefresh(es, c, i) && |OutcomesIn(es[..i])| < |OutcomesIn(es)| &&
                              OutcomesIn(es)[|OutcomesIn(es[..i])|].Some?)
  {
    SingleFlight(n, es);
    OutcomesAreTold(n, es);
    JoinsExactlyWhenUnauthorized(n, es, c);
  }

  // ---- Everything ends ----------------------------------------------------------------------------

  function Rank(p: Phase): nat {
    match p
    case Idle => 6
    case Sent => 5
    case AwaitsRefreshResponse => 4
    case AwaitsRefreshBody => 3
    case Subscribed => 3
    case Resumes(_) => 2
    case Retried(_) => 1
    case Finished => 0
  }

  ghost function Total(calls: seq<Call>): nat {
    if calls == [] then 0 else Total(calls[..|calls| - 1]) + Rank(calls[|calls| - 1].phase)
  }

  lemma {:induction false} TotalFalls(a: seq<Call>, b: seq<Call>, c: nat)
    requires |a| == |b| && c < |a|
    requires forall i :: 0 <= i < |a| ==> Rank(b[i].phase) <= Rank(a[i].phase)
    requires Rank(b[c].phase) < Rank(a[c].phase)
    ensures Total(b) < Total(a)
    decreases |a|
  {
    if c == |a| - 1 {
      TotalNotLess(a[..c], b[..c]);
    } else {
      TotalFalls(a[..|a| - 1], b[..|b| - 1], c);
    }
  }

  lemma {:induction false} TotalNotLess(a: seq<Call>, b: seq<Call>)
    requires |a| == |b|
    requires forall i :: 0 <= i < |a| ==> Rank(b[i].phase) <= Rank(a[i].phase)
    ensures Total(b) <= Total(a)
    decreases |a|
  {
    if a != [] {
      TotalNotLess(a[..|a| - 1], b[..|b| - 1]);
    }
  }

  /** The request of the event comes closer to its end, and no other one gets further from it. */
  lemma StepFalls(s: State, e: Event)
    requires Inv(s) && Enabled(s, e)
    ensures |Step(s, e).calls| == |s.calls|
    ensures forall i :: 0 <= i < |s.calls| ==> Rank(Step(s, e).calls[i].phase) <= Rank(s.calls[i].phase)
    ensures Rank(Step(s, e).calls[e.c].phase) < Rank(s.calls[e.c].phase)
  {
    match e
    case Send(_) =>
    case Answered(_, _, _) =>
    case RefreshResponse(c, ok) =>
      if !ok {
        CompleteFalls(s, c, None);
      }
    case RefreshBody(c, newToken) => CompleteFalls(s, c, newToken);
    case Resume(_) =>
    case RetryAnswered(_) =>
  }

  lemma CompleteFalls(s: State, c: nat, newToken: Option<Token>)
    requires Inv(s) && c < |s.calls| && Leads(s.calls[c].phase)
    ensures var t := Complete(s, c, newToken);
            && |t.calls| == |s.calls|
            && (forall i :: 0 <= i < |s.calls| ==> Rank(t.calls[i].phase) <= Rank(s.calls[i].phase))
            && Rank(t.calls[c].phase) < Rank(s.calls[c].phase)
  {
  }

  lemma StepProgresses(s: State, e: Event)
    requires Inv(s) && Enabled(s, e)
    ensures Total(Step(s, e).calls) < Total(s.calls)
  {
    StepFalls(s, e);
    TotalFalls(s.calls, Step(s, e).calls, e.c);
  }

  lemma {:induction false} TotalInitially(n: nat)
    ensures Total(Initial(n).calls) == 6 * n
  {
    if n > 0 {
      TotalInitially(n - 1);
      assert Initial(n).calls[..n - 1] == Initial(n - 1).calls;
    }
  }

  /** A run of n requests has at most 6n events. */
  lemma {:induction false} RunsAreShort(n: nat, es: seq<Event>)
    requires Possible(n, es)
    ensures |es| + Total(Reached(n, es).calls) <= 6 * n
    decreases |es|
  {
    if es == [] {
      TotalInitially(n);
    } else {
      RunsAreShort(n, es[..|es| - 1]);
      StepProgresses(Reached(n, es[..|es| - 1]), es[|es| - 1]);
    }
  }

  /** No request is left waiting: as long as one is not finished, some event can happen. */
  lemma NobodyIsStranded(n: nat, es: seq<Event>, c: nat)
    requires Possible(n, es) && c < n && Reached(n, es).calls[c].phase != Finished
    ensures exists e :: Possible(n, es + [e])
  {
    var s := Reached(n, es);
    var e := Next(s, c);
    assert (es + [e])[..|es|] == es;
    assert Possible(n, es + [e]);
  }

  lemma Next(s: State, c: nat) returns (e: Event)
    requires Inv(s) && c < |s.calls| && s.calls[c].phase != Finished
    ensures Enabled(s, e)
  {
    match s.calls[c].phase
    case Idle => e := Send(c);
    case Sent => e := Answered(c, false, false);
    case AwaitsRefreshResponse => e := RefreshResponse(c, false);
    case AwaitsRefreshBody => e := RefreshBody(c, None);
    case Subscribed =>
      assert c in s.subscribers;
      var l: nat :| l < |s.calls| && Leads(s.calls[l].phase);
      e := if s.calls[l].phase == AwaitsRefreshResponse then RefreshResponse(l, false) else RefreshBody(l, None);
    case Resumes(_) => e := Resume(c);
    case Retried(_) => e := RetryAnswered(c);
  }

  // ---- The client ---------------------------------------------------------------------------------

  class ApiClient {
    var isRefreshing: bool
    var refreshSubscribers: seq<int>
    var calls: seq<Call>
    var posts: nat
    var outcomes: seq<Option<Token>>

    constructor (n: nat)
      ensures Now() == Initial(n)
    {
      isRefreshing, refreshSubscribers, calls, posts, outcomes := false, [], seq(n, i => NEW_CALL), 0, [];
    }

    function Now(): State
      reads this
    {
      State(isRefreshing, refreshSubscribers, calls, posts, outcomes)
    }

    /** Takes the queue away first, then resolves or rejects its members one by one. */
    method SettleRefreshSubscribers(newToken: Option<Token>)
      requires QueueValid(Now())
      modifies this`refreshSubscribers, this`calls
      ensures refreshSubscribers == []
      ensures calls == SettleAll(old(calls), old(refreshSubscribers), newToken)
    {
      var queue := refreshSubscribers;
      refreshSubscribers := [];
      ghost var before := calls;
      for k := 0 to |queue|
        invariant |calls| == |before| && refreshSubscribers == []
        invariant calls == SettleAll(before, queue[..k], newToken)
      {
        assert queue[k] in queue;
        assert queue[k] !in queue[..k];
        assert forall i :: i in queue[..k + 1] <==> i in queue[..k] || i == queue[k];
        calls := calls[queue[k] := Told(calls[queue[k]], newToken)];
      }
      assert queue[..|queue|] == queue;
    }

    /** The end of a leader's refresh, successful or not. */
    method FinishRefresh(c: nat, newToken: Option<Token>)
      requires Inv(Now()) && c < |calls| && Leads(calls[c].phase)
      modifies this
      ensures Now() == Complete(old(Now()), c, newToken)
    {
      assert c !in refreshSubscribers;
      SettleRefreshSubscribers(newToken);
      calls := calls[c := Told(calls[c], newToken)];
      isRefreshing := false;
      outcomes := outcomes + [newToken];
    }

    /** refreshAccessTokenQueued until it returns, subscribes, or awaits the refresh request. */
    method RefreshAccessTokenQueued(c: nat, hasRefreshToken: bool)
      requires c < |calls|
      modifies this
      ensures Now() == EnterRefresh(old(Now()), c, hasRefreshToken)
    {
      if !hasRefreshToken {
        calls := calls[c := calls[c].(phase := Resumes(None))];
        return;
      }
      if isRefreshing {
        refreshSubscribers := refreshSubscribers + [c];
        calls := calls[c := calls[c].(phase := Subscribed, joined := Some(|outcomes|))];
        return;
      }
      isRefreshing := true;
      posts := posts + 1;
      calls := calls[c := calls[c].(phase := AwaitsRefreshResponse, joined := Some(|outcomes|))];
    }

    /** One event of fetchWithAuthRetry or of the refresh. */
    method Handle(e: Event)
      requires Inv(Now()) && Enabled(Now(), e)
      modifies this
      ensures Now() == Step(old(Now()), e) && Inv(Now())
    {
      StepKeepsInv(Now(), e);
      var call := calls[e.c];
      match e
      case Send(c) =>
        calls := calls[c := call.(phase := Sent, sends := call.sends + 1)];
      case Answered(c, unauthorized, hasRefreshToken) =>
        if unauthorized {
          RefreshAccessTokenQueued(c, hasRefreshToken);
        } else {
          calls := calls[c := call.(phase := Finished)];
        }
      case RefreshResponse(c, ok) =>
        if ok {
          calls := calls[c := call.(phase := AwaitsRefreshBody)];
        } else {
          FinishRefresh(c, None);
        }
      case RefreshBody(c, newToken) =>
        FinishRefresh(c, newToken);
      case Resume(c) =>
        if call.phase.newToken.Some? {
          calls := calls[c := call.(phase := Retried(call.phase.newToken.value), sends := call.sends + 1)];
        } else {
          calls := calls[c := call.(phase := Finished)];
        }
      case RetryAnswered(c) =>
        calls := calls[c := call.(phase := Finished)];
    }
  }
}
