/** From the command to the event: what a query is after, and what its end says. */
module QueryLife {
  import opened Publishing
  import opened Behaviour
  import opened Service
  import opened Waiters
  import opened Replies
  import opened History

  /** The step is a GetBitswap command that finds a peer: it starts a query. */
  ghost predicate Starts(s: State, a: Action) {
    a.GetBitswap? && s.behaviour.tracker.peers != {}
  }

  /** The commands that started queries, by the query's id. */
  ghost function Started(states: seq<State>, actions: seq<Action>, i: nat): map<QueryId, Action>
    requires i <= |actions| < |states|
  {
    if i == 0 then map[]
    else
      var before := Started(states, actions, i - 1);
      if Starts(states[i - 1], actions[i - 1]) then before[actions[i - 1].id := actions[i - 1]] else before
  }

  /** What the command asks the block exchange for: one block, or the DAG below a
      root, which is all that is known to be missing of it. */
  ghost predicate AskedFor(a: Action, want: Want) {
    a.GetBitswap? && want == if a.query == Get then BlockWanted(a.cid) else DagWanted(a.cid, [a.cid])
  }

  ghost predicate Ended(past: seq<Action>, id: QueryId) {
    QueryEnded(id, true) in past || QueryEnded(id, false) in past
  }

  /** The query runs until it ends, and is after what its command asked for. */
  ghost predicate RunsFor(b: BehaviourState, past: seq<Action>, id: QueryId, a: Action) {
    && a.GetBitswap? && a.id == id
    && (id in b.active <==> !Ended(past, id)) && (id in b.queries <==> !Ended(past, id))
    && (id in b.active ==> AskedFor(a, b.active[id]))
    && (id in b.queries ==> b.queries[id] == BitswapInfo(a.cid, id, false))
  }

  /** The event says whether its query was ended with a block or without. */
  ghost predicate Tells(past: seq<Action>, info: BitswapInfo) {
    && (info.blockFound <==> QueryEnded(info.queryId, true) in past)
    && (!info.blockFound <==> QueryEnded(info.queryId, false) in past)
  }

  ghost predicate QueriesTraced(b: BehaviourState, started: map<QueryId, Action>, past: seq<Action>) {
    && b.issued == started.Keys && b.active.Keys <= b.issued && b.queries.Keys <= b.issued
    && (forall id :: id in started ==> RunsFor(b, past, id, started[id]))
    && (forall id :: Ended(past, id) ==> id in started)
  }

  ghost predicate EventsTraced(b: BehaviourState, started: map<QueryId, Action>, past: seq<Action>) {
    forall info :: Bitswap(info) in b.events ==>
      && Tells(past, info) && info.queryId in started
      && started[info.queryId].GetBitswap? && started[info.queryId].cid == info.cid
  }

  ghost predicate Traced(b: BehaviourState, started: map<QueryId, Action>, past: seq<Action>) {
    QueriesTraced(b, started, past) && EventsTraced(b, started, past)
  }

  lemma PastGrows(past: seq<Action>, a: Action)
    ensures forall id, found :: QueryEnded(id, found) in past + [a] <==>
              QueryEnded(id, found) in past || a == QueryEnded(id, found)
    ensures !a.QueryEnded? ==> forall id :: Ended(past + [a], id) <==> Ended(past, id)
    ensures a.QueryEnded? ==> forall id :: Ended(past + [a], id) <==> Ended(past, id) || id == a.id
  {
    forall id, found
      ensures QueryEnded(id, found) in past + [a] <==> QueryEnded(id, found) in past || a == QueryEnded(id, found)
    {
    }
  }

  lemma OthersKeepTraced(s: State, started: map<QueryId, Action>, past: seq<Action>, a: Action, next: State)
    requires Traced(s.behaviour, started, past) && LeavesWaiters(s, next) && !a.QueryEnded?
    ensures Traced(next.behaviour, started, past + [a])
  {
    PastGrows(past, a);
  }

  lemma StartKeepsTraced(b: BehaviourState, started: map<QueryId, Action>, past: seq<Action>, a: Action)
    requires Traced(b, started, past) && a.GetBitswap? && a.id !in b.issued
    ensures Traced(QueryStarted(b, WantFor(a.query, a.cid), a.id), started[a.id := a], past + [a])
  {
    PastGrows(past, a);
  }

  lemma EndKeepsTraced(b: BehaviourState, started: map<QueryId, Action>, past: seq<Action>, id: QueryId, found: bool)
    requires Traced(b, started, past) && id in b.active
    ensures Traced(QueryCompleted(b, id, found), started, past + [QueryEnded(id, found)])
  {
    PastGrows(past, QueryEnded(id, found));
    assert RunsFor(b, past, id, started[id]);
  }

  /** The query of an event has ended, so that cancelling it changes nothing. */
  lemma CancelIsLate(b: BehaviourState, started: map<QueryId, Action>, past: seq<Action>, info: BitswapInfo)
    requires Traced(b, started, past) && Bitswap(info) in b.events
    ensures b.queries - {info.queryId} == b.queries && b.active - {info.queryId} == b.active
  {
    assert RunsFor(b, past, info.queryId, started[info.queryId]);
  }

  lemma HandledKeepsTraced(s: State, started: map<QueryId, Action>, past: seq<Action>, a: Action, info: BitswapInfo)
    requires Traced(s.behaviour, started, past) && !a.QueryEnded?
    requires s.behaviour.events != [] && s.behaviour.events[0] == Bitswap(info)
    ensures Traced(OnBitswap(Popped(s), info).behaviour, started, past + [a])
  {
    var b := s.behaviour;
    CancelIsLate(b, started, past, info);
    var next := b.(events := b.events[1..]);
    assert OnBitswap(Popped(s), info).behaviour == next;
    PastGrows(past, a);
    assert QueriesTraced(next, started, past + [a]);
    assert forall e :: e in next.events ==> e in b.events;
  }

  lemma StepTraced(node: Node, s: State, started: map<QueryId, Action>, past: seq<Action>, a: Action, next: State)
    requires Traced(s.behaviour, started, past) && Enabled(s, a) && next == Step(node, s, a)
    ensures Traced(next.behaviour, if Starts(s, a) then started[a.id := a] else started, past + [a])
  {
    if Starts(s, a) {
      StartKeepsTraced(s.behaviour, started, past, a);
    } else if a.QueryEnded? {
      EndKeepsTraced(s.behaviour, started, past, a.id, a.found);
    } else if a.HandleEvent? && s.behaviour.events[0].Bitswap? {
      HandledKeepsTraced(s, started, past, a, s.behaviour.events[0].info);
    } else if a.GetBitswap? {
      OthersKeepTraced(s, started, past, a, next);
    } else {
      OtherStepsUnrelated(node, s, a, next);
      OthersKeepTraced(s, started, past, a, next);
    }
  }

  /** In every state of every run: each query that a command started runs for what
      that command asked for until a QueryEnded step ends it, no step ends another
      query, and a Bitswap event says that a block was found if and only if its query
      was ended with one, for the cid that its command named. */
  lemma {:induction false} EveryQueryTraced(node: Node, states: seq<State>, actions: seq<Action>, i: nat)
    requires IsRun(node, states, actions) && i < |states|
    ensures Traced(states[i].behaviour, Started(states, actions, i), actions[..i])
    decreases i
  {
    if i > 0 {
      var k := i - 1;
      EveryQueryTraced(node, states, actions, k);
      StepTraced(node, states[k], Started(states, actions, k), actions[..k], actions[k], states[i]);
      assert actions[..i] == actions[..k] + [actions[k]];
    }
  }

  // ---- waiters are told in the order of their commands ----

  /** The command of x came before that of y. */
  ghost predicate AskedBefore(past: seq<Action>, x: Sender, y: Sender) {
    exists m, n :: 0 <= m < n < |past| && past[m].GetBitswap? && past[m].sender == x
                   && past[n].GetBitswap? && past[n].sender == y
  }

  ghost predicate InAskOrder(past: seq<Action>, chans: seq<Sender>) {
    forall j, k :: 0 <= j < k < |chans| ==> AskedBefore(past, chans[j], chans[k])
  }

  ghost predicate ChannelsInOrder(s: State, past: seq<Action>) {
    forall cid :: cid in s.channels ==> InAskOrder(past, s.channels[cid])
  }

  lemma OrderStays(past: seq<Action>, a: Action, chans: seq<Sender>)
    requires InAskOrder(past, chans)
    ensures InAskOrder(past + [a], chans)
  {
    var longer := past + [a];
    forall j, k | 0 <= j < k < |chans|
      ensures AskedBefore(longer, chans[j], chans[k])
    {
      assert AskedBefore(past, chans[j], chans[k]);
      var m, n :| 0 <= m < n < |past| && past[m].GetBitswap? && past[m].sender == chans[j]
                  && past[n].GetBitswap? && past[n].sender == chans[k];
      assert longer[m] == past[m] && longer[n] == past[n];
    }
  }

  /** The sender of the latest command comes last. */
  lemma LatestIsLast(past: seq<Action>, a: Action, chans: seq<Sender>)
    requires InAskOrder(past, chans) && a.GetBitswap?
    requires forall x :: x in chans ==> exists cid :: AskedIn(past, x, cid)
    ensures InAskOrder(past + [a], chans + [a.sender])
  {
    var longer := past + [a];
    OrderStays(past, a, chans);
    forall j | 0 <= j < |chans|
      ensures AskedBefore(longer, chans[j], a.sender)
    {
      assert chans[j] in chans;
      var cid :| AskedIn(past, chans[j], cid);
      var b :| b in past && b.GetBitswap? && b.sender == chans[j];
      var m :| 0 <= m < |past| && past[m] == b;
      assert longer[m] == b && longer[|past|] == a;
    }
  }

  lemma CommandKeepsOrder(node: Node, s: State, past: seq<Action>, a: Action, next: State)
    requires ChannelsInOrder(s, past) && ChannelsOk(s) && AskersRecorded(s, past)
    requires a.GetBitswap? && Enabled(s, a) && next == Step(node, s, a)
    ensures ChannelsInOrder(next, past + [a])
  {
    forall cid | cid in next.channels
      ensures InAskOrder(past + [a], next.channels[cid])
    {
      if cid == a.cid && s.behaviour.tracker.peers != {} {
        var chans := if cid in s.channels then s.channels[cid] else [];
        forall x | x in chans
          ensures exists c :: AskedIn(past, x, c)
        {
          assert AskedIn(past, x, s.asked[x]);
        }
        LatestIsLast(past, a, chans);
      } else {
        OrderStays(past, a, s.channels[cid]);
      }
    }
  }

  /** Other steps put nobody into a channel. */
  lemma OnlyCommandsQueue(node: Node, s: State, a: Action, next: State)
    requires Enabled(s, a) && next == Step(node, s, a) && !a.GetBitswap?
    ensures forall cid :: cid in next.channels ==> cid in s.channels && next.channels[cid] == s.channels[cid]
  {
    if !AnswersEvent(s, a) {
      OnlyBitswapAnswers(node, s, a);
    }
  }

  /** In every state of every run, the waiters of each cid are queued in the order of
      their commands. */
  lemma {:induction false} WaitersInOrder(node: Node, states: seq<State>, actions: seq<Action>, i: nat)
    requires IsRun(node, states, actions) && i < |states|
    ensures ChannelsInOrder(states[i], actions[..i])
    decreases i
  {
    if i > 0 {
      var k := i - 1;
      var s, a, past := states[k], actions[k], actions[..k];
      assert Enabled(s, a) && states[i] == Step(node, s, a);
      assert actions[..i] == past + [a];
      WaitersInOrder(node, states, actions, k);
      if a.GetBitswap? {
        EveryWaiterServed(node, states, actions, k);
        RecordsAreHistory(node, states, actions, k);
        CommandKeepsOrder(node, s, past, a, states[i]);
      } else {
        OnlyCommandsQueue(node, s, a, states[i]);
        forall cid | cid in states[i].channels
          ensures InAskOrder(actions[..i], states[i].channels[cid])
        {
          OrderStays(past, a, s.channels[cid]);
        }
      }
    }
  }

  // ---- what the turn of an event says ----

  /** What a turn says to the waiters for the cid of its event. */
  ghost predicate AllTold(s: State, info: BitswapInfo, next: State)
    requires info.cid in s.channels
  {
    var chans, n := s.channels[info.cid], |s.answers|;
    && s.answers <= next.answers && |next.answers| == n + |chans|
    && forall k :: 0 <= k < |chans| ==>
         next.answers[n + k].sender == chans[k] && next.answers[n + k].cid == info.cid
  }

  /** The turn of a run that handles the event of a query answers all waiters for its
      cid, in the order of their commands, and tells them that the block was not
      found if and only if a step ended that query without it and nobody has stored
      it since. */
  lemma NotFoundMeansEndedWithout(node: Node, states: seq<State>, actions: seq<Action>, i: nat, k: nat)
    requires IsRun(node, states, actions) && i < |actions|
    requires actions[i].HandleEvent? && states[i].behaviour.events[0].Bitswap?
    requires |states[i].answers| <= k < |states[i + 1].answers|
    ensures var info := states[i].behaviour.events[0].info;
            && info.cid in states[i].channels && AllTold(states[i], info, states[i + 1])
            && InAskOrder(actions[..i], states[i].channels[info.cid])
            && (states[i + 1].answers[k].outcome.NotFound?
                <==> QueryEnded(info.queryId, false) in actions[..i] && info.cid !in states[i].store)
            && (states[i + 1].answers[k].outcome.Found? <==> info.cid in states[i].store)
  {
    var s, info := states[i], states[i].behaviour.events[0].info;
    assert Enabled(s, actions[i]) && states[i + 1] == Step(node, s, actions[i]);
    EveryQueryTraced(node, states, actions, i);
    assert Bitswap(info) in s.behaviour.events;
    WaitersInOrder(node, states, actions, i);
    AnswersAreHonest(node, s, actions[i], states[i + 1], k);
  }
}
