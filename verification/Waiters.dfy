/** Waiters of the service loop: each is answered exactly once, and none is stranded. */
module Waiters {
  import opened Collections
  import opened Content
  import opened LinkGraph
  import opened Publishing
  import opened Behaviour
  import opened Service

  // ---- each sender is waiting, or was answered once ----

  ghost predicate Waiting(s: State, sender: Sender) {
    sender in s.asked && s.asked[sender] in s.channels && sender in s.channels[s.asked[sender]]
  }

  ghost predicate Answered(s: State, sender: Sender) {
    exists a :: a in s.answers && a.sender == sender
  }

  /** The senders under one cid asked for that cid, and none is there twice. */
  ghost predicate ChannelsOk(s: State) {
    && (forall cid, x :: cid in s.channels && x in s.channels[cid] ==> x in s.asked && s.asked[x] == cid)
    && (forall cid :: cid in s.channels ==> s.channels[cid] != [] && NoRepeats(s.channels[cid]))
  }

  ghost predicate NoRepeats<T>(xs: seq<T>) {
    forall i, j :: 0 <= i < j < |xs| ==> xs[i] != xs[j]
  }

  /** Nobody was answered twice, or for another cid. */
  ghost predicate AnswersOk(s: State) {
    && (forall a :: a in s.answers ==> a.sender in s.asked && s.asked[a.sender] == a.cid)
    && (forall i, j :: 0 <= i < j < |s.answers| ==> s.answers[i].sender != s.answers[j].sender)
  }

  ghost predicate ExactlyOnce(s: State) {
    && ChannelsOk(s) && AnswersOk(s)
    && forall x :: x in s.asked ==> (Waiting(s, x) <==> !Answered(s, x))
  }

  lemma RepliesCover(store: Graph, cid: Cid, chans: seq<Sender>, x: Sender)
    ensures x in chans <==> exists a :: a in Replies(store, cid, chans) && a.sender == x
  {
    var replies := Replies(store, cid, chans);
    if x in chans {
      var i :| 0 <= i < |chans| && chans[i] == x;
      assert replies[i].sender == x;
    }
  }

  /** The new answers go to senders that had none, each to another one. */
  lemma RepliesDistinct(s: State, cid: Cid, answers: seq<Answer>)
    requires ExactlyOnce(s) && cid in s.channels
    requires answers == s.answers + Replies(s.store, cid, s.channels[cid])
    ensures forall i, j :: 0 <= i < j < |answers| ==> answers[i].sender != answers[j].sender
  {
    var chans, n := s.channels[cid], |s.answers|;
    forall i, j | 0 <= i < j < |answers|
      ensures answers[i].sender != answers[j].sender
    {
      if i < n <= j {
        assert Waiting(s, chans[j - n]);
        assert s.answers[i] in s.answers && answers[j].sender == chans[j - n];
      }
    }
  }

  lemma BitswapAnswers(s: State, cid: Cid, next: State)
    requires ExactlyOnce(s) && cid in s.channels
    requires next.channels == s.channels - {cid} && next.asked == s.asked
    requires next.answers == s.answers + Replies(s.store, cid, s.channels[cid])
    ensures ExactlyOnce(next)
  {
    var chans := s.channels[cid];
    RepliesDistinct(s, cid, next.answers);
    forall x | x in s.asked
      ensures Answered(next, x) <==> Answered(s, x) || x in chans
      ensures Waiting(next, x) <==> Waiting(s, x) && x !in chans
    {
      AnsweredEither(s, cid, next, x);
    }
  }

  lemma AnsweredEither(s: State, cid: Cid, next: State, x: Sender)
    requires cid in s.channels && next.answers == s.answers + Replies(s.store, cid, s.channels[cid])
    ensures Answered(next, x) <==> Answered(s, x) || x in s.channels[cid]
  {
    RepliesCover(s.store, cid, s.channels[cid], x);
    if a :| a in s.answers && a.sender == x {
      assert a in next.answers;
    }
    if a :| a in Replies(s.store, cid, s.channels[cid]) && a.sender == x {
      assert a in next.answers;
    }
  }

  lemma SenderRefused(s: State, cid: Cid, sender: Sender, next: State)
    requires ExactlyOnce(s) && sender !in s.asked
    requires next.asked == s.asked[sender := cid] && next.channels == s.channels
    requires next.answers == s.answers + [Answer(sender, cid, NoPeers)]
    ensures ExactlyOnce(next)
  {
    assert Answer(sender, cid, NoPeers) in next.answers;
    forall x | x in s.asked
      ensures Answered(next, x) <==> Answered(s, x)
      ensures Waiting(next, x) <==> Waiting(s, x)
    {
      if a :| a in s.answers && a.sender == x {
        assert a in next.answers;
      }
    }
  }

  lemma SenderQueued(s: State, cid: Cid, sender: Sender, next: State)
    requires ExactlyOnce(s) && sender !in s.asked
    requires next.asked == s.asked[sender := cid] && next.answers == s.answers
    requires next.channels == s.channels[cid := (if cid in s.channels then s.channels[cid] else []) + [sender]]
    ensures ExactlyOnce(next)
  {
    forall x | x in next.asked
      ensures Waiting(next, x) <==> Waiting(s, x) || x == sender
      ensures Answered(next, x) <==> Answered(s, x)
    {
    }
    assert !Answered(s, sender);
  }

  /** Every step keeps each sender in exactly one of the two places. */
  lemma StepExactlyOnce(node: Node, s: State, a: Action, next: State)
    requires ExactlyOnce(s) && Enabled(s, a) && next == Step(node, s, a)
    ensures ExactlyOnce(next)
  {
    if a.GetBitswap? {
      if s.behaviour.tracker.peers == {} {
        SenderRefused(s, a.cid, a.sender, next);
      } else {
        SenderQueued(s, a.cid, a.sender, next);
      }
    } else if AnswersEvent(s, a) {
      BitswapAnswers(s, s.behaviour.events[0].info.cid, next);
    } else {
      OnlyBitswapAnswers(node, s, a);
      SameWaiters(s, next);
    }
  }

  /** The turn that answers the waiters of a cid. */
  ghost predicate AnswersEvent(s: State, a: Action)
    requires Enabled(s, a)
  {
    a.HandleEvent? && s.behaviour.events[0].Bitswap? && s.behaviour.events[0].info.cid in s.channels
  }

  lemma OnlyBitswapAnswers(node: Node, s: State, a: Action)
    requires Enabled(s, a) && !a.GetBitswap? && !AnswersEvent(s, a)
    ensures var next := Step(node, s, a);
            next.channels == s.channels && next.answers == s.answers && next.asked == s.asked
  {
    match a
    case HandleEvent(_, _, _) =>
      match s.behaviour.events[0] {
        case Bitswap(_) =>
        case _ =>
      }
    case _ =>
  }

  lemma SameWaiters(s: State, next: State)
    requires ExactlyOnce(s)
    requires next.channels == s.channels && next.answers == s.answers && next.asked == s.asked
    ensures ExactlyOnce(next)
  {
    assert forall x :: Waiting(next, x) <==> Waiting(s, x);
    assert forall x :: Answered(next, x) <==> Answered(s, x);
  }

  // ---- no waiter is stranded ----

  ghost predicate QueryFor(b: BehaviourState, cid: Cid) {
    exists id :: id in b.queries && b.queries[id].cid == cid
  }

  ghost predicate EventFor(b: BehaviourState, cid: Cid) {
    exists e :: e in b.events && e.Bitswap? && e.info.cid == cid
  }

  /** The table holds exactly the queries that can still complete, each with the
      cid that the block exchange is after. */
  ghost predicate QueriesOk(b: BehaviourState) {
    && b.queries.Keys == b.active.Keys <= b.issued
    && (forall id :: id in b.queries ==> b.queries[id].queryId == id && b.queries[id].cid == b.active[id].cid)
    && (forall e :: e in b.events && e.Bitswap? ==> e.info.queryId in b.issued && e.info.queryId !in b.active)
  }

  /** Whatever has waiters has a query that can still complete, or its event is
      on the way. */
  ghost predicate NoneStranded(s: State) {
    && QueriesOk(s.behaviour)
    && forall cid :: cid in s.channels ==> QueryFor(s.behaviour, cid) || EventFor(s.behaviour, cid)
  }

  /** Events of other kinds may come, and the first one may go if nobody waits for it. */
  lemma OtherEvents(b: BehaviourState, next: BehaviourState, cid: Cid)
    requires QueryFor(b, cid) || EventFor(b, cid)
    requires next.queries == b.queries
    requires forall e :: e in b.events && e.Bitswap? && e.info.cid == cid ==> e in next.events
    ensures QueryFor(next, cid) || EventFor(next, cid)
  {
    if QueryFor(b, cid) {
      var id :| id in b.queries && b.queries[id].cid == cid;
      assert id in next.queries;
    } else {
      var e :| e in b.events && e.Bitswap? && e.info.cid == cid;
      assert e in next.events;
    }
  }

  lemma QueryEndKeeps(s: State, id: QueryId, found: bool)
    requires NoneStranded(s) && id in s.behaviour.active
    ensures NoneStranded(s.(behaviour := QueryCompleted(s.behaviour, id, found)))
  {
    var b, next := s.behaviour, QueryCompleted(s.behaviour, id, found);
    assert next.events[|b.events|].info.cid == b.queries[id].cid;
    forall cid | cid in s.channels
      ensures QueryFor(next, cid) || EventFor(next, cid)
    {
      if QueryFor(b, cid) {
        var other :| other in b.queries && b.queries[other].cid == cid;
        if other == id {
          assert next.events[|b.events|] in next.events;
        } else {
          assert other in next.queries;
        }
      } else {
        var e :| e in b.events && e.Bitswap? && e.info.cid == cid;
        assert e in next.events;
      }
    }
  }

  lemma NewQueryKeeps(s: State, cid: Cid, query: BitswapType, sender: Sender, id: QueryId)
    requires NoneStranded(s) && id !in s.behaviour.issued
    ensures NoneStranded(OnGetBitswap(s, cid, query, sender, id))
  {
    var b, next := s.behaviour, OnGetBitswap(s, cid, query, sender, id);
    forall c | c in next.channels
      ensures QueryFor(next.behaviour, c) || EventFor(next.behaviour, c)
    {
      if next.behaviour != b && c == cid {
        assert id in next.behaviour.queries && next.behaviour.queries[id].cid == c;
      } else if QueryFor(b, c) {
        var other :| other in b.queries && b.queries[other].cid == c;
        assert other in next.behaviour.queries && next.behaviour.queries[other].cid == c;
      } else {
        var e :| e in b.events && e.Bitswap? && e.info.cid == c;
        assert e in next.behaviour.events;
      }
    }
  }

  /** Cancelling the query of a handled event cancels nothing that is running. */
  lemma CancelIsIdle(b: BehaviourState, info: BitswapInfo)
    requires QueriesOk(b) && Bitswap(info) in b.events
    ensures b.queries - {info.queryId} == b.queries && b.active - {info.queryId} == b.active
  {
  }

  lemma HandledBitswapKeeps(s: State, info: BitswapInfo)
    requires NoneStranded(s) && s.behaviour.events != [] && s.behaviour.events[0] == Bitswap(info)
    ensures NoneStranded(OnBitswap(Popped(s), info))
  {
    var b, next := s.behaviour, OnBitswap(Popped(s), info);
    assert b.events[0] in b.events;
    CancelIsIdle(b, info);
    assert next.behaviour == b.(events := b.events[1..]);
    forall cid | cid in next.channels
      ensures QueryFor(next.behaviour, cid) || EventFor(next.behaviour, cid)
    {
      forall e | e in b.events && e.Bitswap? && e.info.cid == cid
        ensures e in next.behaviour.events
      {
        HeadOrTail(b.events, e);
      }
      OtherEvents(b, next.behaviour, cid);
    }
  }

  /** A step that leaves queries and waiters alone, and takes no Bitswap event. */
  lemma UnrelatedKeeps(s: State, next: State)
    requires NoneStranded(s) && LeavesWaiters(s, next)
    ensures NoneStranded(next)
  {
    forall cid | cid in next.channels
      ensures QueryFor(next.behaviour, cid) || EventFor(next.behaviour, cid)
    {
      OtherEvents(s.behaviour, next.behaviour, cid);
    }
  }

  /** The step neither touches waiters and queries nor takes or adds a Bitswap event. */
  ghost predicate LeavesWaiters(s: State, next: State) {
    && next.channels == s.channels
    && next.behaviour.queries == s.behaviour.queries
    && next.behaviour.active == s.behaviour.active && next.behaviour.issued == s.behaviour.issued
    && forall e: BehaviourEvent :: e.Bitswap? ==> (e in next.behaviour.events <==> e in s.behaviour.events)
  }

  lemma OtherTurnsKeepQueries(node: Node, s: State, a: Action, next: State)
    requires a.HandleEvent? && Enabled(s, a) && next == Step(node, s, a) && !s.behaviour.events[0].Bitswap?
    ensures next.channels == s.channels
    ensures next.behaviour.queries == s.behaviour.queries
    ensures next.behaviour.active == s.behaviour.active && next.behaviour.issued == s.behaviour.issued
  {
  }

  lemma OtherTurnsKeepEvent(node: Node, s: State, a: Action, next: State, e: BehaviourEvent)
    requires a.HandleEvent? && Enabled(s, a) && next == Step(node, s, a) && !s.behaviour.events[0].Bitswap?
    requires e.Bitswap?
    ensures e in next.behaviour.events <==> e in s.behaviour.events
  {
    HeadOrTail(s.behaviour.events, e);
  }

  lemma OtherTurnsUnrelated(node: Node, s: State, a: Action, next: State)
    requires a.HandleEvent? && Enabled(s, a) && next == Step(node, s, a) && !s.behaviour.events[0].Bitswap?
    ensures LeavesWaiters(s, next)
  {
    OtherTurnsKeepQueries(node, s, a, next);
    forall e: BehaviourEvent | e.Bitswap?
      ensures e in next.behaviour.events <==> e in s.behaviour.events
    {
      OtherTurnsKeepEvent(node, s, a, next, e);
    }
  }

  /** Apart from the three kinds of step that concern block queries, none does. */
  lemma OtherStepsUnrelated(node: Node, s: State, a: Action, next: State)
    requires Enabled(s, a) && next == Step(node, s, a)
    requires !a.GetBitswap? && !a.QueryEnded? && !(a.HandleEvent? && s.behaviour.events[0].Bitswap?)
    ensures LeavesWaiters(s, next)
  {
    if a.HandleEvent? {
      OtherTurnsUnrelated(node, s, a, next);
    }
  }

  /** Every step keeps every waiter within reach of an answer. */
  lemma StepNoneStranded(node: Node, s: State, a: Action, next: State)
    requires NoneStranded(s) && Enabled(s, a) && next == Step(node, s, a)
    ensures NoneStranded(next)
  {
    if a.GetBitswap? {
      NewQueryKeeps(s, a.cid, a.query, a.sender, a.id);
    } else if a.QueryEnded? {
      QueryEndKeeps(s, a.id, a.found);
    } else if a.HandleEvent? && s.behaviour.events[0].Bitswap? {
      HandledBitswapKeeps(s, s.behaviour.events[0].info);
    } else {
      OtherStepsUnrelated(node, s, a, next);
      UnrelatedKeeps(s, next);
    }
  }

  // ---- whole runs ----

  /** In every state of every run each sender of a GetBitswap command is waiting
      or has been answered exactly once, and each waiter's block still has a live
      query or a queued event. */
  lemma {:induction false} EveryWaiterServed(node: Node, states: seq<State>, actions: seq<Action>, i: nat)
    requires IsRun(node, states, actions) && i < |states|
    ensures ExactlyOnce(states[i]) && NoneStranded(states[i])
    decreases i
  {
    if i > 0 {
      EveryWaiterServed(node, states, actions, i - 1);
      StepExactlyOnce(node, states[i - 1], actions[i - 1], states[i]);
      StepNoneStranded(node, states[i - 1], actions[i - 1], states[i]);
    }
  }
}
