/** What the state remembers is what the actions so far say. */
module History {
  import opened Collections
  import opened Content
  import opened Addresses
  import opened Publishing
  import opened Discovery
  import opened Behaviour
  import opened Service

  // ---- the records ----

  /** The first identifier of an Index command that names one. */
  function NewRoots(a: Action): seq<Cid> {
    if a.Index? && a.cids != [] then [a.cids[0]] else []
  }

  /** The first identifier of each Index command, in order. */
  function FirstIndexed(past: seq<Action>): seq<Cid> {
    if past == [] then [] else FirstIndexed(past[..|past| - 1]) + NewRoots(past[|past| - 1])
  }

  function NewConnections(a: Action): seq<WireStep> {
    match a
    case ConnectionOpened(p) => [Up(p)]
    case ConnectionClosed(p) => [Down(p)]
    case _ => []
  }

  /** The connection steps, in order. */
  function Connections(past: seq<Action>): seq<WireStep> {
    if past == [] then [] else Connections(past[..|past| - 1]) + NewConnections(past[|past| - 1])
  }

  /** The latest status that autonat was set to. */
  function LatestStatus(past: seq<Action>): NatStatus {
    if past == [] then Unknown
    else if past[|past| - 1].NatStatusSet? then past[|past| - 1].status
    else LatestStatus(past[..|past| - 1])
  }

  ghost predicate AskedIn(past: seq<Action>, sender: Sender, cid: Cid) {
    exists a :: a in past && a.GetBitswap? && a.sender == sender && a.cid == cid
  }

  ghost predicate AskersRecorded(s: State, past: seq<Action>) {
    forall x, cid :: x in s.asked && s.asked[x] == cid <==> AskedIn(past, x, cid)
  }

  ghost predicate StepsRecorded(s: State, past: seq<Action>) {
    s.indexed == FirstIndexed(past) && s.wire == Connections(past)
  }

  ghost predicate StatusRecorded(s: State, past: seq<Action>) {
    && s.behaviour.natStatus == LatestStatus(past)
    && forall address :: address in s.reported <==> NatStatusSet(Public(address)) in past
  }

  lemma AskedAppend(past: seq<Action>, a: Action, x: Sender, cid: Cid)
    ensures AskedIn(past + [a], x, cid)
            <==> AskedIn(past, x, cid) || (a.GetBitswap? && a.sender == x && a.cid == cid)
  {
    assert a in past + [a];
    if b :| b in past && b.GetBitswap? && b.sender == x && b.cid == cid {
      assert b in past + [a];
    }
  }

  lemma StepRecordsAskers(node: Node, s: State, a: Action, next: State, past: seq<Action>)
    requires AskersRecorded(s, past) && Enabled(s, a) && next == Step(node, s, a)
    ensures AskersRecorded(next, past + [a])
  {
    if a.HandleEvent? {
      TurnsRecordNothing(node, s, a, next);
    }
    forall x, cid
      ensures x in next.asked && next.asked[x] == cid <==> AskedIn(past + [a], x, cid)
    {
      AskedAppend(past, a, x, cid);
    }
  }

  lemma StepAppends(node: Node, s: State, a: Action, next: State)
    requires Enabled(s, a) && next == Step(node, s, a)
    ensures next.indexed == s.indexed + NewRoots(a) && next.wire == s.wire + NewConnections(a)
  {
    Regroup(s.indexed, [], []);
    Regroup(s.wire, [], []);
    if a.HandleEvent? {
      TurnsRecordNothing(node, s, a, next);
    }
  }

  lemma StepRecordsSteps(node: Node, s: State, a: Action, next: State, past: seq<Action>)
    requires StepsRecorded(s, past) && Enabled(s, a) && next == Step(node, s, a)
    ensures StepsRecorded(next, past + [a])
  {
    StepAppends(node, s, a, next);
    assert (past + [a])[..|past|] == past;
  }

  lemma StepRecordsStatus(node: Node, s: State, a: Action, next: State, past: seq<Action>)
    requires StatusRecorded(s, past) && Enabled(s, a) && next == Step(node, s, a)
    ensures StatusRecorded(next, past + [a])
  {
    assert (past + [a])[..|past|] == past;
    if a.HandleEvent? {
      TurnsRecordNothing(node, s, a, next);
      TurnBehaviour(node, s, a, next);
    }
  }

  /** In every state of every run: the indexed roots are the first identifiers of the
      Index commands, the askers are the senders of the GetBitswap commands, each
      with its cid, the connection steps are those of the run, the autonat status is
      the latest one set, and the public addresses are those that were set. */
  lemma {:induction false} RecordsAreHistory(node: Node, states: seq<State>, actions: seq<Action>, i: nat)
    requires IsRun(node, states, actions) && i < |states|
    ensures AskersRecorded(states[i], actions[..i]) && StepsRecorded(states[i], actions[..i])
    ensures StatusRecorded(states[i], actions[..i])
    decreases i
  {
    if i > 0 {
      RecordsAreHistory(node, states, actions, i - 1);
      StepRecordsAskers(node, states[i - 1], actions[i - 1], states[i], actions[..i - 1]);
      StepRecordsSteps(node, states[i - 1], actions[i - 1], states[i], actions[..i - 1]);
      StepRecordsStatus(node, states[i - 1], actions[i - 1], states[i], actions[..i - 1]);
      assert actions[..i] == actions[..i - 1] + [actions[i - 1]];
    }
  }

  // ---- where publishing events come from ----

  /** The step queues a publishing event with this address: an Index command while
      the address is public, or the turn of the report that it has become public. */
  ghost predicate QueuesPublish(s: State, a: Action, address: Multiaddr)
    requires Enabled(s, a)
  {
    || (a.Index? && a.cids != [] && s.behaviour.natStatus == Public(address))
    || (a.HandleEvent? && s.behaviour.events[0].NatStatusChanged?
        && s.behaviour.events[0].report.after == Public(address))
  }

  /** The reports that are queued at autonat or at the behaviour. */
  ghost predicate ReportQueued(b: BehaviourState, report: NatReport) {
    report in b.natReports || NatStatusChanged(report) in b.events
  }

  lemma NewEvents(node: Node, s: State, a: Action, next: State, address: Multiaddr, report: NatReport)
    requires Enabled(s, a) && next == Step(node, s, a)
    ensures StartPublish(address) in next.behaviour.events ==>
              StartPublish(address) in s.behaviour.events || QueuesPublish(s, a, address)
    ensures ReportQueued(next.behaviour, report) ==>
              || ReportQueued(s.behaviour, report)
              || (a == NatStatusSet(report.after) && report.before == s.behaviour.natStatus)
  {
    if a.HandleEvent? {
      TurnBehaviour(node, s, a, next);
      HeadOrTail(s.behaviour.events, StartPublish(address));
      HeadOrTail(s.behaviour.events, NatStatusChanged(report));
    } else if a.NatStatusReported? {
      HeadOrTail(s.behaviour.natReports, report);
    }
  }

  /** No step queues more than one event for the loop. */
  lemma AtMostOneEvent(node: Node, s: State, a: Action, next: State)
    requires Enabled(s, a) && next == Step(node, s, a)
    ensures |next.behaviour.events| <= |s.behaviour.events| + 1
  {
    if a.HandleEvent? {
      TurnBehaviour(node, s, a, next);
    }
  }

  /** Every queued publishing event of a run was queued by a step k, with the address
      that was public then, or whose report was handled then. */
  lemma {:induction false} PublishOrigin(
    node: Node, states: seq<State>, actions: seq<Action>, i: nat, address: Multiaddr)
    returns (k: nat)
    requires IsRun(node, states, actions) && i < |states|
    requires StartPublish(address) in states[i].behaviour.events
    ensures k < i && QueuesPublish(states[k], actions[k], address)
    decreases i
  {
    assert i > 0;
    k := i - 1;
    NewEvents(node, states[k], actions[k], states[i], address, NatReport(Unknown, Unknown));
    if StartPublish(address) in states[k].behaviour.events {
      k := PublishOrigin(node, states, actions, k, address);
    }
  }

  /** Every queued report of a run tells of a step k that set the status, and of the
      status before it. */
  lemma {:induction false} ReportOrigin(
    node: Node, states: seq<State>, actions: seq<Action>, i: nat, report: NatReport)
    returns (k: nat)
    requires IsRun(node, states, actions) && i < |states| && ReportQueued(states[i].behaviour, report)
    ensures k < i && actions[k] == NatStatusSet(report.after) && report.before == LatestStatus(actions[..k])
    decreases i
  {
    assert i > 0;
    k := i - 1;
    NewEvents(node, states[k], actions[k], states[i], [], report);
    if ReportQueued(states[k].behaviour, report) {
      k := ReportOrigin(node, states, actions, k, report);
    } else {
      RecordsAreHistory(node, states, actions, k);
    }
  }

  /** Every queued publishing event carries an address that autonat found. */
  ghost predicate PublishesReported(s: State) {
    forall address :: StartPublish(address) in s.behaviour.events ==> address in s.reported
  }

  lemma AddressWasSet(node: Node, states: seq<State>, actions: seq<Action>, i: nat, address: Multiaddr)
    requires IsRun(node, states, actions) && i < |states|
    requires StartPublish(address) in states[i].behaviour.events
    ensures NatStatusSet(Public(address)) in actions[..i]
  {
    var k := PublishOrigin(node, states, actions, i, address);
    if actions[k].Index? {
      RecordsAreHistory(node, states, actions, k);
      LatestWasSet(actions[..k]);
      assert actions[..k] <= actions[..i];
    } else {
      var report := states[k].behaviour.events[0].report;
      assert NatStatusChanged(report) in states[k].behaviour.events;
      var j := ReportOrigin(node, states, actions, k, report);
      assert actions[..i][j] == NatStatusSet(Public(address));
    }
  }

  lemma {:induction false} LatestWasSet(past: seq<Action>)
    ensures LatestStatus(past) != Unknown ==> NatStatusSet(LatestStatus(past)) in past
    decreases past
  {
    if past != [] && !past[|past| - 1].NatStatusSet? {
      LatestWasSet(past[..|past| - 1]);
    }
  }

  /** In every state of every run, each queued publishing event carries an address
      that autonat was set to by an earlier step. */
  lemma AddressesWereReported(node: Node, states: seq<State>, actions: seq<Action>, i: nat)
    requires IsRun(node, states, actions) && i < |states|
    ensures PublishesReported(states[i])
    ensures forall address :: StartPublish(address) in states[i].behaviour.events ==>
              NatStatusSet(Public(address)) in actions[..i]
  {
    RecordsAreHistory(node, states, actions, i);
    forall address | StartPublish(address) in states[i].behaviour.events
      ensures NatStatusSet(Public(address)) in actions[..i]
    {
      AddressWasSet(node, states, actions, i, address);
    }
  }
}
