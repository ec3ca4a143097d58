/** What an answer says about the store, at its time and ever after. */
module Replies {
  import opened Collections
  import opened Publishing
  import opened Behaviour
  import opened Service

  /** The answer, given by this step, is a refusal exactly for a command that found
      no peer, and otherwise tells exactly whether its block is stored. */
  ghost predicate GivenBy(s: State, a: Action, answer: Answer) {
    && (answer.outcome.NoPeers? <==> a.GetBitswap?)
    && (answer.outcome.NoPeers? ==>
          s.behaviour.tracker.peers == {} && a.sender == answer.sender && a.cid == answer.cid)
    && (!answer.outcome.NoPeers? ==> (answer.outcome.Found? <==> answer.cid in s.store))
  }

  /** The answers a step gives: a refusal only to a command that found no peer,
      and otherwise Found exactly when the block is in the store at that time. */
  lemma AnswersAreHonest(node: Node, s: State, a: Action, next: State, k: nat)
    requires Enabled(s, a) && next == Step(node, s, a)
    requires |s.answers| <= k < |next.answers|
    ensures GivenBy(s, a, next.answers[k]) && next.store == s.store
  {
    match a
    case HandleEvent(_, _, _) =>
      match s.behaviour.events[0] {
        case Bitswap(_) =>
        case _ =>
      }
    case _ =>
  }

  /** A command is answered by its own step, with a refusal, if and only if there is
      no peer; otherwise its sender waits. */
  lemma RefusedIffNoPeers(node: Node, s: State, a: Action, next: State)
    requires a.GetBitswap? && Enabled(s, a) && next == Step(node, s, a)
    ensures s.behaviour.tracker.peers == {} <==> next.answers == s.answers + [Answer(a.sender, a.cid, NoPeers)]
    ensures s.behaviour.tracker.peers != {} <==> a.cid in next.channels && a.sender in next.channels[a.cid]
                                                 && next.answers == s.answers
  {
    if s.behaviour.tracker.peers != {} {
      assert next.channels[a.cid][|next.channels[a.cid]| - 1] == a.sender;
    }
  }

  lemma TurnGrows(node: Node, s: State, a: Action, next: State)
    requires a.HandleEvent? && Enabled(s, a) && next == Step(node, s, a)
    ensures next.store == s.store && s.answers <= next.answers
  {
    TurnsRecordNothing(node, s, a, next);
  }

  lemma StepGrows(node: Node, s: State, a: Action, next: State)
    requires Enabled(s, a) && next == Step(node, s, a)
    ensures Grows(s, next)
  {
    if a.HandleEvent? {
      TurnGrows(node, s, a, next);
    }
  }

  ghost predicate Grows(s: State, next: State) {
    Extends(s.store, next.store) && s.answers <= next.answers
  }

  lemma GrowsTrans(a: State, b: State, c: State)
    requires Grows(a, b) && Grows(b, c)
    ensures Grows(a, c)
  {
  }

  /** Over a run the store only grows and no answer is taken back. */
  lemma {:induction false} RunGrows(node: Node, states: seq<State>, actions: seq<Action>, i: nat, j: nat)
    requires IsRun(node, states, actions) && i <= j < |states|
    ensures Grows(states[i], states[j])
    decreases j
  {
    if i < j {
      RunGrows(node, states, actions, i, j - 1);
      StepGrows(node, states[j - 1], actions[j - 1], states[j]);
      GrowsTrans(states[i], states[j - 1], states[j]);
    }
  }

  /** An answer was there before the step, or is given by it. */
  lemma OldOrGiven(node: Node, s: State, a: Action, next: State, k: nat)
    requires Enabled(s, a) && next == Step(node, s, a) && k < |next.answers|
    ensures |s.answers| <= |next.answers|
    ensures if k < |s.answers| then next.answers[k] == s.answers[k] else GivenBy(s, a, next.answers[k])
  {
    StepGrows(node, s, a, next);
    if k >= |s.answers| {
      AnswersAreHonest(node, s, a, next, k);
    }
  }

  lemma OldOrGivenAt(node: Node, states: seq<State>, actions: seq<Action>, j: nat, k: nat)
    requires IsRun(node, states, actions) && 0 < j < |states| && k < |states[j].answers|
    ensures |states[j - 1].answers| <= |states[j].answers|
    ensures if k < |states[j - 1].answers| then states[j].answers[k] == states[j - 1].answers[k]
            else GivenBy(states[j - 1], actions[j - 1], states[j].answers[k])
  {
    OldOrGiven(node, states[j - 1], actions[j - 1], states[j], k);
  }

  /** Every answer of a run was given by some step i of it, honestly. */
  lemma {:induction false} AnswerOrigin(node: Node, states: seq<State>, actions: seq<Action>, j: nat, k: nat)
    returns (i: nat)
    requires IsRun(node, states, actions) && j < |states| && k < |states[j].answers|
    ensures i < j && |states[i].answers| <= k < |states[i + 1].answers|
    ensures states[i + 1].answers[k] == states[j].answers[k]
    ensures GivenBy(states[i], actions[i], states[j].answers[k])
    decreases j
  {
    assert j > 0;
    i := j - 1;
    OldOrGivenAt(node, states, actions, j, k);
    if k < |states[i].answers| {
      i := AnswerOrigin(node, states, actions, i, k);
    }
  }

  /** Once a sender was told Found, its block is in the store from then on. */
  lemma {:induction false} FoundStaysStored(node: Node, states: seq<State>, actions: seq<Action>, j: nat, k: nat)
    requires IsRun(node, states, actions) && j < |states|
    requires k < |states[j].answers| && states[j].answers[k].outcome.Found?
    ensures states[j].answers[k].cid in states[j].store
    decreases j
  {
    if j > 0 {
      RunGrows(node, states, actions, j - 1, j);
      if k < |states[j - 1].answers| {
        FoundStaysStored(node, states, actions, j - 1, k);
      } else {
        AnswersAreHonest(node, states[j - 1], actions[j - 1], states[j], k);
      }
    }
  }
}
