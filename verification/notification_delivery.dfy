/**
 What becomes of the notifications themselves (service/notificationconsumer.go): each is in the
 queue from its commit until it is sent, and one token is enough to empty the queue.
 */
module NotificationDelivery {
  import opened Notifications

  predicate Queued(s: State, n: int) {
    n in s.unsent || n in s.silent
  }

  /** The notifications a step commits. */
  predicate Commits(s: State, step: Step, n: int) {
    || step == Silent(n)
    || ((step.Commit? || step.CommitUnheard?)
        && step.p in s.producers && s.producers[step.p].Storing? && n in s.producers[step.p].pending)
  }

  predicate Sends(s: State, step: Step, n: int) {
    step == Sent && s.phase == Sending(n)
  }

  /** A notification enters the queue by a commit and leaves it by being sent, and in no other way. */
  lemma StepQueues(s: State, step: Step, n: int)
    requires Possible(s, step)
    ensures Queued(Next(s, step), n) <==> (Queued(s, n) && !Sends(s, step, n)) || Commits(s, step, n)
  {
  }

  /** Restarts, failing reads and failing deliveries included, no committed notification is forgotten. */
  lemma {:induction false} QueuedUntilSent(trace: seq<State>, steps: seq<Step>, i: nat, j: nat, n: int)
    requires Run(trace, steps) && i <= j < |trace| && Queued(trace[i], n)
    ensures Queued(trace[j], n) || exists k :: i <= k < j && Sends(trace[k], steps[k], n)
    decreases j
  {
    hide Next, Possible, Init;
    if i < j {
      QueuedUntilSent(trace, steps, i, j - 1, n);
      assert Possible(trace[j - 1], steps[j - 1]);
      StepQueues(trace[j - 1], steps[j - 1], n);
    }
  }

  /** What is queued has been there from the start or was committed, by a transaction that stored it. */
  lemma {:induction false} QueuedWasCommitted(trace: seq<State>, steps: seq<Step>, j: nat, n: int)
    requires Run(trace, steps) && j < |trace| && Queued(trace[j], n)
    ensures Queued(trace[0], n) || exists k :: 0 <= k < j && Commits(trace[k], steps[k], n)
  {
    hide Next, Possible, Init;
    if j > 0 {
      assert Possible(trace[j - 1], steps[j - 1]);
      StepQueues(trace[j - 1], steps[j - 1], n);
      if Queued(trace[j - 1], n) { QueuedWasCommitted(trace, steps, j - 1, n); }
    }
  }

  // ---------------------------------------------------------------- one token empties the queue

  ghost predicate Leads(s: State, steps: seq<Step>, s': State)
    decreases |steps|
  {
    if steps == [] then s == s' else Possible(s, steps[0]) && Leads(Next(s, steps[0]), steps[1..], s')
  }

  function Delivery(n: int): seq<Step> {
    [Take, Found(n), Reannounce, Sent]
  }

  lemma DeliveryLeads(s: State, n: int, rest: seq<Step>, s': State)
    requires s.phase == Waiting && s.token && Queued(s, n)
    requires Leads(s.(unsent := s.unsent - {n}, silent := s.silent - {n}), rest, s')
    ensures Leads(s, Delivery(n) + rest, s')
  {
    var steps := Delivery(n) + rest;
    assert steps[1..][1..][1..][1..] == rest;
    var s1 := Next(s, Take);
    var s2 := Next(s1, Found(n));
    var s3 := Next(s2, Reannounce);
    assert Next(s3, Sent) == s.(unsent := s.unsent - {n}, silent := s.silent - {n});
    assert Leads(s3, steps[1..][1..][1..], s');
    assert Leads(s2, steps[1..][1..], s');
    assert Leads(s1, steps[1..], s');
  }

  lemma LastLook(s: State)
    requires s.phase == Waiting && s.token && s.unsent == map[] && s.silent == {}
    ensures Leads(s, [Take, Empty], s.(token := false))
  {
    var steps := [Take, Empty];
    assert steps[1..] == [Empty] && steps[1..][1..] == [];
    assert Leads(Next(Next(s, Take), Empty), [], s.(token := false));
    assert Leads(Next(s, Take), steps[1..], s.(token := false));
  }

  lemma SomeOf<T>(from: set<T>) returns (x: T)
    requires from != {}
    ensures x in from
  {
    x :| x in from;
  }

  /**
   From any state with the consumer waiting and a token there, the consumer alone, while nothing fails,
   sends everything there is, silent notifications included, and goes idle.
   */
  lemma {:induction false} TokenDrainsQueue(s: State) returns (steps: seq<Step>)
    requires s.phase == Waiting && s.token
    ensures Leads(s, steps, s.(unsent := map[], silent := {}, token := false))
    ensures forall i | 0 <= i < |steps| :: steps[i] in [Take, Reannounce, Sent, Empty] || steps[i].Found?
    decreases s.unsent.Keys + s.silent
  {
    hide Leads, Next, Possible;
    if s.unsent.Keys + s.silent == {} {
      assert s.unsent == map[] && s.silent == {};
      LastLook(s);
      steps := [Take, Empty];
    } else {
      var n := SomeOf(s.unsent.Keys + s.silent);
      var less := s.(unsent := s.unsent - {n}, silent := s.silent - {n});
      assert less.unsent.Keys + less.silent == s.unsent.Keys + s.silent - {n};
      var rest := TokenDrainsQueue(less);
      assert less.(unsent := map[], silent := {}, token := false) == s.(unsent := map[], silent := {}, token := false);
      DeliveryLeads(s, n, rest, s.(unsent := map[], silent := {}, token := false));
      steps := Delivery(n) + rest;
    }
  }
}
