/**
 The notification queue's wake-up channel (service/notificationconsumer.go): producers announce
 after committing, one consumer takes a token, reads the oldest unsent notification and announces
 again before sending it. The channel holds at most one token.
 */
module Notifications {
  /** Where the consumer is. `HasRead` is between the read and the announcement that follows it. */
  datatype Phase = Starting | Waiting | Taken | HasRead(n: int) | Sending(n: int)

  /** A transaction that stores notifications; once it has committed it owes an announcement. */
  datatype Producer = Storing(pending: set<int>) | Owing

  /**
   `unsent` maps each committed unsent notification to the producer that stored it, `silent` holds
   those of writers that never announce, and `known` remembers every producer there has been.
   */
  datatype State = State(
    token: bool, phase: Phase, unsent: map<int, int>, silent: set<int>,
    producers: map<int, Producer>, known: set<int>)

  datatype Step =
    | Begin(p: int) | Store(p: int, n: int) | Commit(p: int) | CommitUnheard(p: int) | Rollback(p: int)
    | Announce(p: int) | Silent(n: int)
    | Start | Take | Found(n: int) | Empty | ReadFails | Reannounce | SendFails | Sent | Restart

  ghost predicate Fresh(s: State, n: int) {
    n !in s.unsent && n !in s.silent && forall p | p in s.producers && s.producers[p].Storing? ::
        n !in s.producers[p].pending
  }

  ghost predicate Possible(s: State, step: Step) {
    match step
    case Begin(p) => p !in s.known
    case Store(p, n) => p in s.producers && s.producers[p].Storing? && Fresh(s, n)
    case Commit(p) => p in s.producers && s.producers[p].Storing?
    case CommitUnheard(p) => p in s.producers && s.producers[p].Storing?
    case Rollback(p) => p in s.producers && s.producers[p].Storing?
    case Announce(p) => p in s.producers && s.producers[p].Owing?
    case Silent(n) => Fresh(s, n)
    case Start => s.phase == Starting
    case Take => s.phase == Waiting && s.token
    case Found(n) => s.phase == Taken && (n in s.unsent || n in s.silent)
    case Empty => s.phase == Taken && s.unsent == map[] && s.silent == {}
    case ReadFails => s.phase == Taken
    case Reannounce => s.phase.HasRead?
    case SendFails => s.phase.Sending?
    case Sent => s.phase.Sending?
    case Restart => true
  }

  /**
   A failure after the announcement leaves the notification unsent, whatever failed. A restart
   forgets the channel, the transactions under way and the announcements still owed. A commit may take
   effect and report a failure all the same; its producer then returns without announcing anything.
   */
  function Next(s: State, step: Step): State
    requires Possible(s, step)
  {
    match step
    case Begin(p) => s.(producers := s.producers[p := Storing({})], known := s.known + {p})
    case Store(p, n) => s.(producers := s.producers[p := Storing(s.producers[p].pending + {n})])
    case Commit(p) =>
      s.(unsent := s.unsent + (map n | n in s.producers[p].pending :: p), producers := s.producers[p := Owing])
    case CommitUnheard(p) =>
      s.(unsent := s.unsent + (map n | n in s.producers[p].pending :: p), producers := s.producers - {p})
    case Rollback(p) => s.(producers := s.producers - {p})
    case Announce(p) => s.(token := true, producers := s.producers - {p})
    case Silent(n) => s.(silent := s.silent + {n})
    case Start => s.(token := true, phase := Waiting)
    case Take => s.(token := false, phase := Taken)
    case Found(n) => s.(phase := HasRead(n))
    case Empty => s.(phase := Waiting)
    case ReadFails => s.(phase := Waiting)
    case Reannounce => s.(token := true, phase := Sending(s.phase.n))
    case SendFails => s.(phase := Waiting)
    case Sent => s.(unsent := s.unsent - {s.phase.n}, silent := s.silent - {s.phase.n}, phase := Waiting)
    case Restart => s.(token := false, phase := Starting, producers := map[])
  }

  // ---------------------------------------------------------------- no lost wake-up

  ghost predicate Owes(s: State, p: int) {
    p in s.producers && s.producers[p] == Owing
  }

  /**
   Someone is about to look at the queue: there is a token, or the consumer is on its way to a read or an
   announcement.
   */
  predicate Awake(s: State) {
    s.token || s.phase == Starting || s.phase == Taken || s.phase.HasRead?
  }

  /** Every committed unsent notification is about to be noticed, or its producer has yet to announce it. */
  ghost predicate NoLostWakeup(s: State) {
    forall n | n in s.unsent :: Awake(s) || Owes(s, s.unsent[n])
  }

  /** What every state has in common, lost wake-up or not: an open transaction's notifications are its own and new. */
  ghost predicate Inv(s: State) {
    && (s.phase.Sending? ==> s.token)
    && (forall p | p in s.producers :: p in s.known)
    && (forall n | n in s.unsent :: s.unsent[n] in s.known)
    && (forall n | n in s.unsent && s.unsent[n] in s.producers :: s.producers[s.unsent[n]] == Owing)
    && (forall p, n | p in s.producers && s.producers[p].Storing? && n in s.producers[p].pending :: n !in s.unsent)
    && (forall p, q, n | p in s.producers && q in s.producers && s.producers[p].Storing? && s.producers[q].Storing?
                         && n in s.producers[p].pending && n in s.producers[q].pending :: p == q)
  }

  lemma StepKeepsInv(s: State, step: Step)
    requires Inv(s) && Possible(s, step)
    ensures Inv(Next(s, step))
  {
  }

  /** A process starts with whatever was left unsent, no token, and no transaction under way. */
  ghost predicate Init(s: State) {
    !s.token && s.phase == Starting && s.producers == map[] && forall n | n in s.unsent :: s.unsent[n] in s.known
  }

  ghost predicate Run(trace: seq<State>, steps: seq<Step>) {
    && |trace| == |steps| + 1 && Init(trace[0])
    && forall i | 0 <= i < |steps| :: Possible(trace[i], steps[i]) && trace[i + 1] == Next(trace[i], steps[i])
  }

  lemma {:induction false} RunKeepsInv(trace: seq<State>, steps: seq<Step>, i: nat)
    requires Run(trace, steps) && i < |trace|
    ensures Inv(trace[i])
  {
    if i > 0 {
      hide Inv, Next, Possible;
      RunKeepsInv(trace, steps, i - 1);
      StepKeepsInv(trace[i - 1], steps[i - 1]);
    }
  }

  /**
   A read that fails, with no new token and with something unsent that was announced already; or a
   commit that reports a failure although it stored notifications, with the consumer not awake.
   */
  ghost predicate Loses(s: State, step: Step) {
    || (step.ReadFails? && !s.token && exists n | n in s.unsent :: !Owes(s, s.unsent[n]))
    || (step.CommitUnheard? && !Awake(s) && step.p in s.producers && s.producers[step.p].Storing?
        && exists n :: n in s.producers[step.p].pending)
  }

  predicate Mends(step: Step) {
    step.Announce? || step.Restart?
  }

  /** A wake-up is lost by such a read or commit only, and comes back only by an announcement or a restart. */
  lemma StepLosesWakeup(s: State, step: Step)
    requires Inv(s) && Possible(s, step)
    ensures NoLostWakeup(Next(s, step)) <==> (NoLostWakeup(s) || Mends(step)) && !Loses(s, step)
  {
    var s' := Next(s, step);
    if NoLostWakeup(s) && !Loses(s, step) {
      forall n | n in s'.unsent ensures Awake(s') || Owes(s', s'.unsent[n]) {
        assert n in s.unsent ==> Awake(s) || Owes(s, s.unsent[n]);
      }
    } else if step.CommitUnheard? && Loses(s, step) {
      UnheardIsLost(s, step.p);
    } else if !Mends(step) {
      StaysLost(s, step);
    }
  }

  lemma UnheardIsLost(s: State, p: int)
    requires Inv(s) && Possible(s, CommitUnheard(p)) && Loses(s, CommitUnheard(p))
    ensures !NoLostWakeup(Next(s, CommitUnheard(p)))
  {
    var n :| n in s.producers[p].pending;
    assert n in Next(s, CommitUnheard(p)).unsent;
  }

  lemma StaysLost(s: State, step: Step)
    requires Inv(s) && Possible(s, step) && !Mends(step) && (!NoLostWakeup(s) || (step.ReadFails? && Loses(s, step)))
    ensures !NoLostWakeup(Next(s, step))
  {
    var s' := Next(s, step);
    var n :| n in s.unsent && !Owes(s, s.unsent[n]);
    assert n in s'.unsent && s'.unsent[n] == s.unsent[n] && !Awake(s') && !Owes(s', s.unsent[n]);
  }

  /** A wake-up has been lost before moment `i`, and no announcement or restart has come since. */
  ghost predicate LostSince(trace: seq<State>, steps: seq<Step>, i: nat)
    requires i <= |steps| && i < |trace|
  {
    exists k | 0 <= k < i :: Loses(trace[k], steps[k]) && Unmended(steps, k + 1, i)
  }

  ghost predicate Unmended(steps: seq<Step>, k: nat, i: nat)
    requires i <= |steps|
  {
    forall m | k <= m < i :: !Mends(steps[m])
  }

  lemma LostOneMore(trace: seq<State>, steps: seq<Step>, i: nat)
    requires 0 < i <= |steps| && i < |trace|
    ensures LostSince(trace, steps, i)
       <==> Loses(trace[i - 1], steps[i - 1]) || (LostSince(trace, steps, i - 1) && !Mends(steps[i - 1]))
  {
    hide Loses, Mends;
    if Loses(trace[i - 1], steps[i - 1]) {
      assert Unmended(steps, i - 1 + 1, i);
    }
    if LostSince(trace, steps, i - 1) && !Mends(steps[i - 1]) {
      var k :| 0 <= k < i - 1 && Loses(trace[k], steps[k]) && Unmended(steps, k + 1, i - 1);
      assert Unmended(steps, k + 1, i);
    }
    if k :| 0 <= k < i - 1 && Loses(trace[k], steps[k]) && Unmended(steps, k + 1, i) {
      assert Unmended(steps, k + 1, i - 1) && !Mends(steps[i - 1]);
    }
  }

  /**
   At any moment of any run, with failing reads, unheard commits and restarts, every committed unsent
   notification is about to be noticed or announced, unless a wake-up was lost in one of the two ways
   and nothing has been announced or restarted since.
   */
  lemma {:induction false} WakeupLostExactly(trace: seq<State>, steps: seq<Step>, i: nat)
    requires Run(trace, steps) && i < |trace|
    ensures NoLostWakeup(trace[i]) <==> !LostSince(trace, steps, i)
  {
    if i > 0 {
      hide Inv, Next, Possible, NoLostWakeup, Loses, Mends, LostSince;
      WakeupLostExactly(trace, steps, i - 1);
      RunKeepsInv(trace, steps, i - 1);
      StepLosesWakeup(trace[i - 1], steps[i - 1]);
      LostOneMore(trace, steps, i);
      OnlyOneOf(trace[i - 1], steps[i - 1]);
    }
  }

  lemma OnlyOneOf(s: State, step: Step)
    ensures !(Loses(s, step) && Mends(step))
  {
  }

  /**
   As long as reads of the queue succeed and commits report what they did, no wake-up is lost, whatever
   else fails.
   */
  lemma WakeupsAreNotLost(trace: seq<State>, steps: seq<Step>, i: nat)
    requires Run(trace, steps) && i < |trace| && forall k | 0 <= k < i ::
              !steps[k].ReadFails? && !steps[k].CommitUnheard?
    ensures NoLostWakeup(trace[i])
  {
    WakeupLostExactly(trace, steps, i);
  }

  /**
   When the consumer waits without a token, every notification left has an announcement still to come,
   unless one was lost.
   */
  lemma IdleMeansDrained(trace: seq<State>, steps: seq<Step>, i: nat)
    requires Run(trace, steps) && i < |trace| && trace[i].phase == Waiting && !trace[i].token
    ensures (forall n | n in trace[i].unsent :: Owes(trace[i], trace[i].unsent[n])) <==> !LostSince(trace, steps, i)
  {
    hide LostSince, Next, Possible;
    WakeupLostExactly(trace, steps, i);
  }

  // ---------------------------------------------------------------- a wake-up that is lost

  const LOSING_STEPS: seq<Step> := [Start, Begin(1), Store(1, 10), Commit(1), Announce(1), Take, ReadFails]

  const LOSING_TRACE: seq<State> := [
    State(false, Starting, map[], {}, map[], {}),
    State(true, Waiting, map[], {}, map[], {}),
    State(true, Waiting, map[], {}, map[1 := Storing({})], {1}),
    State(true, Waiting, map[], {}, map[1 := Storing({10})], {1}),
    State(true, Waiting, map[10 := 1], {}, map[1 := Owing], {1}),
    State(true, Waiting, map[10 := 1], {}, map[], {1}),
    State(false, Taken, map[10 := 1], {}, map[], {1}),
    State(false, Waiting, map[10 := 1], {}, map[], {1})]

  ghost predicate Follows(s: State, step: Step, s': State) {
    Possible(s, step) && s' == Next(s, step)
  }

  lemma LosingStoring()
    ensures Follows(LOSING_TRACE[0], Start, LOSING_TRACE[1])
    ensures Follows(LOSING_TRACE[1], Begin(1), LOSING_TRACE[2])
    ensures Follows(LOSING_TRACE[2], Store(1, 10), LOSING_TRACE[3])
  {
    assert LOSING_TRACE[1].known + {1} == {1};
    assert LOSING_TRACE[2].producers[1].pending + {10} == {10};
    assert LOSING_TRACE[2].producers[1 := Storing({10})] == LOSING_TRACE[3].producers;
  }

  lemma LosingCommit()
    ensures Follows(LOSING_TRACE[3], Commit(1), LOSING_TRACE[4])
    ensures Follows(LOSING_TRACE[4], Announce(1), LOSING_TRACE[5])
  {
    var s', s4 := Next(LOSING_TRACE[3], Commit(1)), LOSING_TRACE[4];
    assert s'.unsent == s4.unsent && s'.producers == s4.producers;
    assert s4.producers - {1} == LOSING_TRACE[5].producers;
  }

  lemma LosingRead()
    ensures Follows(LOSING_TRACE[5], Take, LOSING_TRACE[6])
    ensures Follows(LOSING_TRACE[6], ReadFails, LOSING_TRACE[7])
    ensures !NoLostWakeup(LOSING_TRACE[7])
  {
    assert 10 in LOSING_TRACE[7].unsent;
  }

  /** A notification is stored, committed and announced, the token is taken, the read fails: it stays unsent. */
  lemma LostWakeup()
    ensures Run(LOSING_TRACE, LOSING_STEPS) && LostSince(LOSING_TRACE, LOSING_STEPS, 7)
    ensures !NoLostWakeup(LOSING_TRACE[7]) && !LOSING_TRACE[7].token && LOSING_TRACE[7].phase == Waiting
  {
    LosingStoring();
    LosingCommit();
    LosingRead();
    hide Next, Possible, NoLostWakeup, LostSince;
    assert forall i | 0 <= i < 7 :: Follows(LOSING_TRACE[i], LOSING_STEPS[i], LOSING_TRACE[i + 1]);
    WakeupLostExactly(LOSING_TRACE, LOSING_STEPS, 7);
  }

  const UNHEARD_STEPS: seq<Step> := [Start, Take, Empty, Begin(1), Store(1, 10), CommitUnheard(1)]

  const UNHEARD_TRACE: seq<State> := [
    State(false, Starting, map[], {}, map[], {}),
    State(true, Waiting, map[], {}, map[], {}),
    State(false, Taken, map[], {}, map[], {}),
    State(false, Waiting, map[], {}, map[], {}),
    State(false, Waiting, map[], {}, map[1 := Storing({})], {1}),
    State(false, Waiting, map[], {}, map[1 := Storing({10})], {1}),
    State(false, Waiting, map[10 := 1], {}, map[], {1})]

  lemma UnheardStoring()
    ensures Follows(UNHEARD_TRACE[0], Start, UNHEARD_TRACE[1])
    ensures Follows(UNHEARD_TRACE[1], Take, UNHEARD_TRACE[2])
    ensures Follows(UNHEARD_TRACE[2], Empty, UNHEARD_TRACE[3])
    ensures Follows(UNHEARD_TRACE[3], Begin(1), UNHEARD_TRACE[4])
    ensures Follows(UNHEARD_TRACE[4], Store(1, 10), UNHEARD_TRACE[5])
  {
    assert UNHEARD_TRACE[3].known + {1} == {1};
    assert UNHEARD_TRACE[4].producers[1].pending + {10} == {10};
    assert UNHEARD_TRACE[4].producers[1 := Storing({10})] == UNHEARD_TRACE[5].producers;
  }

  lemma UnheardCommits()
    ensures Follows(UNHEARD_TRACE[5], CommitUnheard(1), UNHEARD_TRACE[6]) && !NoLostWakeup(UNHEARD_TRACE[6])
  {
    var s', s6 := Next(UNHEARD_TRACE[5], CommitUnheard(1)), UNHEARD_TRACE[6];
    assert s'.unsent == s6.unsent && s'.producers == s6.producers;
    assert 10 in s6.unsent;
  }

  /** The consumer is idle, a commit stores a notification and reports a failure: it stays unsent. */
  lemma UnheardCommit()
    ensures Run(UNHEARD_TRACE, UNHEARD_STEPS) && LostSince(UNHEARD_TRACE, UNHEARD_STEPS, 6)
    ensures !NoLostWakeup(UNHEARD_TRACE[6]) && !UNHEARD_TRACE[6].token && UNHEARD_TRACE[6].phase == Waiting
  {
    UnheardStoring();
    UnheardCommits();
    hide Next, Possible, NoLostWakeup, LostSince;
    assert forall i | 0 <= i < 6 :: Follows(UNHEARD_TRACE[i], UNHEARD_STEPS[i], UNHEARD_TRACE[i + 1]);
    WakeupLostExactly(UNHEARD_TRACE, UNHEARD_STEPS, 6);
  }

  // ---------------------------------------------------------------- the consumer's loop

  /** Notifications in the order they were created. */
  class Queue {
    var token: bool
    var unsent: seq<int>
    var sent: seq<int>

    constructor (unsent: seq<int>)
      ensures this.unsent == unsent && sent == [] && !token
    {
      this.unsent, sent, token := unsent, [], false;
    }

    /** Never blocks: a token that is already there stands for this announcement too. */
    method AnnounceNotification()
      modifies `token
      ensures token
    {
      if !token {
        token := true;
      }
    }

    /** One token's worth of work; `delivered` is whether sending, marking and committing all succeed. */
    method Consume(delivered: bool)
      requires token
      modifies this
      ensures token == (old(unsent) != [])
      ensures if old(unsent) != [] && delivered
              then unsent == old(unsent)[1..] && sent == old(sent) + [old(unsent)[0]]
              else unsent == old(unsent) && sent == old(sent)
    {
      token := false;
      if unsent == [] { return; }
      var notification := unsent[0];
      AnnounceNotification();
      if !delivered { return; }
      unsent := unsent[1..];
      sent := sent + [notification];
    }

    /**
     One announcement is enough for any number of notifications: the consumer keeps itself awake, and sends
     oldest first.
     */
    method ConsumeUntilIdle()
      modifies this
      ensures !token
      ensures old(token) ==> unsent == [] && sent == old(sent) + old(unsent)
      ensures !old(token) ==> unsent == old(unsent) && sent == old(sent)
    {
      ghost var n := 0;
      while token
        invariant n <= |old(unsent)| && unsent == old(unsent)[n..] && sent == old(sent) + old(unsent)[..n]
        invariant old(token) && !token ==> unsent == []
        invariant !old(token) ==> !token && n == 0
        decreases |unsent|, token
      {
        if unsent != [] {
          n := n + 1;
        }
        Consume(true);
      }
    }
  }
}
