/**
 Runs of the agent journal that show what it does not promise: a holder that
 retries a lost commit as another record, one that retries the same commit after
 a look at the tail has moved it past that commit, a republication that drops the
 wait of a continue, and a withdrawn delivery that is acknowledged without an event.
 */
module JournalCases {
  import opened Dag
  import opened AgentJournal

  const FIRST := Task(0, 1, "n", 1, 1)
  const SECOND := Task(0, 1, "n", 2, 1)
  const WON := Commit(Complete, "ok", "", "", "", 0, None)
  const LOST := Commit(Fail, "", "", "no", "retriable", 0, None)
  const WAITS := Commit(Continue, "ok", "", "", "", 0, Some("w"))
  const NOTE := Noting("k", "d")

  const CLAIMED := [Record(FIRST, 0, Claiming)]

  function Written(c: Commit): seq<Record> {
    [Record(FIRST, 0, Claiming), Record(FIRST, 1, Committing(c))]
  }

  function Held(log: seq<Record>, h: Handle, events: seq<Event>): Journal {
    Journal(log, map[0 := h], {FIRST}, events, map[])
  }

  function At(n: nat, phase: Phase): Handle {
    Handle(FIRST, n, n, false, false, None, 0, phase)
  }

  function Finished(n: nat, c: Commit, phase: Phase): Handle {
    Handle(FIRST, n, n, false, true, Some(c), n, phase)
  }

  ghost predicate Steps(s: Journal, a: Action, s': Journal, steady: bool) {
    Enabled(s, a) && (steady ==> Heeds(s, a)) && Do(s, a) == s'
  }

  lemma {:induction false} RunsOn(s: Journal, actions: seq<Action>, mid: Journal, a: Action, s': Journal, steady: bool)
    requires Runs(s, actions, mid, steady) && Steps(mid, a, s', steady)
    ensures Runs(s, actions + [a], s', steady)
    decreases |actions|
  {
    hide Do, Enabled, Heeds;
    if actions == [] {
      assert (actions + [a])[1..] == [];
    } else {
      RunsOn(Do(s, actions[0]), actions[1..], mid, a, s', steady);
      assert (actions + [a])[1..] == actions[1..] + [a];
    }
  }

  /** The run reaches s, and one more step takes it to s'. */
  lemma Reaches(actions: seq<Action>, s: Journal, a: Action, s': Journal, steady: bool) returns (more: seq<Action>)
    requires Runs(EMPTY, actions, s, steady) && Steps(s, a, s', steady)
    ensures Runs(EMPTY, more, s', steady)
  {
    hide Do, Enabled, Runs, Steps;
    RunsOn(EMPTY, actions, s, a, s', steady);
    more := actions + [a];
  }

  // ---------------------------------------------------------------- the steps

  lemma OpensAndClaims(steady: bool)
    ensures Steps(EMPTY, Open(0, FIRST), Held([], At(0, Publishing(Claiming, 0)), []), steady)
    ensures Steps(Held([], At(0, Publishing(Claiming, 0)), []), Attempt(0, None, false),
                  Held(CLAIMED, At(1, Idle), []), steady)
  {
  }

  lemma BeginsCommit(c: Commit, steady: bool)
    ensures Steps(Held(CLAIMED, At(1, Idle), []), Begin(0, Committing(c)),
                  Held(CLAIMED, At(1, Publishing(Committing(c), 1)), []), steady)
  {
  }

  lemma CommitsUnheard()
    ensures Steps(Held(CLAIMED, At(1, Publishing(Committing(WON), 1)), []), Attempt(0, None, true),
                  Held(Written(WON), At(1, Idle), []), false)
  {
    assert CLAIMED + [Record(FIRST, 1, Committing(WON))] == Written(WON);
  }

  lemma RetriesOtherwise(body: Body)
    requires !body.Claiming?
    ensures Steps(Held(Written(WON), At(1, Idle), []), Begin(0, body),
                  Held(Written(WON), At(1, Publishing(body, 1)), []), false)
  {
  }

  lemma AnsweredWithTheCommit()
    ensures Steps(Held(Written(WON), At(1, Publishing(Committing(LOST), 1)), []),
                  Attempt(0, Some(1), false), Held(Written(WON), Finished(2, LOST, Announcing), []), false)
    ensures Steps(Held(Written(WON), At(1, Publishing(NOTE, 1)), []),
                  Attempt(0, Some(1), false), Held(Written(WON), At(2, Idle), []), false)
  {
  }

  lemma AnnouncesOther()
    ensures Steps(Held(Written(WON), Finished(2, LOST, Announcing), []), Announce(0, true),
                  Held(Written(WON), Finished(2, LOST, Settling), [Event(0, false, NewsOf(FIRST, 2, LOST, false))]),
                    false)
  {
  }

  lemma CommitsAgain()
    ensures Steps(Held(Written(WON), At(2, Idle), []), Begin(0, Committing(LOST)),
                  Held(Written(WON), At(2, Publishing(Committing(LOST), 2)), []), false)
    ensures Steps(Held(Written(WON), At(2, Publishing(Committing(LOST), 2)), []), Attempt(0, None, false),
                  Held(Written(WON) + [Record(FIRST, 2, Committing(LOST))], Finished(3, LOST, Announcing), []), false)
  {
  }

  /** The claim is written. */
  lemma Claims(steady: bool) returns (actions: seq<Action>)
    ensures Runs(EMPTY, actions, Held(CLAIMED, At(1, Idle), []), steady)
  {
    hide Do, Enabled, Steps;
    OpensAndClaims(steady);
    assert Runs(EMPTY, [], EMPTY, steady);
    var s := Held([], At(0, Publishing(Claiming, 0)), []);
    actions := Reaches([], EMPTY, Open(0, FIRST), s, steady);
    actions := Reaches(actions, s, Attempt(0, None, false), Held(CLAIMED, At(1, Idle), []), steady);
  }

  /** The commit is written, and its acknowledgement lost. */
  lemma LosesTheAnswer() returns (actions: seq<Action>)
    ensures Runs(EMPTY, actions, Held(Written(WON), At(1, Idle), []), false)
  {
    hide Do, Enabled, Steps, Runs;
    actions := Claims(false);
    BeginsCommit(WON, false);
    CommitsUnheard();
    var s := Held(CLAIMED, At(1, Publishing(Committing(WON), 1)), []);
    actions := Reaches(actions, Held(CLAIMED, At(1, Idle), []), Begin(0, Committing(WON)), s, false);
    actions := Reaches(actions, s, Attempt(0, None, true), Held(Written(WON), At(1, Idle), []),
      false);
  }

  // ---------------------------------------------------------------- retrying with another record

  /**
   A holder that retries with another outcome after a lost acknowledgement
   announces what the journal does not hold.
   */
  lemma OtherRetryAnnouncesOther() returns (actions: seq<Action>, s: Journal)
    ensures Runs(EMPTY, actions, s, false) && |s.events| == 1 && |s.log| == 2 && s.events[0].news.seqNo == 2
    ensures s.events[0].news.action.Fail? && s.log[1].body == Committing(WON) && WON.action.Complete?
  {
    hide Do, Enabled, Steps, Runs;
    actions := LosesTheAnswer();
    RetriesOtherwise(Committing(LOST));
    AnsweredWithTheCommit();
    AnnouncesOther();
    var s0 := Held(Written(WON), At(1, Idle), []);
    var s1 := Held(Written(WON), At(1, Publishing(Committing(LOST), 1)), []);
    var s2 := Held(Written(WON), Finished(2, LOST, Announcing), []);
    actions := Reaches(actions, s0, Begin(0, Committing(LOST)), s1, false);
    actions := Reaches(actions, s1, Attempt(0, Some(1), false), s2, false);
    s := Held(Written(WON), Finished(2, LOST, Settling), [Event(0, false, NewsOf(FIRST, 2, LOST, false))]);
    actions := Reaches(actions, s2, Announce(0, true), s, false);
  }

  /** One that retries with a note is past its own commit, and can commit a second time. */
  lemma OtherRetryCommitsTwice() returns (actions: seq<Action>, s: Journal)
    ensures Runs(EMPTY, actions, s, false) && |s.log| == 3 && s.log[1].task == s.log[2].task
    ensures s.log[1].body == Committing(WON) && s.log[2].body == Committing(LOST)
  {
    hide Do, Enabled, Steps, Runs;
    actions := LosesTheAnswer();
    RetriesOtherwise(NOTE);
    AnsweredWithTheCommit();
    CommitsAgain();
    var s0 := Held(Written(WON), At(1, Idle), []);
    var s1 := Held(Written(WON), At(1, Publishing(NOTE, 1)), []);
    var s2 := Held(Written(WON), At(2, Idle), []);
    var s3 := Held(Written(WON), At(2, Publishing(Committing(LOST), 2)), []);
    actions := Reaches(actions, s0, Begin(0, NOTE), s1, false);
    actions := Reaches(actions, s1, Attempt(0, Some(1), false), s2, false);
    actions := Reaches(actions, s2, Begin(0, Committing(LOST)), s3, false);
    s := Held(Written(WON) + [Record(FIRST, 2, Committing(LOST))], Finished(3, LOST, Announcing), []);
    actions := Reaches(actions, s3, Attempt(0, None, false), s, false);
  }

  // ---------------------------------------------------------------- retrying the same commit

  /** The holder whose tail is its own commit, not yet past that commit's index. */
  function Past(phase: Phase): Handle {
    Handle(FIRST, 2, 1, false, false, None, 0, phase)
  }

  /** The holder that has stored its commit a second time. */
  function Again(phase: Phase): Handle {
    Handle(FIRST, 3, 2, false, true, Some(WON), 3, phase)
  }

  /** The two deliveries of the dispatch, the second of which found the commit. */
  function Both(log: seq<Record>, h: Handle, phase: Phase, events: seq<Event>): Journal {
    Journal(log, map[0 := h, 1 := Handle(SECOND, 2, 0, false, true, Some(WON), 2, phase)], {FIRST, SECOND}, events,
            map[])
  }

  const TWICE := Written(WON) + [Record(FIRST, 1, Committing(WON))]
  const REPEATED := Event(1, true, NewsOf(SECOND, 2, WON, true))
  const ANSWERED := Event(0, false, NewsOf(FIRST, 3, WON, false))

  lemma LooksAtTheTail()
    ensures Steps(Held(Written(WON), At(1, Idle), []), Resync(0), Held(Written(WON), Past(Idle), []), false)
  {
  }

  lemma RedeliveryRepublishes()
    ensures Steps(Held(Written(WON), Past(Idle), []), Open(1, SECOND), Both(Written(WON), Past(Idle), Idle, []), false)
    ensures Steps(Both(Written(WON), Past(Idle), Idle, []), Republish(1, true),
                  Both(Written(WON), Past(Idle), Settling, [REPEATED]), false)
  {
    assert FindCommit(Written(WON), SECOND) == Some(1);
    assert [] + [REPEATED] == [REPEATED];
  }

  lemma CommitsTheSame()
    ensures Steps(Both(Written(WON), Past(Idle), Settling, [REPEATED]), Begin(0, Committing(WON)),
                  Both(Written(WON), Past(Publishing(Committing(WON), 2)), Settling, [REPEATED]), false)
    ensures Steps(Both(Written(WON), Past(Publishing(Committing(WON), 2)), Settling, [REPEATED]),
                  Attempt(0, None, false),
                  Both(TWICE, Again(Announcing), Settling, [REPEATED]), false)
  {
  }

  lemma AnnouncesTheSame()
    ensures Steps(Both(TWICE, Again(Announcing), Settling, [REPEATED]),
                  Announce(0, true),
                  Both(TWICE, Again(Settling), Settling, [REPEATED, ANSWERED]), false)
  {
    assert [REPEATED] + [ANSWERED] == [REPEATED, ANSWERED];
  }

  /**
   A holder whose commit was stored unheard reads the journal and retries that
   very commit once the server has forgotten its message id. The record is stored
   twice, and the dispatch is answered under two sequence numbers.
   */
  lemma SameRetryCommitsTwice() returns (actions: seq<Action>, s: Journal)
    ensures Runs(EMPTY, actions, s, false) && |s.log| == 3 && |s.events| == 2
    ensures s.log[1] == s.log[2] == Record(FIRST, 1, Committing(WON))
    ensures s.events[0].news.seqNo == 2 && s.events[1].news == s.events[0].news.(seqNo := 3)
  {
    hide Do, Enabled, Steps, Runs;
    actions := LosesTheAnswer();
    LooksAtTheTail();
    RedeliveryRepublishes();
    CommitsTheSame();
    AnnouncesTheSame();
    var s0 := Held(Written(WON), At(1, Idle), []);
    var s1 := Held(Written(WON), Past(Idle), []);
    var s2 := Both(Written(WON), Past(Idle), Idle, []);
    var s3 := Both(Written(WON), Past(Idle), Settling, [REPEATED]);
    var s4 := Both(Written(WON), Past(Publishing(Committing(WON), 2)), Settling, [REPEATED]);
    var s5 := Both(TWICE, Again(Announcing), Settling, [REPEATED]);
    actions := Reaches(actions, s0, Resync(0), s1, false);
    actions := Reaches(actions, s1, Open(1, SECOND), s2, false);
    actions := Reaches(actions, s2, Republish(1, true), s3, false);
    actions := Reaches(actions, s3, Begin(0, Committing(WON)), s4, false);
    actions := Reaches(actions, s4, Attempt(0, None, false), s5, false);
    s := Both(TWICE, Again(Settling), Settling, [REPEATED, ANSWERED]);
    actions := Reaches(actions, s5, Announce(0, true), s, false);
  }

  // ---------------------------------------------------------------- an acknowledgement without an event

  lemma Withdraws()
    ensures Steps(Held(Written(WON), At(1, Idle), []), Withdraw(0, true),
                  Held(Written(WON), At(1, Gone), []).(acked := map[0 := Cancelled]), false)
  {
  }

  /** A delivery that has committed is withdrawn: it is acknowledged, and nothing is published. */
  lemma WithdrawnWithoutEvent() returns (actions: seq<Action>, s: Journal)
    ensures Runs(EMPTY, actions, s, false) && 0 in s.acked && s.events == []
    ensures |s.log| == 2 && s.log[1] == Record(FIRST, 1, Committing(WON))
  {
    hide Do, Enabled, Steps, Runs;
    actions := LosesTheAnswer();
    Withdraws();
    s := Held(Written(WON), At(1, Gone), []).(acked := map[0 := Cancelled]);
    actions := Reaches(actions, Held(Written(WON), At(1, Idle), []), Withdraw(0, true), s, false);
  }

  // ---------------------------------------------------------------- a wait that is dropped

  const ANNOUNCED := Event(0, false, NewsOf(FIRST, 2, WAITS, false))
  const REPUBLISHED := Event(1, true, NewsOf(SECOND, 2, WAITS, true))

  lemma CommitsHeard()
    ensures Steps(Held(CLAIMED, At(1, Publishing(Committing(WAITS), 1)), []), Attempt(0, None, false),
                  Held(Written(WAITS), Finished(2, WAITS, Announcing), []), true)
    ensures Steps(Held(Written(WAITS), Finished(2, WAITS, Announcing), []), Announce(0, true),
                  Held(Written(WAITS), Finished(2, WAITS, Settling), [ANNOUNCED]), true)
    ensures Steps(Held(Written(WAITS), Finished(2, WAITS, Settling), [ANNOUNCED]), Crash(0),
                  Held(Written(WAITS), Finished(2, WAITS, Gone), [ANNOUNCED]), true)
  {
    assert CLAIMED + [Record(FIRST, 1, Committing(WAITS))] == Written(WAITS);
  }

  function Redelivered(phase: Phase, events: seq<Event>): Journal {
    Journal(Written(WAITS),
            map[0 := Finished(2, WAITS, Gone), 1 := Handle(SECOND, 2, 0, false, true, Some(WAITS), 2, phase)],
            {FIRST, SECOND}, events, map[])
  }

  lemma OpensAgain()
    ensures Steps(Held(Written(WAITS), Finished(2, WAITS, Gone), [ANNOUNCED]), Open(1, SECOND),
                  Redelivered(Idle, [ANNOUNCED]), true)
    ensures Steps(Redelivered(Idle, [ANNOUNCED]), Republish(1, true), Redelivered(Settling, [ANNOUNCED, REPUBLISHED]),
        true)
  {
    assert FindCommit(Written(WAITS), SECOND) == Some(1);
    assert [ANNOUNCED] + [REPUBLISHED] == [ANNOUNCED, REPUBLISHED];
  }

  /**
   A holder announces a continue that waits and crashes before its ack. The
   redelivery republishes the same commit, for the same dispatch, without the wait.
   */
  lemma RepublicationDropsTheWait() returns (actions: seq<Action>, s: Journal)
    ensures Runs(EMPTY, actions, s, true) && |s.events| == 2
    ensures Told(s.log, s.events[0]) == Told(s.log, s.events[1]) == Some(WAITS)
    ensures s.events[0].news.wait == Some("w") && s.events[1].news == s.events[0].news.(wait := None)
  {
    hide Do, Enabled, Steps, Runs;
    actions := Claims(true);
    BeginsCommit(WAITS, true);
    CommitsHeard();
    OpensAgain();
    var s1 := Held(CLAIMED, At(1, Publishing(Committing(WAITS), 1)), []);
    var s2 := Held(Written(WAITS), Finished(2, WAITS, Announcing), []);
    var s3 := Held(Written(WAITS), Finished(2, WAITS, Settling), [ANNOUNCED]);
    var s4 := Held(Written(WAITS), Finished(2, WAITS, Gone), [ANNOUNCED]);
    actions := Reaches(actions, Held(CLAIMED, At(1, Idle), []), Begin(0, Committing(WAITS)), s1, true);
    actions := Reaches(actions, s1, Attempt(0, None, false), s2, true);
    actions := Reaches(actions, s2, Announce(0, true), s3, true);
    actions := Reaches(actions, s3, Crash(0), s4, true);
    actions := Reaches(actions, s4, Open(1, SECOND), Redelivered(Idle, [ANNOUNCED]), true);
    s := Redelivered(Settling, [ANNOUNCED, REPUBLISHED]);
    actions := Reaches(actions, Redelivered(Idle, [ANNOUNCED]), Republish(1, true), s, true);
  }
}
