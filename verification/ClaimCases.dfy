/**
 Two runs of the claim protocol that show what it does not promise: an ack made
 without the claim's mutex beside a release's Nak, and a task handed out after
 its Nak.
 */
module ClaimCases {
  import opened Graphs
  import opened Dag
  import opened AckMaps
  import opened ClaimProtocol
  import LogIngest

  const CLAIM := Entry(0, 0, 0, "", Some(0), LogIngest.FRESH, false)
  const REF := ClaimRef("t", 0, 0)
  const POLLING := Stored("t", 0, 0)
  const ACKED_FREE := FreeSettling("t", 0)

  /** The poll, the close, and maybe a resolve that acked without the mutex and has yet to forget the claim. */
  function Handlers(free: bool, p0: Pc, p1: Pc): map<nat, Pc> {
    if free then map[0 := p0, 1 := p1, 2 := ACKED_FREE] else map[0 := p0, 1 := p1]
  }

  /** One claim of task t under connection 0, which is closing: the poll at p0, the close at p1. */
  function Scene(there: bool, locked: bool, p0: Pc, p1: Pc, free: bool, log: seq<Effect>): Bridge {
    Bridge(if there then map["t" := CLAIM] else map[], map[0 := Origin("t", 0, Some(0))],
           if locked then map[0 := 1] else map[], Handlers(free, p0, p1), {0},
           if p1.Flagging? then {} else {0}, {0}, log)
  }

  /** The claim is stored and the poll stands at its first check. */
  function Polled(procs: map<nat, Pc>, log: seq<Effect>): Bridge {
    Bridge(map["t" := CLAIM], map[0 := Origin("t", 0, Some(0))], map[], procs, {}, {}, {}, log)
  }

  /** What the close finds. */
  function Found(free: bool, log: seq<Effect>): Bridge {
    Polled(if free then map[0 := POLLING, 2 := ACKED_FREE] else map[0 := POLLING], log)
  }

  ghost predicate Steps(s: Bridge, a: Action, s': Bridge) {
    Enabled(s, a) && Do(s, a) == s'
  }

  lemma {:induction false} RunsOn(s: Bridge, actions: seq<Action>, mid: Bridge, a: Action, s': Bridge)
    requires Runs(s, actions, mid) && Steps(mid, a, s')
    ensures Runs(s, actions + [a], s')
    decreases |actions|
  {
    hide Do, Enabled;
    if actions == [] {
      assert (actions + [a])[1..] == [];
    } else {
      RunsOn(Do(s, actions[0]), actions[1..], mid, a, s');
      assert (actions + [a])[1..] == actions[1..] + [a];
    }
  }

  /** The run reaches s, and one more step takes it to s'. */
  lemma Reaches(actions: seq<Action>, s: Bridge, a: Action, s': Bridge) returns (more: seq<Action>)
    requires Runs(INITIAL, actions, s) && Steps(s, a, s')
    ensures Runs(INITIAL, more, s')
  {
    hide Do, Enabled, Runs, Steps;
    RunsOn(INITIAL, actions, s, a, s');
    more := actions + [a];
  }

  // ---------------------------------------------------------------- the steps

  lemma PollsFirst()
    ensures Steps(INITIAL, Poll(0, "t", CLAIM, {}), Found(false, []))
  {
  }

  lemma LoadsWithoutMutex()
    ensures Steps(Found(false, []), FreeLoad(2, "t"), Polled(map[0 := POLLING, 2 := FreeLoaded("t", 0)], []))
  {
  }

  lemma ChecksWithoutMutex()
    ensures Steps(Polled(map[0 := POLLING, 2 := FreeLoaded("t", 0)], []), FreeCheck(2),
                  Polled(map[0 := POLLING, 2 := FreeChecked("t", 0)], []))
  {
  }

  lemma AcksWithoutMutex()
    ensures Steps(Polled(map[0 := POLLING, 2 := FreeChecked("t", 0)], []), FreeAck(2, true),
        Found(true, [FreeAcked(2, 0)]))
  {
  }

  lemma Closes(free: bool, log: seq<Effect>)
    ensures Steps(Found(free, log), Close(1, 0, true), Scene(true, false, POLLING, Flagging(0, true), free, log))
  {
  }

  lemma Marks(free: bool, log: seq<Effect>)
    ensures Steps(Scene(true, false, POLLING, Flagging(0, true), free, log), MarkClosed(1),
                  Scene(true, false, POLLING, Collecting(0), free, log))
  {
  }

  lemma Collects(free: bool, log: seq<Effect>)
    ensures Steps(Scene(true, false, POLLING, Collecting(0), free, log), Collect(1, [REF]),
                  Scene(true, false, POLLING, Going(0, [REF], None), free, log))
  {
    var s := Scene(true, false, POLLING, Collecting(0), free, log);
    forall r ensures r in [REF] <==> IsClaim(s.entries, 0, r) {}
  }

  lemma Picks(free: bool, log: seq<Effect>)
    ensures Steps(Scene(true, false, POLLING, Going(0, [REF], None), free, log), NextRef(1),
                  Scene(true, false, POLLING, Waiting(0, REF, [], None), free, log))
  {
    assert [REF][1..] == [];
  }

  lemma Locks(free: bool, log: seq<Effect>)
    ensures Steps(Scene(true, false, POLLING, Waiting(0, REF, [], None), free, log), Lock(1),
                  Scene(true, true, POLLING, Holding(0, REF, [], None), free, log))
  {
  }

  lemma TakesOut(free: bool, log: seq<Effect>)
    ensures Steps(Scene(true, true, POLLING, Holding(0, REF, [], None), free, log), Take(1),
                  Scene(false, true, POLLING, Taken(0, REF, [], None), free, log))
  {
    assert map["t" := CLAIM] - {"t"} == map[];
  }

  lemma Naks(free: bool, log: seq<Effect>)
    ensures Steps(Scene(false, true, POLLING, Taken(0, REF, [], None), free, log), Nak(1, true),
                  Scene(false, true, POLLING, Freed(0, REF, [], None, true), free, log + [Released(1, 0, 0)]))
  {
  }

  lemma Unlocks(log: seq<Effect>)
    ensures Steps(Scene(false, true, POLLING, Freed(0, REF, [], None, true), false, log), Unlock(1),
                  Scene(false, false, POLLING, Going(0, [], None), false, log))
  {
    assert map[0 as Identity := 1] - {0} == map[];
  }

  lemma SeesClosed(log: seq<Effect>)
    ensures Steps(Scene(false, false, POLLING, Going(0, [], None), false, log), CheckClosed(0),
                  Scene(false, false, SawClosed("t", 0, 0), Going(0, [], None), false, log))
  {
  }

  lemma SeesRelease(log: seq<Effect>)
    ensures Steps(Scene(false, false, SawClosed("t", 0, 0), Going(0, [], None), false, log), CheckRelease(0),
                  Scene(false, false, SawRelease("t", 0, 0), Going(0, [], None), false, log))
  {
  }

  lemma FindsNothing(log: seq<Effect>)
    ensures Steps(Scene(false, false, SawRelease("t", 0, 0), Going(0, [], None), false, log), FindClaim(0),
                  Scene(false, false, Done, Going(0, [], None), false, log + [Handed(0, 0)]))
  {
  }

  // ---------------------------------------------------------------- the runs

  /** From the stored claim through the close's Nak of it. */
  lemma ReleaseRuns(before: seq<Action>, free: bool, log: seq<Effect>) returns (actions: seq<Action>)
    requires Runs(INITIAL, before, Found(free, log))
    ensures Runs(INITIAL, actions,
        Scene(false, true, POLLING, Freed(0, REF, [], None, true), free, log + [Released(1, 0, 0)]))
  {
    hide Do, Enabled, Scene, Found, Runs, Steps;
    Closes(free, log);
    Marks(free, log);
    Collects(free, log);
    Picks(free, log);
    Locks(free, log);
    TakesOut(free, log);
    Naks(free, log);
    var s0, s1 := Scene(true, false, POLLING, Flagging(0, true), free, log),
      Scene(true, false, POLLING, Collecting(0), free, log);
    var s2 := Scene(true, false, POLLING, Going(0, [REF], None), free, log);
    var s3 := Scene(true, false, POLLING, Waiting(0, REF, [], None), free, log);
    var s4 := Scene(true, true, POLLING, Holding(0, REF, [], None), free, log);
    var s5 := Scene(false, true, POLLING, Taken(0, REF, [], None), free, log);
    actions := Reaches(before, Found(free, log), Close(1, 0, true), s0);
    actions := Reaches(actions, s0, MarkClosed(1), s1);
    actions := Reaches(actions, s1, Collect(1, [REF]), s2);
    actions := Reaches(actions, s2, NextRef(1), s3);
    actions := Reaches(actions, s3, Lock(1), s4);
    actions := Reaches(actions, s4, Take(1), s5);
    actions := Reaches(actions, s5, Nak(1, true),
                       Scene(false, true, POLLING, Freed(0, REF, [], None, true), free, log + [Released(1, 0, 0)]));
  }

  lemma StartsPolled() returns (actions: seq<Action>)
    ensures Runs(INITIAL, actions, Found(false, []))
  {
    hide Do, Enabled, Steps, Found;
    PollsFirst();
    assert Runs(INITIAL, [], INITIAL);
    actions := Reaches([], INITIAL, Poll(0, "t", CLAIM, {}), Found(false, []));
  }

  lemma SceneLog(there: bool, locked: bool, p0: Pc, p1: Pc, free: bool, log: seq<Effect>)
    ensures Scene(there, locked, p0, p1, free, log).log == log
  {
  }

  /**
   A resolve that does not end its claim loads the delivery and acks it, and
   before it forgets the claim a close takes and Naks it: one delivery settled
   twice.
   */
  lemma LockFreeAckCanDoubleSettle() returns (actions: seq<Action>, s: Bridge)
    ensures Runs(INITIAL, actions, s) && s.log == [FreeAcked(2, 0), Released(1, 0, 0)]
    ensures AllSettlements(s.log, 0) == 2
  {
    hide Do, Enabled, Scene, Found, Polled, Runs, Steps;
    actions := StartsPolled();
    LoadsWithoutMutex();
    ChecksWithoutMutex();
    AcksWithoutMutex();
    var loaded := Polled(map[0 := POLLING, 2 := FreeLoaded("t", 0)], []);
    var checked := Polled(map[0 := POLLING, 2 := FreeChecked("t", 0)], []);
    actions := Reaches(actions, Found(false, []), FreeLoad(2, "t"), loaded);
    actions := Reaches(actions, loaded, FreeCheck(2), checked);
    actions := Reaches(actions, checked, FreeAck(2, true), Found(true, [FreeAcked(2, 0)]));
    actions := ReleaseRuns(actions, true, [FreeAcked(2, 0)]);
    var log := [FreeAcked(2, 0)] + [Released(1, 0, 0)];
    s := Scene(false, true, POLLING, Freed(0, REF, [], None, true), true, log);
    SceneLog(false, true, POLLING, Freed(0, REF, [], None, true), true, log);
    assert log[..1] == [FreeAcked(2, 0)] && [FreeAcked(2, 0)][..0] == [];
  }

  /** A poll can hand out a task whose claim the closing scan has already Nak'd. */
  lemma ReleasedTaskCanBeHandedOut() returns (actions: seq<Action>, s: Bridge)
    ensures Runs(INITIAL, actions, s) && s.log == [Released(1, 0, 0), Handed(0, 0)]
  {
    hide Do, Enabled, Scene, Found, Runs, Steps;
    actions := StartsPolled();
    actions := ReleaseRuns(actions, false, []);
    var log := [] + [Released(1, 0, 0)];
    Unlocks(log);
    SeesClosed(log);
    SeesRelease(log);
    FindsNothing(log);
    var s1 := Scene(false, false, POLLING, Going(0, [], None), false, log);
    var s2 := Scene(false, false, SawClosed("t", 0, 0), Going(0, [], None), false, log);
    var s3 := Scene(false, false, SawRelease("t", 0, 0), Going(0, [], None), false, log);
    actions := Reaches(actions, Scene(false, true, POLLING, Freed(0, REF, [], None, true), false, log), Unlock(1), s1);
    actions := Reaches(actions, s1, CheckClosed(0), s2);
    actions := Reaches(actions, s2, CheckRelease(0), s3);
    s := Scene(false, false, Done, Going(0, [], None), false, log + [Handed(0, 0)]);
    actions := Reaches(actions, s3, FindClaim(0), s);
    SceneLog(false, false, Done, Going(0, [], None), false, log + [Handed(0, 0)]);
  }
}
