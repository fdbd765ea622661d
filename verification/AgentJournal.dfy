/**
 The agent journal of one step (journal/journal.go, journal/replay.go) and the
 events the bridge publishes from it (bridge/journal.go, bridge/resolve.go,
 bridge/restart_limit.go), as a transition system. The journal is an append-only
 subject; any number of handles write to it, each publish fenced on the tail its
 writer last saw and deduplicated by message id. Between appends a handle may look
 at the tail, as reading the journal does. Acknowledgements may be lost, the server
 may or may not still remember a message id, a delivery may be withdrawn because
 its run was cancelled, and a holder may crash between any two steps. A sequence
 number is a position in the log plus one.
 */
module AgentJournal {
  import opened Dag

  /** One delivery of one dispatch: the identity every record carries. */
  datatype Task = Task(iteration: nat, attempt: nat, nonce: string, delivered: nat, streamSeq: nat)

  datatype Verdict = Continue | Complete | Fail

  datatype Commit = Commit(action: Verdict, output: string, state: string, error: string, failureType: string,
                           retryAfterMs: int, wait: Option<string>)

  datatype Body = Claiming | Committing(commit: Commit) | Noting(kind: string, data: string)

  datatype Record = Record(task: Task, index: nat, body: Body)

  /** What a lifecycle event says: the dispatch it answers, the commit's sequence number, and the outcome. */
  datatype News = News(iteration: nat, attempt: nat, nonce: string, seqNo: nat, action: Verdict, output: string,
                       error: string, failureType: string, retryAfterMs: int, wait: Option<string>)

  /** A published event, with the holder that published it and whether that was a republication. */
  datatype Event = Event(who: nat, republished: bool, news: News)

  /** Where a holder stands; Publishing and Reading are the two halves of an append. */
  datatype Phase =
    | Idle
    | Publishing(body: Body, expected: nat)
    | Reading(body: Body, expected: nat)
    | Announcing
    | Settling
    | Stale
    | Gone

  datatype Handle = Handle(task: Task, seqNo: nat, next: nat, fenced: bool, done: bool,
                           committed: Option<Commit>, committedSeq: nat, phase: Phase)

  /** Why a delivery was acknowledged: its event is out, it was stale, or its run was cancelled. */
  datatype Cause = Answered | Outdated | Cancelled

  datatype Journal = Journal(log: seq<Record>, handles: map<nat, Handle>, tasks: set<Task>, events: seq<Event>,
                             acked: map<nat, Cause>)

  const EMPTY := Journal([], map[], {}, [], map[])

  datatype Action =
    | Open(h: nat, task: Task)
    | Begin(h: nat, body: Body)
    | Attempt(h: nat, duplicate: Option<nat>, lost: bool)
    | ReadTail(h: nat)
    | GiveUp(h: nat)
    | Resync(h: nat)
    | Announce(h: nat, ok: bool)
    | Republish(h: nat, ok: bool)
    | Ack(h: nat, ok: bool)
    | Withdraw(h: nat, ok: bool)
    | Crash(h: nat)

  // ---------------------------------------------------------------- classification

  predicate SameOutcome(a: Task, b: Task) {
    a.iteration == b.iteration && a.attempt == b.attempt
  }

  /** The message id of a record names its delivery and index; the nonce is not part of it. */
  predicate SameMsgId(r: Record, task: Task, index: nat) {
    && SameOutcome(r.task, task) && r.index == index
    && r.task.streamSeq == task.streamSeq && r.task.delivered == task.delivered
  }

  predicate OlderDeliveryClaim(r: Record, task: Task) {
    r.body.Claiming? && task.streamSeq != 0 && r.task.streamSeq == task.streamSeq && r.task.delivered < task.delivered
  }

  predicate NewerDeliveryClaim(r: Record, task: Task) {
    r.body.Claiming? && task.streamSeq != 0 && r.task.streamSeq == task.streamSeq && r.task.delivered > task.delivered
  }

  predicate CommitOf(r: Record, task: Task) {
    r.body.Committing? && SameOutcome(r.task, task)
  }

  /** What the rebuild finds: the newest commit of this attempt. */
  function FindCommit(log: seq<Record>, task: Task): Option<nat> {
    if log == [] then None
    else if CommitOf(log[|log| - 1], task) then Some(|log| - 1)
    else FindCommit(log[..|log| - 1], task)
  }

  lemma {:induction false} FindCommitFinds(log: seq<Record>, task: Task)
    ensures FindCommit(log, task).Some? ==>
              FindCommit(log, task).value < |log| && CommitOf(log[FindCommit(log, task).value], task)
    ensures FindCommit(log, task).None? <==> forall i | 0 <= i < |log| :: !CommitOf(log[i], task)
  {
    if log != [] { FindCommitFinds(log[..|log| - 1], task); }
  }

  predicate Superseded(log: seq<Record>, task: Task) {
    exists i :: 0 <= i < |log| && NewerDeliveryClaim(log[i], task)
  }

  /** What the network guarantees of two deliveries: one message is one dispatch, and its deliveries are told apart. */
  predicate Consistent(a: Task, b: Task) {
    && (a.streamSeq != 0 && a.streamSeq == b.streamSeq ==> SameOutcome(a, b) && a.nonce == b.nonce)
    && (SameOutcome(a, b) && a.streamSeq == b.streamSeq && a.delivered == b.delivered ==> a == b)
  }

  predicate Live(h: Handle) {
    !h.phase.Gone? && !h.phase.Stale?
  }

  predicate Appending(h: Handle) {
    h.phase.Publishing? || h.phase.Reading?
  }

  // ---------------------------------------------------------------- steps

  ghost predicate Enabled(s: Journal, a: Action) {
    match a
    case Open(h, task) =>
      && h !in s.handles
      && (forall t | t in s.tasks :: Consistent(t, task))
      && (forall g | g in s.handles && Live(s.handles[g]) :: s.handles[g].task != task)
      // A handle reopened for a delivery follows one that failed at its claim.
      && (forall i | 0 <= i < |s.log| && s.log[i].task == task :: s.log[i].index == 0 || s.log[i].body.Committing?)
    case Begin(h, body) =>
      && h in s.handles && s.handles[h].phase.Idle? && s.handles[h].next > 0 && !body.Claiming?
      && !s.handles[h].fenced && !s.handles[h].done
    case Attempt(h, duplicate, _) =>
      h in s.handles && s.handles[h].phase.Publishing?
      && (duplicate.Some? ==>
            duplicate.value < |s.log| && SameMsgId(s.log[duplicate.value], s.handles[h].task, s.handles[h].next))
    case ReadTail(h) => h in s.handles && s.handles[h].phase.Reading?
    case GiveUp(h) => h in s.handles && Appending(s.handles[h])
    case Announce(h, _) => h in s.handles && s.handles[h].phase.Announcing?
    case Resync(h) => h in s.handles && Live(s.handles[h]) && !Appending(s.handles[h]) && s.handles[h].next > 0
    case Republish(h, _) => h in s.handles && s.handles[h].phase.Idle? && s.handles[h].done && !s.handles[h].fenced
    case Ack(h, ok) =>
      h in s.handles && (s.handles[h].phase.Settling? || s.handles[h].phase.Stale?) && (ok ==> h !in s.acked)
    case Withdraw(h, ok) => h in s.handles && !s.handles[h].phase.Gone? && (ok ==> h !in s.acked)
    case Crash(h) => h in s.handles && Live(s.handles[h])
  }

  /**
   The claim a delivery makes of the step: stale, already committed, superseded,
   or about to publish its claim record.
   */
  function Opened(log: seq<Record>, task: Task): Handle {
    var h := Handle(task, |log|, 0, false, false, None, 0, Publishing(Claiming, |log|));
    if log != [] && log[|log| - 1].task.iteration > task.iteration then h.(phase := Stale)
    else if FindCommit(log, task).Some? then
      FindCommitFinds(log, task);
      var p := FindCommit(log, task).value;
      h.(done := true, committed := Some(log[p].body.commit), committedSeq := p + 1, phase := Idle)
    else if Superseded(log, task) then h.(fenced := true, phase := Gone)
    else h
  }

  /** An append that ends in an error: the claim record's ends the handle. */
  function Failed(h: Handle): Handle {
    if h.next == 0 then h.(phase := Gone) else h.(phase := Idle)
  }

  function Fenced(h: Handle): Handle {
    if h.next == 0 then h.(fenced := true, phase := Gone) else h.(fenced := true, phase := Idle)
  }

  /** An append the server answered with this sequence. */
  function Landed(h: Handle, body: Body, seqNo: nat): Handle {
    if seqNo < h.seqNo then Fenced(h)
    else
      var h' := h.(seqNo := seqNo, next := h.next + 1, phase := Idle);
      if body.Committing?
      then h'.(done := true, committed := Some(body.commit), committedSeq := seqNo, phase := Announcing)
      else h'
  }

  /** The rejection protocol: what the tail says about a refused append. */
  function Resynced(log: seq<Record>, h: Handle): Handle
    requires h.phase.Reading?
  {
    var body := h.phase.body;
    if |log| == h.phase.expected || |log| == 0 then h.(phase := Publishing(body, |log|))
    else
      var tail := log[|log| - 1];
      if SameMsgId(tail, h.task, h.next) then Landed(h, body, |log|)
      else if tail.task == h.task || tail.task.iteration < h.task.iteration || OlderDeliveryClaim(tail, h.task)
      then h.(phase := Publishing(body, |log|))
      else Fenced(h)
  }

  /** A look at the tail without writing: a record of its own moves the holder's tail, one of another fences it. */
  function TailChecked(log: seq<Record>, h: Handle): Handle {
    if h.fenced || log == [] || |log| == h.seqNo || log[|log| - 1].task.iteration < h.task.iteration then h
    else if log[|log| - 1].task == h.task then h.(seqNo := |log|)
    else h.(fenced := true)
  }

  function Attempted(log: seq<Record>, h: Handle, duplicate: Option<nat>, lost: bool): Handle
    requires h.phase.Publishing?
  {
    var body := h.phase.body;
    if lost then Failed(h)
    else if duplicate.Some? then Landed(h, body, duplicate.value + 1)
    else if h.phase.expected == |log| then Landed(h, body, |log| + 1)
    else h.(phase := Reading(body, h.phase.expected))
  }

  /** What is said of a commit: an announcement carries the wait of a continue, a republication does not. */
  function NewsOf(task: Task, seqNo: nat, c: Commit, republished: bool): News {
    match c.action
    case Continue =>
      News(task.iteration, task.attempt, task.nonce, seqNo, Continue, c.output, "", "", 0,
           if republished then None else c.wait)
    case Complete => News(task.iteration, task.attempt, task.nonce, seqNo, Complete, c.output, "", "", 0, None)
    case Fail =>
      News(task.iteration, task.attempt, task.nonce, seqNo, Fail, "", c.error, c.failureType, c.retryAfterMs, None)
  }

  function HandleAfter(s: Journal, a: Action): Handle
    requires Enabled(s, a)
  {
    match a
    case Open(_, task) => Opened(s.log, task)
    case Begin(h, body) => s.handles[h].(phase := Publishing(body, s.handles[h].seqNo))
    case Attempt(h, duplicate, lost) => Attempted(s.log, s.handles[h], duplicate, lost)
    case ReadTail(h) => Resynced(s.log, s.handles[h])
    case GiveUp(h) => Failed(s.handles[h])
    case Resync(h) => TailChecked(s.log, s.handles[h])
    case Announce(h, ok) => s.handles[h].(phase := if ok then Settling else Idle)
    case Republish(h, ok) => s.handles[h].(phase := if ok then Settling else Idle)
    case Ack(h, ok) =>
      if s.handles[h].phase.Stale? then s.handles[h] else s.handles[h].(phase := if ok then Gone else Idle)
    // A resolve already under way goes on.
    case Withdraw(h, _) => if s.handles[h].phase.Idle? then s.handles[h].(phase := Gone) else s.handles[h]
    case Crash(h) => s.handles[h].(phase := Gone)
  }

  predicate Appends(s: Journal, a: Action) {
    && a.Attempt? && a.duplicate.None?
    && a.h in s.handles && s.handles[a.h].phase.Publishing? && s.handles[a.h].phase.expected == |s.log|
  }

  function LogAfter(s: Journal, a: Action): seq<Record>
    requires Enabled(s, a)
  {
    if Appends(s, a)
    then s.log + [Record(s.handles[a.h].task, s.handles[a.h].next, s.handles[a.h].phase.body)]
    else s.log
  }

  function EventsAfter(s: Journal, a: Action): seq<Event>
    requires Enabled(s, a)
  {
    if (a.Announce? || a.Republish?) && a.ok && s.handles[a.h].committed.Some? then
      var h := s.handles[a.h];
      s.events + [Event(a.h, a.Republish?, NewsOf(h.task, h.committedSeq, h.committed.value, a.Republish?))]
    else s.events
  }

  function AckedAfter(s: Journal, a: Action): map<nat, Cause>
    requires Enabled(s, a)
  {
    match a
    case Ack(h, ok) => if ok then s.acked[h := if s.handles[h].phase.Stale? then Outdated else Answered] else s.acked
    case Withdraw(h, ok) => if ok then s.acked[h := Cancelled] else s.acked
    case _ => s.acked
  }

  function Do(s: Journal, a: Action): Journal
    requires Enabled(s, a)
  {
    Journal(LogAfter(s, a), s.handles[a.h := HandleAfter(s, a)], if a.Open? then s.tasks + {a.task} else s.tasks,
            EventsAfter(s, a), AckedAfter(s, a))
  }

  /**
   What a holder starts to write heeds the journal: a commit is the one record
   stored under its message id, if any is; and when the tail is the holder's own
   commit under that id, only that commit is written, from a tail before it.
   */
  ghost predicate Heeds(s: Journal, a: Action) {
    a.Begin? && a.h in s.handles ==>
      var h := s.handles[a.h];
      && (a.body.Committing? ==> forall p | UnderNext(s.log, h, p) :: s.log[p].body == a.body)
      && (TailIsCommit(s.log, h) ==> a.body.Committing? && h.seqNo < |s.log|)
  }

  /** The record at p is stored under the holder's next message id. */
  predicate UnderNext(log: seq<Record>, h: Handle, p: int) {
    0 <= p < |log| && SameMsgId(log[p], h.task, h.next)
  }

  predicate TailIsCommit(log: seq<Record>, h: Handle) {
    UnderNext(log, h, |log| - 1) && log[|log| - 1].body.Committing?
  }

  /** Runs from s to s'; on the steady ones every holder heeds the journal. */
  ghost predicate Runs(s: Journal, actions: seq<Action>, s': Journal, steady: bool)
    decreases |actions|
  {
    if actions == [] then s' == s
    else
      && Enabled(s, actions[0]) && (steady ==> Heeds(s, actions[0]))
      && Runs(Do(s, actions[0]), actions[1..], s', steady)
  }

  // ---------------------------------------------------------------- what every run keeps

  /** A record after which this task may write nothing. */
  predicate Bars(r: Record, task: Task) {
    r.task.iteration > task.iteration || NewerDeliveryClaim(r, task)
  }

  ghost predicate Clear(log: seq<Record>, task: Task, n: nat) {
    n <= |log| && forall p | 0 <= p < n :: !Bars(log[p], task)
  }

  /** No record follows one that bars it; only claims have index zero; a delivery's indices never go back. */
  ghost predicate Ordered(log: seq<Record>) {
    && (forall p, q | 0 <= p < q < |log| :: !Bars(log[p], log[q].task))
    && (forall p | 0 <= p < |log| :: log[p].index == 0 <==> log[p].body.Claiming?)
    && (forall p, q | 0 <= p < q < |log| && log[p].task == log[q].task :: log[p].index <= log[q].index)
  }

  ghost predicate Known(s: Journal) {
    && (forall p | 0 <= p < |s.log| :: s.log[p].task in s.tasks)
    && (forall h | h in s.handles :: s.handles[h].task in s.tasks)
    && (forall t, u | t in s.tasks && u in s.tasks :: Consistent(t, u))
  }

  /** The tail a holder relies on. */
  function Base(h: Handle): nat {
    if Appending(h) then h.phase.expected else h.seqNo
  }

  /** A holder's own records: none past its next index, and its tail is one of the last two indices. */
  ghost predicate OwnRecords(log: seq<Record>, h: Handle) {
    && (forall p | 0 <= p < |log| && log[p].task == h.task :: log[p].index <= h.next)
    && (h.next > 0 ==>
          0 < h.seqNo <= |log| && log[h.seqNo - 1].task == h.task && h.next - 1 <= log[h.seqNo - 1].index)
  }

  ghost predicate Writing(log: seq<Record>, h: Handle) {
    && h.seqNo <= Base(h) <= |log|
    && Clear(log, h.task, Base(h)) && OwnRecords(log, h)
    && (Appending(h) ==> (h.next == 0 <==> h.phase.body.Claiming?))
    && (!Appending(h) ==> h.next > 0)
  }

  ghost predicate HandleOk(log: seq<Record>, h: Handle) {
    && (Live(h) && !h.done && !h.fenced ==> Writing(log, h))
    && (h.done ==> h.committed.Some? && !Appending(h))
    && ((h.phase.Announcing? || h.phase.Settling?) ==> h.done)
    && (h.fenced ==> !Appending(h))
  }

  ghost predicate Handles(s: Journal) {
    forall h | h in s.handles :: HandleOk(s.log, s.handles[h])
  }

  ghost predicate Separate(s: Journal) {
    forall h, g | h in s.handles && g in s.handles && h != g && Live(s.handles[h]) && Live(s.handles[g]) ::
      s.handles[h].task != s.handles[g].task
  }

  ghost predicate Announced(s: Journal, h: nat) {
    exists i :: 0 <= i < |s.events| && s.events[i].who == h
  }

  ghost predicate HoldersKnown(s: Journal) {
    s.acked.Keys <= s.handles.Keys && forall i | 0 <= i < |s.events| :: s.events[i].who in s.handles
  }

  ghost predicate AnsweredAnnounced(s: Journal) {
    forall h | h in s.handles && (s.handles[h].phase.Settling? || (h in s.acked && s.acked[h].Answered?)) ::
      Announced(s, h)
  }

  ghost predicate OutdatedStale(s: Journal) {
    forall h | h in s.acked && s.acked[h].Outdated? :: h in s.handles && s.handles[h].phase.Stale?
  }

  ghost predicate StaleSilent(s: Journal) {
    forall h | h in s.handles && s.handles[h].phase.Stale? :: !Announced(s, h)
  }

  /** An acknowledgement as answered follows this holder's event; a stale holder publishes none. */
  ghost predicate Acks(s: Journal) {
    HoldersKnown(s) && AnsweredAnnounced(s) && OutdatedStale(s) && StaleSilent(s)
  }

  ghost predicate Sound(s: Journal) {
    Ordered(s.log) && Known(s) && Handles(s) && Separate(s) && Acks(s)
  }

  /** A message id found in the log is a record of the same delivery. */
  lemma MsgIdIsOwn(s: Journal, h: nat, p: nat)
    requires Known(s) && h in s.handles && UnderNext(s.log, s.handles[h], p)
    ensures s.log[p].task == s.handles[h].task && s.log[p].index == s.handles[h].next
  {
    assert Consistent(s.log[p].task, s.handles[h].task);
  }

  lemma OpenedOk(s: Journal, a: Action)
    requires Ordered(s.log) && Enabled(s, a) && a.Open?
    ensures HandleOk(s.log, Opened(s.log, a.task))
  {
    var log, task := s.log, a.task;
    FindCommitFinds(log, task);
    hide FindCommit, Ordered;
    var h := Opened(log, task);
    if Live(h) && !h.done && !h.fenced {
      NothingLater(log, task);
      assert forall p | 0 <= p < |log| :: !NewerDeliveryClaim(log[p], task);
    }
  }

  lemma NothingLater(log: seq<Record>, task: Task)
    requires Ordered(log) && (log != [] ==> log[|log| - 1].task.iteration <= task.iteration)
    ensures forall p | 0 <= p < |log| :: log[p].task.iteration <= task.iteration
  {
    forall p | 0 <= p < |log| ensures log[p].task.iteration <= task.iteration {
      if p < |log| - 1 { assert !Bars(log[p], log[|log| - 1].task); }
    }
  }

  /** Behind a record of its own, nothing bars a delivery. */
  lemma OwnClears(log: seq<Record>, task: Task, n: nat)
    requires Ordered(log) && 0 < n <= |log| && log[n - 1].task == task
    ensures Clear(log, task, n)
  {
    forall p | 0 <= p < n ensures !Bars(log[p], task) {
      if p < n - 1 { assert !Bars(log[p], log[n - 1].task); }
    }
  }

  /** An append that lands: the holder moves on, or has finished. */
  lemma LandedOk(log: seq<Record>, h: Handle, body: Body, n: nat)
    requires Ordered(log) && 0 < n <= |log| && log[n - 1].task == h.task && log[n - 1].index == h.next
    requires (forall p | 0 <= p < |log| && log[p].task == h.task :: log[p].index <= h.next) && !h.done && !h.fenced
    ensures HandleOk(log, Landed(h, body, n))
  {
    hide Ordered, Clear;
    OwnClears(log, h.task, n);
  }

  lemma FailedOk(log: seq<Record>, h: Handle, log': seq<Record>)
    requires Writing(log, h) && Appending(h) && !h.done && !h.fenced && log <= log' && OwnRecords(log', h)
    ensures HandleOk(log', Failed(h))
  {
  }

  /** The tail that lets a refused append try again bars nothing, and neither does anything before it. */
  lemma TailClears(s: Journal, h: nat)
    requires Ordered(s.log) && Known(s) && h in s.handles && s.log != []
    requires var tail, hd := s.log[|s.log| - 1], s.handles[h];
             tail.task == hd.task || tail.task.iteration < hd.task.iteration || OlderDeliveryClaim(tail, hd.task)
    ensures Clear(s.log, s.handles[h].task, |s.log|)
  {
    var tail, task := s.log[|s.log| - 1], s.handles[h].task;
    assert Consistent(tail.task, task);
    forall p | 0 <= p < |s.log| ensures !Bars(s.log[p], task) {
      assert Consistent(s.log[p].task, task);
      if p < |s.log| - 1 { assert !Bars(s.log[p], tail.task); }
    }
  }

  lemma RetryOk(log: seq<Record>, h: Handle)
    requires Writing(log, h) && h.phase.Reading? && Clear(log, h.task, |log|)
    ensures Writing(log, h.(phase := Publishing(h.phase.body, |log|)))
  {
    hide Clear;
  }

  lemma ResyncedOk(s: Journal, a: Action)
    requires Sound(s) && Enabled(s, a) && a.ReadTail?
    ensures HandleOk(s.log, Resynced(s.log, s.handles[a.h]))
  {
    hide Separate, Acks, Ordered, Clear, Bars, OlderDeliveryClaim, SameMsgId;
    var h := s.handles[a.h];
    assert HandleOk(s.log, h);
    if |s.log| == h.phase.expected || |s.log| == 0 {
      RetryOk(s.log, h);
    } else {
      var tail := s.log[|s.log| - 1];
      if SameMsgId(tail, h.task, h.next) {
        MsgIdIsOwn(s, a.h, |s.log| - 1);
        LandedOk(s.log, h, h.phase.body, |s.log|);
      } else if tail.task == h.task || tail.task.iteration < h.task.iteration || OlderDeliveryClaim(tail, h.task) {
        TailClears(s, a.h);
        RetryOk(s.log, h);
      }
    }
  }

  /**
   A look at the tail leaves what a holder relies on, and has three outcomes: a
   record of another delivery, of this or a later iteration, fences it; one of its
   own becomes its tail; and otherwise nothing changes.
   */
  lemma TailCheckedOk(s: Journal, a: Action)
    requires Sound(s) && Enabled(s, a) && a.Resync?
    ensures HandleOk(s.log, TailChecked(s.log, s.handles[a.h]))
    ensures var h, h' := s.handles[a.h], HandleAfter(s, a);
            && h' == h.(seqNo := h'.seqNo, fenced := h'.fenced)
            && (h'.fenced <==>
                || h.fenced
                || (s.log != [] && |s.log| != h.seqNo && s.log[|s.log| - 1].task != h.task
                    && s.log[|s.log| - 1].task.iteration >= h.task.iteration))
            && (h'.seqNo == |s.log| <==>
                || h.seqNo == |s.log|
                || (!h.fenced && s.log != [] && s.log[|s.log| - 1].task == h.task))
            && (h'.seqNo == h.seqNo || h'.seqNo == |s.log|)
  {
    hide Separate, Acks, Clear, Known, Bars;
    var h := s.handles[a.h];
    assert HandleOk(s.log, h);
    if s.log != [] && s.log[|s.log| - 1].task == h.task {
      OwnClears(s.log, h.task, |s.log|);
    }
  }

  /** The accepted record keeps the log in order. */
  lemma AppendOrdered(log: seq<Record>, h: Handle)
    requires Ordered(log) && Writing(log, h) && h.phase.Publishing? && h.phase.expected == |log|
    ensures Ordered(log + [Record(h.task, h.next, h.phase.body)])
    ensures OwnRecords(log + [Record(h.task, h.next, h.phase.body)], h)
  {
    var log' := log + [Record(h.task, h.next, h.phase.body)];
    forall p, q | 0 <= p < q < |log'| ensures !Bars(log'[p], log'[q].task) {
      if q < |log| { assert !Bars(log[p], log[q].task); }
    }
  }

  lemma AttemptedOk(s: Journal, a: Action)
    requires Sound(s) && Enabled(s, a) && a.Attempt?
    ensures Ordered(LogAfter(s, a))
    ensures HandleOk(LogAfter(s, a), HandleAfter(s, a))
  {
    hide Separate, Acks, Ordered, Clear, SameMsgId, Bars;
    var h := s.handles[a.h];
    assert HandleOk(s.log, h);
    var log' := LogAfter(s, a);
    if Appends(s, a) { AppendOrdered(s.log, h); }
    if a.lost {
      FailedOk(s.log, h, log');
    } else if a.duplicate.Some? {
      MsgIdIsOwn(s, a.h, a.duplicate.value);
      LandedOk(s.log, h, h.phase.body, a.duplicate.value + 1);
    } else if h.phase.expected == |s.log| {
      LandedOk(log', h, h.phase.body, |s.log| + 1);
    } else {
      assert Base(HandleAfter(s, a)) == Base(h);
    }
  }

  lemma QuietOk(s: Journal, a: Action)
    requires Handles(s) && Enabled(s, a) && !a.Open? && !a.Attempt? && !a.ReadTail? && !a.Resync?
    ensures HandleOk(s.log, HandleAfter(s, a))
  {
    hide Clear;
    assert HandleOk(s.log, s.handles[a.h]);
    if a.GiveUp? { FailedOk(s.log, s.handles[a.h], s.log); }
  }

  lemma ActorOk(s: Journal, a: Action)
    requires Sound(s) && Enabled(s, a)
    ensures Ordered(LogAfter(s, a)) && HandleOk(LogAfter(s, a), HandleAfter(s, a))
  {
    hide Ordered, HandleOk, Known, Separate, Acks, Enabled, Handles, Opened, Attempted, Resynced, TailChecked, Failed;
    if a.Open? { OpenedOk(s, a); }
    else if a.Attempt? { AttemptedOk(s, a); }
    else if a.ReadTail? { ResyncedOk(s, a); }
    else if a.Resync? { TailCheckedOk(s, a); }
    else { QuietOk(s, a); }
  }

  /** A record of another delivery leaves a holder's knowledge alone. */
  lemma OtherOk(log: seq<Record>, r: Record, h: Handle)
    requires HandleOk(log, h) && (Live(h) ==> r.task != h.task)
    ensures HandleOk(log + [r], h)
  {
  }

  lemma HandlesKept(s: Journal, a: Action)
    requires Sound(s) && Enabled(s, a)
    ensures Handles(Do(s, a)) && Ordered(Do(s, a).log)
  {
    hide Ordered, HandleOk, Known, Acks, HandleAfter, EventsAfter, AckedAfter;
    ActorOk(s, a);
    var s' := Do(s, a);
    forall g | g in s'.handles ensures HandleOk(s'.log, s'.handles[g]) {
      if g != a.h {
        assert HandleOk(s.log, s.handles[g]);
        if Appends(s, a) { OtherOk(s.log, s'.log[|s.log|], s.handles[g]); }
      }
    }
  }

  lemma KnownKept(s: Journal, a: Action)
    requires Known(s) && Enabled(s, a)
    ensures Known(Do(s, a))
  {
    SameTask(s, a);
    hide HandleAfter, EventsAfter, AckedAfter, Consistent;
    var s' := Do(s, a);
    if a.Open? {
      forall t, u | t in s'.tasks && u in s'.tasks ensures Consistent(t, u) {
        ConsistentSymmetric(t, u);
        ConsistentSelf(t);
      }
    }
  }

  lemma ConsistentSymmetric(t: Task, u: Task)
    ensures Consistent(t, u) == Consistent(u, t)
  {
  }

  lemma ConsistentSelf(t: Task)
    ensures Consistent(t, t)
  {
  }

  lemma SameTask(s: Journal, a: Action)
    requires Enabled(s, a)
    ensures HandleAfter(s, a).task == if a.Open? then a.task else s.handles[a.h].task
    ensures !a.Open? && Live(HandleAfter(s, a)) ==> Live(s.handles[a.h])
    ensures !a.Open? ==> a.h in s.handles
  {
    hide Consistent, FindCommit;
  }

  lemma SeparateKept(s: Journal, a: Action)
    requires Separate(s) && Enabled(s, a)
    ensures Separate(Do(s, a))
  {
    SameTask(s, a);
    hide HandleAfter, EventsAfter, LogAfter, AckedAfter, Consistent;
  }

  /** What a step changes about events, acknowledgements and the phases they depend on. */
  lemma NewlySettling(s: Journal, a: Action)
    requires Acks(s) && Handles(s) && Enabled(s, a)
    ensures s.events <= EventsAfter(s, a) <= s.events + EventsAfter(s, a)[|s.events|..]
    ensures forall i | |s.events| <= i < |EventsAfter(s, a)| ::
              EventsAfter(s, a)[i].who == a.h && a.h in s.handles && !s.handles[a.h].phase.Stale?
    ensures HandleAfter(s, a).phase.Settling? || (a.Ack? && a.ok && !s.handles[a.h].phase.Stale?) ==>
              (a.h in s.handles && Announced(s, a.h)) || EventsAfter(s, a) != s.events
    ensures a.h in s.handles ==> (HandleAfter(s, a).phase.Stale? <==> s.handles[a.h].phase.Stale?)
  {
    hide Writing, FindCommit, Consistent, NewsOf;
    if a.h in s.handles { assert HandleOk(s.log, s.handles[a.h]); }
  }

  lemma AnsweredKept(s: Journal, a: Action)
    requires Acks(s) && Handles(s) && Enabled(s, a)
    ensures AnsweredAnnounced(Do(s, a))
  {
    var s' := Do(s, a);
    NewlySettling(s, a);
    hide HandleAfter, LogAfter, HandleOk, Handles, EventsAfter, OutdatedStale, StaleSilent, HoldersKnown, Enabled;
    forall h | h in s'.handles && (s'.handles[h].phase.Settling? || (h in s'.acked && s'.acked[h].Answered?))
      ensures Announced(s', h)
    {
      if Announced(s, h) {
        var i :| 0 <= i < |s.events| && s.events[i].who == h;
        assert s'.events[i].who == h;
      } else {
        assert s'.events[|s.events|].who == h;
      }
    }
  }

  lemma SilenceKept(s: Journal, a: Action)
    requires Acks(s) && Handles(s) && Enabled(s, a)
    ensures StaleSilent(Do(s, a))
  {
    var s' := Do(s, a);
    NewlySettling(s, a);
    hide HandleAfter, LogAfter, HandleOk, Handles, EventsAfter, AckedAfter, OutdatedStale, AnsweredAnnounced, Acks,
      Enabled;
    forall h, i | h in s'.handles && s'.handles[h].phase.Stale? && 0 <= i < |s'.events| ensures s'.events[i].who != h {
      if i < |s.events| {
        assert s'.events[i] == s.events[i];
        OldEventElsewhere(s, h, i);
      }
    }
  }

  lemma OldEventElsewhere(s: Journal, h: nat, i: nat)
    requires Acks(s) && i < |s.events| && (h in s.handles ==> s.handles[h].phase.Stale?)
    ensures s.events[i].who != h
  {
  }

  lemma HoldersKept(s: Journal, a: Action)
    requires Acks(s) && Handles(s) && Enabled(s, a)
    ensures HoldersKnown(Do(s, a)) && OutdatedStale(Do(s, a))
  {
    NewlySettling(s, a);
    hide HandleAfter, LogAfter, HandleOk, Handles, EventsAfter, AnsweredAnnounced, StaleSilent;
  }

  lemma AcksKept(s: Journal, a: Action)
    requires Acks(s) && Handles(s) && Enabled(s, a)
    ensures Acks(Do(s, a))
  {
    hide HoldersKnown, AnsweredAnnounced, OutdatedStale, StaleSilent, Handles, Enabled, Do;
    AnsweredKept(s, a);
    SilenceKept(s, a);
    HoldersKept(s, a);
  }

  lemma StepKeepsSound(s: Journal, a: Action)
    requires Sound(s) && Enabled(s, a)
    ensures Sound(Do(s, a))
  {
    hide Ordered, Handles, Known, Separate, Acks, Do, Enabled;
    HandlesKept(s, a);
    KnownKept(s, a);
    SeparateKept(s, a);
    AcksKept(s, a);
  }

  lemma {:induction false} RunKeepsSound(s: Journal, actions: seq<Action>, s': Journal, steady: bool)
    requires Sound(s) && Runs(s, actions, s', steady)
    ensures Sound(s')
    decreases |actions|
  {
    hide Sound, Do, Enabled, Heeds;
    if actions != [] {
      StepKeepsSound(s, actions[0]);
      RunKeepsSound(Do(s, actions[0]), actions[1..], s', steady);
    }
  }

  lemma InitiallySound()
    ensures Sound(EMPTY)
  {
  }

  // ---------------------------------------------------------------- what steady runs keep

  /** Nothing of an attempt follows its commit. */
  ghost predicate Final(log: seq<Record>) {
    forall p, q | 0 <= p < q < |log| && log[p].body.Committing? :: !SameOutcome(log[p].task, log[q].task)
  }

  /** Nothing precedes a commit under its message id. */
  ghost predicate Sole(log: seq<Record>) {
    forall p, q | 0 <= p < q < |log| && log[q].body.Committing? && log[p].task == log[q].task ::
      log[p].index != log[q].index
  }

  /** A finished holder reports a commit of its own attempt that is in the log. */
  ghost predicate Reports(log: seq<Record>, h: Handle) {
    && 0 < h.committedSeq <= |log| && h.committed.Some?
    && CommitOf(log[h.committedSeq - 1], h.task) && log[h.committedSeq - 1].body.commit == h.committed.value
  }

  /** What is stored under the message id of an append: that commit, or no commit at the tail. */
  ghost predicate Stored(log: seq<Record>, h: Handle, body: Body) {
    forall p | 0 <= p < |log| && log[p].task == h.task && log[p].index == h.next ::
      if body.Committing? then log[p].body == body else log[p].body.Committing? ==> p < |log| - 1
  }

  /** A commit of the attempt behind the tail an append relies on means that the journal has moved on. */
  ghost predicate Outrun(log: seq<Record>, h: Handle) {
    forall p | 0 <= p < |log| && p < Base(h) && CommitOf(log[p], h.task) :: Base(h) < |log|
  }

  ghost predicate Trusty(log: seq<Record>, h: Handle) {
    && (Live(h) && h.done ==> Reports(log, h))
    && (Live(h) && !h.done && !h.fenced ==>
          && (forall p | 0 <= p < |log| && log[p].task == h.task && log[p].body.Committing? && log[p].index < h.next ::
                p < |log| - 1)
          && (Appending(h) ==> Stored(log, h, h.phase.body) && Outrun(log, h)))
  }

  ghost predicate AllTrusty(s: Journal) {
    forall h | h in s.handles :: Trusty(s.log, s.handles[h])
  }

  /** The commit an event is about. */
  function Told(log: seq<Record>, e: Event): Option<Commit> {
    if 0 < e.news.seqNo <= |log| && log[e.news.seqNo - 1].body.Committing?
    then Some(log[e.news.seqNo - 1].body.commit) else None
  }

  /** An event says, for its holder's delivery, what the commit of that attempt at its sequence number says. */
  ghost predicate Tells(s: Journal, e: Event) {
    && e.who in s.handles && Told(s.log, e).Some?
    && CommitOf(s.log[e.news.seqNo - 1], s.handles[e.who].task)
    && e.news == NewsOf(s.handles[e.who].task, e.news.seqNo, Told(s.log, e).value, e.republished)
  }

  ghost predicate Events(s: Journal) {
    forall i | 0 <= i < |s.events| :: Tells(s, s.events[i])
  }

  ghost predicate Exact(s: Journal) {
    Sound(s) && Final(s.log) && Sole(s.log) && AllTrusty(s) && Events(s)
  }

  lemma OpenedTrusty(log: seq<Record>, task: Task)
    ensures Trusty(log, Opened(log, task))
  {
    FindCommitFinds(log, task);
    hide FindCommit;
  }

  /** The last own record an idle holder knows is the only commit of its attempt there can be behind its tail. */
  lemma BehindTail(log: seq<Record>, h: Handle, p: nat)
    requires Final(log) && OwnRecords(log, h) && h.next > 0 && p < h.seqNo && CommitOf(log[p], h.task)
    ensures p == h.seqNo - 1 && log[p].task == h.task && h.next - 1 <= log[p].index <= h.next
  {
  }

  lemma BeginTrusty(s: Journal, a: Action)
    requires Exact(s) && Enabled(s, a) && a.Begin? && Heeds(s, a)
    ensures Trusty(s.log, HandleAfter(s, a))
  {
    hide Ordered, Known, Separate, Acks, Events, Sole, Clear;
    var h, h' := s.handles[a.h], HandleAfter(s, a);
    assert HandleOk(s.log, h) && Trusty(s.log, h);
    forall p | 0 <= p < |s.log| && s.log[p].task == h.task && s.log[p].index == h.next ensures UnderNext(s.log, h, p) {}
    forall p | 0 <= p < |s.log| && p < h.seqNo && CommitOf(s.log[p], h.task) ensures h.seqNo < |s.log| {
      BehindTail(s.log, h, p);
    }
  }

  /** With no commit of the attempt in the log, an accepted record leaves it final. */
  lemma AppendFinal(log: seq<Record>, h: Handle)
    requires Final(log) && Sole(log) && h.phase.Publishing? && h.phase.expected == |log|
    requires Outrun(log, h) && Stored(log, h, h.phase.body)
    ensures forall p | 0 <= p < |log| :: !CommitOf(log[p], h.task)
    ensures Final(log + [Record(h.task, h.next, h.phase.body)])
    ensures Sole(log + [Record(h.task, h.next, h.phase.body)])
  {
  }

  lemma LandedTrusty(log: seq<Record>, h: Handle, body: Body, n: nat)
    requires 0 < n <= |log| && log[n - 1].task == h.task && log[n - 1].index == h.next && Stored(log, h, body)
    requires !h.done && !h.fenced
    requires forall p | 0 <= p < |log| && log[p].task == h.task && log[p].body.Committing? && log[p].index < h.next ::
               p < |log| - 1
    ensures Trusty(log, Landed(h, body, n))
  {
  }

  lemma AttemptedTrusty(s: Journal, a: Action)
    requires Exact(s) && Enabled(s, a) && a.Attempt?
    ensures Final(LogAfter(s, a)) && Sole(LogAfter(s, a))
    ensures Trusty(LogAfter(s, a), HandleAfter(s, a))
  {
    hide Ordered, Separate, Acks, Events, Writing, SameMsgId, Known, Final, Sole;
    var h := s.handles[a.h];
    assert HandleOk(s.log, h) && Trusty(s.log, h);
    var log' := LogAfter(s, a);
    if a.duplicate.Some? {
      MsgIdIsOwn(s, a.h, a.duplicate.value);
      if !a.lost { LandedTrusty(s.log, h, h.phase.body, a.duplicate.value + 1); }
    } else if Appends(s, a) {
      AppendFinal(s.log, h);
      if !a.lost { LandedTrusty(log', h, h.phase.body, |s.log| + 1); }
    }
  }

  /** A tail that lets a refused append try again means that no commit of the attempt is in the log. */
  lemma TailUncommitted(s: Journal, h: nat)
    requires Sound(s) && Final(s.log) && h in s.handles && s.log != [] && Trusty(s.log, s.handles[h])
    requires var tail, hd := s.log[|s.log| - 1], s.handles[h];
             && Appending(hd) && !hd.done && !hd.fenced && !SameMsgId(tail, hd.task, hd.next)
             && (tail.task == hd.task || tail.task.iteration < hd.task.iteration || OlderDeliveryClaim(tail, hd.task))
    ensures forall p | 0 <= p < |s.log| :: !CommitOf(s.log[p], s.handles[h].task)
  {
    hide Separate, Acks, Clear, Outrun, Stored;
    var tail, hd := s.log[|s.log| - 1], s.handles[h];
    assert HandleOk(s.log, hd) && Consistent(tail.task, hd.task);
    forall p | 0 <= p < |s.log| ensures !CommitOf(s.log[p], hd.task) {
      if p < |s.log| - 1 { assert !Bars(s.log[p], tail.task); }
    }
  }

  lemma ResyncedTrusty(s: Journal, a: Action)
    requires Exact(s) && Enabled(s, a) && a.ReadTail?
    ensures Trusty(s.log, Resynced(s.log, s.handles[a.h]))
  {
    hide Separate, Acks, Events, Ordered, OlderDeliveryClaim, SameMsgId, Writing, Known, Sole, Final;
    var h := s.handles[a.h];
    assert HandleOk(s.log, h) && Trusty(s.log, h);
    if |s.log| != h.phase.expected && |s.log| != 0 {
      var tail := s.log[|s.log| - 1];
      if SameMsgId(tail, h.task, h.next) {
        MsgIdIsOwn(s, a.h, |s.log| - 1);
        LandedTrusty(s.log, h, h.phase.body, |s.log|);
      } else if tail.task == h.task || tail.task.iteration < h.task.iteration || OlderDeliveryClaim(tail, h.task) {
        TailUncommitted(s, a.h);
      }
    }
  }

  lemma QuietTrusty(s: Journal, a: Action)
    requires AllTrusty(s) && Handles(s) && Enabled(s, a) && !a.Open? && !a.Attempt? && !a.ReadTail? && !a.Begin?
    ensures Trusty(s.log, HandleAfter(s, a))
  {
    hide Writing;
    assert HandleOk(s.log, s.handles[a.h]) && Trusty(s.log, s.handles[a.h]);
  }

  lemma ActorTrusty(s: Journal, a: Action)
    requires Exact(s) && Enabled(s, a) && Heeds(s, a)
    ensures Final(LogAfter(s, a)) && Sole(LogAfter(s, a)) && Trusty(LogAfter(s, a), HandleAfter(s, a))
  {
    hide Final, Sole, Trusty, AllTrusty, Ordered, Known, Handles, Separate, Acks, Events, Enabled, Heeds, Opened,
      Attempted, Resynced, TailChecked, Failed;
    if a.Open? { OpenedTrusty(s.log, a.task); }
    else if a.Attempt? { AttemptedTrusty(s, a); }
    else if a.ReadTail? { ResyncedTrusty(s, a); }
    else if a.Begin? { BeginTrusty(s, a); }
    else { QuietTrusty(s, a); }
  }

  lemma OtherTrusty(log: seq<Record>, r: Record, h: Handle)
    requires Trusty(log, h) && HandleOk(log, h) && (Live(h) ==> r.task != h.task)
    ensures Trusty(log + [r], h)
  {
  }

  lemma TrustyKept(s: Journal, a: Action)
    requires Exact(s) && Enabled(s, a) && Heeds(s, a)
    ensures Final(Do(s, a).log) && Sole(Do(s, a).log) && AllTrusty(Do(s, a))
  {
    hide Final, Sole, Trusty, Ordered, HandleOk, Known, Acks, Events, Heeds, HandleAfter, EventsAfter, AckedAfter;
    ActorTrusty(s, a);
    var s' := Do(s, a);
    forall g | g in s'.handles ensures Trusty(s'.log, s'.handles[g]) {
      if g != a.h {
        assert Trusty(s.log, s.handles[g]) && HandleOk(s.log, s.handles[g]);
        if Appends(s, a) { OtherTrusty(s.log, s'.log[|s.log|], s.handles[g]); }
      }
    }
  }

  lemma EventsKept(s: Journal, a: Action)
    requires Events(s) && AllTrusty(s) && Handles(s) && Enabled(s, a)
    ensures Events(Do(s, a))
  {
    SameTask(s, a);
    hide HandleAfter, Writing, NewsOf, AckedAfter, Outrun, Stored;
    var s' := Do(s, a);
    forall i | 0 <= i < |s'.events| ensures Tells(s', s'.events[i]) {
      if i < |s.events| {
        assert Tells(s, s.events[i]);
      } else {
        assert HandleOk(s.log, s.handles[a.h]) && Trusty(s.log, s.handles[a.h]);
      }
    }
  }

  lemma StepKeepsExact(s: Journal, a: Action)
    requires Exact(s) && Enabled(s, a) && Heeds(s, a)
    ensures Exact(Do(s, a))
  {
    hide Sound, Final, Sole, AllTrusty, Events, Do, Enabled, Heeds;
    StepKeepsSound(s, a);
    TrustyKept(s, a);
    assert Handles(s) by { SoundHandles(s); }
    EventsKept(s, a);
  }

  lemma SoundHandles(s: Journal)
    requires Sound(s)
    ensures Handles(s)
  {
    hide Handles;
  }

  lemma {:induction false} RunKeepsExact(s: Journal, actions: seq<Action>, s': Journal)
    requires Exact(s) && Runs(s, actions, s', true)
    ensures Exact(s')
    decreases |actions|
  {
    hide Exact, Do, Enabled, Heeds;
    if actions != [] {
      StepKeepsExact(s, actions[0]);
      RunKeepsExact(Do(s, actions[0]), actions[1..], s');
    }
  }

  lemma Reached(actions: seq<Action>, s: Journal, steady: bool)
    requires Runs(EMPTY, actions, s, steady)
    ensures Sound(s) && (steady ==> Exact(s))
  {
    hide Sound;
    InitiallySound();
    RunKeepsSound(EMPTY, actions, s, steady);
    if steady { RunKeepsExact(EMPTY, actions, s); }
  }

  // ---------------------------------------------------------------- every run

  /**
   Iterations never go back, and deliveries of one message claim in order; on
   steady runs nothing of an attempt follows its commit.
   */
  lemma LogNeverTurnsBack(actions: seq<Action>, s: Journal, steady: bool, p: nat, q: nat)
    requires Runs(EMPTY, actions, s, steady) && p < q < |s.log|
    ensures s.log[p].task.iteration <= s.log[q].task.iteration
    ensures s.log[p].body.Claiming? && s.log[p].task.streamSeq != 0
            && s.log[p].task.streamSeq == s.log[q].task.streamSeq ==>
              s.log[p].task.delivered <= s.log[q].task.delivered
    ensures steady && s.log[p].body.Committing? ==> !SameOutcome(s.log[p].task, s.log[q].task)
  {
    hide Known, Handles, Separate, Acks, AllTrusty, Events, Sole;
    Reached(actions, s, steady);
    assert !Bars(s.log[p], s.log[q].task);
  }

  /** An attempt of an iteration has at most one commit, whatever was redelivered, lost or crashed. */
  lemma OneCommitPerAttempt(actions: seq<Action>, s: Journal, p: nat, q: nat)
    requires Runs(EMPTY, actions, s, true) && p < |s.log| && q < |s.log|
    requires s.log[p].body.Committing? && s.log[q].body.Committing? && SameOutcome(s.log[p].task, s.log[q].task)
    ensures p == q
  {
    if p < q { LogNeverTurnsBack(actions, s, true, p, q); }
    if q < p { LogNeverTurnsBack(actions, s, true, q, p); }
  }

  /**
   A delivery is acknowledged after its own event, or because it was stale, and
   then it has none, or because its run was cancelled: an acknowledged delivery
   without an event was one of the last two.
   */
  lemma AckMeansAnnouncedStaleOrWithdrawn(actions: seq<Action>, s: Journal, h: nat)
    requires Runs(EMPTY, actions, s, false) && h in s.acked
    ensures h in s.handles
    ensures s.acked[h].Answered? ==> Announced(s, h)
    ensures s.acked[h].Outdated? ==> s.handles[h].phase.Stale? && !Announced(s, h)
    ensures !Announced(s, h) ==> s.acked[h].Outdated? || s.acked[h].Cancelled?
  {
    hide Ordered, Known, Handles, Separate, Announced;
    Reached(actions, s, false);
  }

  /** Two handles never both write for one delivery, and a fenced or finished one does not write at all. */
  lemma OnlyLiveHoldersWrite(actions: seq<Action>, s: Journal, steady: bool, a: Action)
    requires Runs(EMPTY, actions, s, steady) && Enabled(s, a) && Do(s, a).log != s.log
    ensures a.h in s.handles && Live(s.handles[a.h]) && !s.handles[a.h].fenced && !s.handles[a.h].done
    ensures forall g | g in s.handles && g != a.h && Live(s.handles[g]) :: s.handles[g].task != s.handles[a.h].task
    ensures Clear(s.log, s.handles[a.h].task, |s.log|)
    ensures steady ==> forall p | 0 <= p < |s.log| :: !CommitOf(s.log[p], s.handles[a.h].task)
  {
    hide Do, Ordered, Known, Events, Acks, Clear, Final, Sole, Stored;
    Reached(actions, s, steady);
    OnlyAppendsWrite(s, a);
    assert HandleOk(s.log, s.handles[a.h]);
    if steady { assert Trusty(s.log, s.handles[a.h]); }
  }

  lemma OnlyAppendsWrite(s: Journal, a: Action)
    requires Enabled(s, a) && Do(s, a).log != s.log
    ensures Appends(s, a)
  {
    hide HandleAfter, EventsAfter, AckedAfter;
  }

  /** The attempt's one commit, as every event of the attempt tells it. */
  predicate SameOutcomeTold(a: News, b: News) {
    && a.iteration == b.iteration && a.attempt == b.attempt && a.seqNo == b.seqNo && a.action == b.action
    && a.output == b.output && a.error == b.error && a.failureType == b.failureType && a.retryAfterMs == b.retryAfterMs
  }

  /** A republication says less than the announcement: the commit is a continue that waits. */
  predicate LosesWait(c: Commit) {
    c.action.Continue? && c.wait.Some?
  }

  lemma EventTells(actions: seq<Action>, s: Journal, i: nat)
    requires Runs(EMPTY, actions, s, true) && i < |s.events|
    ensures Tells(s, s.events[i]) && Known(s)
  {
    hide Tells, Ordered, Known, Handles, Separate, Acks, AllTrusty, Final, Sole;
    Reached(actions, s, true);
  }

  /**
   What an event says, field by field, of the commit stored at its sequence
   number: the dispatch of the delivery that published it, the commit's action,
   and what belongs to that action. Only an announced continue carries its wait.
   */
  lemma EventSpellsOut(actions: seq<Action>, s: Journal, i: nat)
    requires Runs(EMPTY, actions, s, true) && i < |s.events|
    ensures var e := s.events[i];
            && e.who in s.handles && 0 < e.news.seqNo <= |s.log| && s.log[e.news.seqNo - 1].body.Committing?
            && var task, r := s.handles[e.who].task, s.log[e.news.seqNo - 1];
               var c, n := r.body.commit, e.news;
               && r.task.iteration == n.iteration == task.iteration && r.task.attempt == n.attempt == task.attempt
               && n.nonce == task.nonce && n.action == c.action
               && n.output == (if c.action.Fail? then "" else c.output)
               && n.error == (if c.action.Fail? then c.error else "")
               && n.failureType == (if c.action.Fail? then c.failureType else "")
               && n.retryAfterMs == (if c.action.Fail? then c.retryAfterMs else 0)
               && n.wait == (if c.action.Continue? && !e.republished then c.wait else None)
  {
    hide Known;
    EventTells(actions, s, i);
  }

  /**
   Every event published for a journaled attempt, by whichever delivery and
   after whatever crash or retried action, tells of the attempt's one commit.
   Two of them are the same news exactly when their deliveries carry one nonce,
   and they do not split into an announcement and a republication of a continue
   that waits.
   */
  lemma EventsTellTheCommit(actions: seq<Action>, s: Journal, i: nat, j: nat)
    requires Runs(EMPTY, actions, s, true) && i < |s.events| && j < |s.events|
    requires s.events[i].news.iteration == s.events[j].news.iteration
    requires s.events[i].news.attempt == s.events[j].news.attempt
    ensures var e, f := s.events[i], s.events[j];
            && Tells(s, e) && Tells(s, f) && Told(s.log, e) == Told(s.log, f) && SameOutcomeTold(e.news, f.news)
            && (e.news == f.news <==>
                && s.handles[e.who].task.nonce == s.handles[f.who].task.nonce
                && !(LosesWait(Told(s.log, e).value) && e.republished != f.republished))
  {
    hide Known;
    EventTells(actions, s, i);
    EventTells(actions, s, j);
    OneCommitPerAttempt(actions, s, s.events[i].news.seqNo - 1, s.events[j].news.seqNo - 1);
  }

  /** Deliveries of one message carry one nonce, so only a lost wait tells their events apart. */
  lemma OneMessageOneNews(actions: seq<Action>, s: Journal, i: nat, j: nat)
    requires Runs(EMPTY, actions, s, true) && i < |s.events| && j < |s.events|
    requires s.events[i].who in s.handles && s.events[j].who in s.handles
    requires var t, u := s.handles[s.events[i].who].task, s.handles[s.events[j].who].task;
             t.streamSeq != 0 && t.streamSeq == u.streamSeq
    ensures s.events[i].news == s.events[j].news <==>
            !(s.events[i].republished != s.events[j].republished && Told(s.log, s.events[i]).Some?
              && LosesWait(Told(s.log, s.events[i]).value))
  {
    EventTells(actions, s, i);
    EventTells(actions, s, j);
    assert Consistent(s.handles[s.events[i].who].task, s.handles[s.events[j].who].task);
    EventsTellTheCommit(actions, s, i, j);
  }

  // ---------------------------------------------------------------- writing what the journal already holds

  /** Nothing of an attempt follows its commit, and every finished holder's commit is the one in the journal. */
  ghost predicate Kept(s: Journal) {
    Final(s.log) && forall h | h in s.handles && Live(s.handles[h]) && s.handles[h].done :: Reports(s.log, s.handles[h])
  }

  lemma ExactKept(s: Journal)
    requires Exact(s)
    ensures Kept(s)
  {
    hide Sound, Final, Sole, Events, Reports;
    forall h | h in s.handles && Live(s.handles[h]) && s.handles[h].done ensures Reports(s.log, s.handles[h]) {
      assert Trusty(s.log, s.handles[h]);
    }
  }

  /** Of the records stored under the next message id, one not behind the holder's tail tells as much as any. */
  lemma Answerable(s: Journal, h: nat, p: nat, c: Commit) returns (q: nat)
    requires Exact(s) && h in s.handles && UnderNext(s.log, s.handles[h], p) && s.log[p].body != Committing(c)
    requires var hd := s.handles[h]; Live(hd) && !hd.done && !hd.fenced && hd.next > 0
    ensures UnderNext(s.log, s.handles[h], q) && s.handles[h].seqNo <= q + 1 && s.log[q].body != Committing(c)
  {
    hide Known, Separate, Acks, Events, AllTrusty, Clear, Bars;
    var hd := s.handles[h];
    assert HandleOk(s.log, hd);
    MsgIdIsOwn(s, h, p);
    q := if hd.seqNo <= p + 1 then p else hd.seqNo - 1;
  }

  /** A commit other than what is stored there: the server's answer is taken for it. */
  lemma OtherCommitBreaks(s: Journal, h: nat, c: Commit, q: nat)
    requires Enabled(s, Begin(h, Committing(c))) && UnderNext(s.log, s.handles[h], q)
    requires s.handles[h].seqNo <= q + 1 && s.log[q].body != Committing(c)
    ensures var s1 := Do(s, Begin(h, Committing(c)));
            Enabled(s1, Attempt(h, Some(q), false)) && !Kept(Do(s1, Attempt(h, Some(q), false)))
  {
    hide Final, FindCommit;
    var s1 := Do(s, Begin(h, Committing(c)));
    var s2 := Do(s1, Attempt(h, Some(q), false));
    assert s2.log == s.log && s2.handles[h] == Landed(s1.handles[h], Committing(c), q + 1);
    assert !Reports(s2.log, s2.handles[h]);
  }

  /** The same commit from the tail it is itself: the server stores it again. */
  lemma SameCommitBreaks(s: Journal, h: nat, c: Commit)
    requires Enabled(s, Begin(h, Committing(c))) && TailIsCommit(s.log, s.handles[h]) && s.handles[h].seqNo == |s.log|
    ensures var s1 := Do(s, Begin(h, Committing(c)));
            Enabled(s1, Attempt(h, None, false)) && !Kept(Do(s1, Attempt(h, None, false)))
  {
    hide Reports, FindCommit;
    var s1 := Do(s, Begin(h, Committing(c)));
    var s2 := Do(s1, Attempt(h, None, false));
    assert s2.log == s.log + [Record(s.handles[h].task, s.handles[h].next, Committing(c))];
    assert s2.log[|s.log| - 1].body.Committing? && SameOutcome(s2.log[|s.log| - 1].task, s2.log[|s.log|].task);
  }

  /** Another record in place of the commit at the tail: the holder goes on behind its own commit. */
  lemma NoteBreaks(s: Journal, h: nat, body: Body) returns (more: seq<Action>, s': Journal)
    requires Exact(s) && Enabled(s, Begin(h, body)) && !body.Committing? && TailIsCommit(s.log, s.handles[h])
    ensures Runs(Do(s, Begin(h, body)), more, s', true) && !Kept(s')
  {
    hide Reports, FindCommit, Runs, Known, Separate, Acks, Events, AllTrusty, Clear, Bars, Sole;
    var hd, n := s.handles[h], |s.log|;
    assert HandleOk(s.log, hd);
    var s1 := Do(s, Begin(h, body));
    var s2 := Do(s1, Attempt(h, Some(n - 1), false));
    var hd2 := hd.(seqNo := n, next := hd.next + 1);
    assert s2.log == s.log && s2.handles[h] == hd2;
    NoneUnderNext(s, h);
    assert Enabled(s2, Begin(h, body)) && Heeds(s2, Begin(h, body));
    var s3 := Do(s2, Begin(h, body));
    s' := Do(s3, Attempt(h, None, false));
    assert s'.log == s.log + [Record(hd.task, hd.next + 1, body)];
    assert s'.log[n - 1].body.Committing? && SameOutcome(s'.log[n - 1].task, s'.log[n].task);
    more := [Attempt(h, Some(n - 1), false), Begin(h, body), Attempt(h, None, false)];
    RunsThree(s1, more[0], s2, more[1], s3, more[2], s');
  }

  lemma NoneUnderNext(s: Journal, h: nat)
    requires Known(s) && h in s.handles && OwnRecords(s.log, s.handles[h])
    ensures forall p | 0 <= p < |s.log| :: !SameMsgId(s.log[p], s.handles[h].task, s.handles[h].next + 1)
  {
    forall p | 0 <= p < |s.log| ensures !SameMsgId(s.log[p], s.handles[h].task, s.handles[h].next + 1) {
      assert Consistent(s.log[p].task, s.handles[h].task);
    }
  }

  lemma RunsThree(s: Journal, a: Action, s1: Journal, b: Action, s2: Journal, c: Action, s': Journal)
    requires Enabled(s, a) && Heeds(s, a) && Do(s, a) == s1
    requires Enabled(s1, b) && Heeds(s1, b) && Do(s1, b) == s2
    requires Enabled(s2, c) && Heeds(s2, c) && Do(s2, c) == s'
    ensures Runs(s, [a, b, c], s', true)
  {
    hide Do, Enabled, Heeds;
    assert [a, b, c][1..] == [b, c] && [b, c][1..] == [c] && [c][1..] == [];
    assert Runs(s', [], s', true);
    assert Runs(s2, [c], s', true);
    assert Runs(s1, [b, c], s', true);
  }

  lemma RunsOne(s: Journal, a: Action)
    requires Enabled(s, a) && !a.Begin?
    ensures Runs(s, [a], Do(s, a), true)
  {
    hide Do, Enabled;
    assert [a][1..] == [];
  }

  lemma TailWithin(s: Journal, h: nat)
    requires Exact(s) && h in s.handles
    requires var hd := s.handles[h]; Live(hd) && !hd.done && !hd.fenced
    ensures s.handles[h].seqNo <= |s.log|
  {
    hide Ordered, Known, Separate, Acks, Final, Sole, AllTrusty, Events, Clear;
    assert HandleOk(s.log, s.handles[h]);
  }

  /** A start that does not heed the journal can go on to break it. */
  lemma Heedless(s: Journal, h: nat, body: Body) returns (more: seq<Action>, s': Journal)
    requires Exact(s) && Enabled(s, Begin(h, body)) && !Heeds(s, Begin(h, body))
    ensures Runs(Do(s, Begin(h, body)), more, s', true) && !Kept(s')
  {
    hide Exact, Runs, Do, Kept;
    var s1 := Do(s, Begin(h, body));
    if body.Committing? {
      if p :| UnderNext(s.log, s.handles[h], p) && s.log[p].body != body {
        var q := Answerable(s, h, p, body.commit);
        OtherCommitBreaks(s, h, body.commit, q);
        RunsOne(s1, Attempt(h, Some(q), false));
        more, s' := [Attempt(h, Some(q), false)], Do(s1, Attempt(h, Some(q), false));
      } else {
        TailWithin(s, h);
        SameCommitBreaks(s, h, body.commit);
        RunsOne(s1, Attempt(h, None, false));
        more, s' := [Attempt(h, None, false)], Do(s1, Attempt(h, None, false));
      }
    } else {
      more, s' := NoteBreaks(s, h, body);
    }
  }

  /**
   A record's message id names its index and not its content, and looking at the
   tail moves a holder past its own record without moving its next index. What a
   holder starts to write leaves every continuation with one final commit per
   attempt, and holders that report the one in the journal, exactly when it heeds
   the journal.
   */
  lemma RetryKeepsJournalIff(actions: seq<Action>, s: Journal, h: nat, body: Body)
    requires Runs(EMPTY, actions, s, true) && Enabled(s, Begin(h, body))
    ensures Heeds(s, Begin(h, body)) <==>
            forall more, s' | Runs(Do(s, Begin(h, body)), more, s', true) :: Kept(s')
  {
    hide Do, Enabled, Sound, Exact, Kept, Heeds;
    assert Exact(s) by { Reached(actions, s, true); }
    var s1 := Do(s, Begin(h, body));
    if Heeds(s, Begin(h, body)) {
      StepKeepsExact(s, Begin(h, body));
      forall more, s' | Runs(s1, more, s', true) ensures Kept(s') {
        RunKeepsExact(s1, more, s');
        ExactKept(s');
      }
    } else {
      var more, s' := Heedless(s, h, body);
    }
  }

  // ---------------------------------------------------------------- why a holder stops

  ghost predicate LaterIteration(log: seq<Record>, task: Task) {
    exists p :: 0 <= p < |log| && log[p].task.iteration > task.iteration
  }

  /** Another delivery has written for this or a later iteration, or a record of its own is stored twice. */
  ghost predicate Overtaken(log: seq<Record>, task: Task) {
    || (exists p :: 0 <= p < |log| && log[p].task != task && log[p].task.iteration >= task.iteration)
    || StoredTwice(log, task)
  }

  ghost predicate StoredTwice(log: seq<Record>, task: Task) {
    exists p, q :: 0 <= p < q < |log| && log[p].task == log[q].task == task && log[p].index == log[q].index
  }

  ghost predicate Justified(log: seq<Record>, h: Handle) {
    && (h.phase.Stale? ==> LaterIteration(log, h.task))
    && (h.fenced ==> Overtaken(log, h.task))
  }

  ghost predicate AllJustified(s: Journal) {
    forall h | h in s.handles :: Justified(s.log, s.handles[h])
  }

  lemma JustifiedLater(log: seq<Record>, r: Record, h: Handle)
    requires Justified(log, h)
    ensures Justified(log + [r], h)
  {
    var log' := log + [r];
    if LaterIteration(log, h.task) {
      var p :| 0 <= p < |log| && log[p].task.iteration > h.task.iteration;
      assert log'[p].task.iteration > h.task.iteration;
    }
    if StoredTwice(log, h.task) {
      var p, q :| 0 <= p < q < |log| && log[p].task == log[q].task == h.task && log[p].index == log[q].index;
      assert log'[p] == log[p] && log'[q] == log[q];
    }
    if p :| 0 <= p < |log| && log[p].task != h.task && log[p].task.iteration >= h.task.iteration {
      assert log'[p] == log[p];
    }
  }

  lemma OpenedJustified(s: Journal, a: Action)
    requires Known(s) && Enabled(s, a) && a.Open?
    ensures Justified(s.log, Opened(s.log, a.task))
  {
    hide FindCommit;
    var h := Opened(s.log, a.task);
    if h.fenced {
      var i :| 0 <= i < |s.log| && NewerDeliveryClaim(s.log[i], a.task);
      assert Consistent(s.log[i].task, a.task);
    }
  }

  /** An answer from behind the holder's tail: its record is stored twice, or another delivery wrote in between. */
  lemma AnsweredBehind(s: Journal, a: Action)
    requires Sound(s) && Enabled(s, a) && a.Attempt? && a.duplicate.Some?
    requires a.duplicate.value + 1 < s.handles[a.h].seqNo
    ensures Overtaken(s.log, s.handles[a.h].task)
  {
    hide Separate, Acks, Clear;
    var h, p := s.handles[a.h], a.duplicate.value;
    assert HandleOk(s.log, h);
    assert UnderNext(s.log, h, p);
    MsgIdIsOwn(s, a.h, p);
    var q := h.seqNo - 1;
    if s.log[q].task == h.task {
      assert s.log[p].index == s.log[q].index;
    } else {
      assert !Bars(s.log[p], s.log[q].task);
    }
  }

  lemma ActorJustified(s: Journal, a: Action)
    requires Sound(s) && AllJustified(s) && Enabled(s, a)
    ensures Justified(s.log, HandleAfter(s, a))
  {
    hide Ordered, Known, Separate, Acks, Clear, SameMsgId, Overtaken, LaterIteration, FindCommit, Consistent;
    if a.Open? {
      OpenedJustified(s, a);
    } else {
      var h := s.handles[a.h];
      assert Justified(s.log, h) && HandleOk(s.log, h);
      if a.Attempt? && a.duplicate.Some? && a.duplicate.value + 1 < h.seqNo { AnsweredBehind(s, a); }
      if s.log != [] { TailOvertakes(s.log, h.task); }
    }
  }

  lemma TailOvertakes(log: seq<Record>, task: Task)
    requires log != []
    ensures log[|log| - 1].task != task && log[|log| - 1].task.iteration >= task.iteration ==> Overtaken(log, task)
  {
  }

  lemma JustifiedKept(s: Journal, a: Action)
    requires Sound(s) && AllJustified(s) && Enabled(s, a)
    ensures AllJustified(Do(s, a))
  {
    hide Justified, Sound, HandleAfter, EventsAfter, AckedAfter;
    ActorJustified(s, a);
    var s' := Do(s, a);
    forall g | g in s'.handles ensures Justified(s'.log, s'.handles[g]) {
      if g != a.h { assert Justified(s.log, s.handles[g]); }
      if Appends(s, a) { JustifiedLater(s.log, s'.log[|s.log|], s'.handles[g]); }
    }
  }

  lemma {:induction false} RunJustified(s: Journal, actions: seq<Action>, s': Journal)
    requires Sound(s) && AllJustified(s) && Runs(s, actions, s', false)
    ensures AllJustified(s')
    decreases |actions|
  {
    hide Sound, AllJustified, Do, Enabled;
    if actions != [] {
      StepKeepsSound(s, actions[0]);
      JustifiedKept(s, actions[0]);
      RunJustified(Do(s, actions[0]), actions[1..], s');
    }
  }

  /**
   In every run a delivery is dropped as stale only if the journal has reached a
   later iteration, and a holder is fenced only if another delivery has written
   for its iteration or a later one, or a record of its own is stored twice.
   */
  lemma StopsOnlyWhenOvertaken(actions: seq<Action>, s: Journal, h: nat)
    requires Runs(EMPTY, actions, s, false) && h in s.handles
    ensures s.handles[h].phase.Stale? ==> LaterIteration(s.log, s.handles[h].task)
    ensures s.handles[h].fenced ==> Overtaken(s.log, s.handles[h].task)
  {
    hide LaterIteration, Overtaken, Runs, Sound;
    InitiallySound();
    RunJustified(EMPTY, actions, s);
    assert Justified(s.log, s.handles[h]);
  }

  ghost predicate TailsStored(s: Journal) {
    forall h | h in s.handles :: s.handles[h].seqNo <= |s.log|
  }

  lemma TailsKept(s: Journal, a: Action)
    requires Sound(s) && TailsStored(s) && Enabled(s, a)
    ensures TailsStored(Do(s, a))
  {
    hide Ordered, Known, Separate, Acks, Clear, SameMsgId, FindCommit, Consistent, NewsOf;
    if a.h in s.handles { assert HandleOk(s.log, s.handles[a.h]); }
  }

  /** A holder's tail and next index never go back, and a fence or a commit is never undone. */
  lemma TailNeverGoesBack(s: Journal, a: Action)
    requires Sound(s) && TailsStored(s) && Enabled(s, a) && !a.Open?
    ensures s.handles[a.h].seqNo <= HandleAfter(s, a).seqNo
    ensures s.handles[a.h].next <= HandleAfter(s, a).next <= s.handles[a.h].next + 1
    ensures s.handles[a.h].fenced ==> HandleAfter(s, a).fenced
    ensures s.handles[a.h].done ==> HandleAfter(s, a).done && HandleAfter(s, a).committed == s.handles[a.h].committed
  {
    hide Ordered, Known, Separate, Acks, Clear, SameMsgId, FindCommit, Consistent, NewsOf;
    assert HandleOk(s.log, s.handles[a.h]);
  }

  lemma {:induction false} RunTailNeverGoesBack(s: Journal, actions: seq<Action>, s': Journal, h: nat)
    requires Sound(s) && TailsStored(s) && Runs(s, actions, s', false) && h in s.handles
    ensures h in s'.handles && s.handles[h].seqNo <= s'.handles[h].seqNo && s.handles[h].next <= s'.handles[h].next
    ensures s.handles[h].fenced ==> s'.handles[h].fenced
    ensures s.handles[h].done ==> s'.handles[h].done && s'.handles[h].committed == s.handles[h].committed
    decreases |actions|
  {
    hide Sound, Enabled, HandleAfter, LogAfter, EventsAfter, AckedAfter, TailsStored;
    if actions != [] {
      var a := actions[0];
      StepKeepsSound(s, a);
      TailsKept(s, a);
      if a.h == h {
        NotReopened(s, a);
        TailNeverGoesBack(s, a);
      }
      RunTailNeverGoesBack(Do(s, a), actions[1..], s', h);
    }
  }

  /** Over whole runs, and between any two points of one. */
  lemma HoldersOnlyAdvance(first: seq<Action>, s: Journal, more: seq<Action>, s': Journal, h: nat)
    requires Runs(EMPTY, first, s, false) && Runs(s, more, s', false) && h in s.handles
    ensures h in s'.handles && s.handles[h].seqNo <= s'.handles[h].seqNo && s.handles[h].next <= s'.handles[h].next
    ensures s.handles[h].fenced ==> s'.handles[h].fenced
    ensures s.handles[h].done ==> s'.handles[h].done && s'.handles[h].committed == s.handles[h].committed
  {
    hide Sound, Runs, TailsStored;
    Reached(first, s, false);
    assert TailsStored(s) by { RunTails(first, s); }
    RunTailNeverGoesBack(s, more, s', h);
  }

  lemma RunTails(actions: seq<Action>, s: Journal)
    requires Runs(EMPTY, actions, s, false)
    ensures TailsStored(s)
  {
    hide Sound, Runs;
    InitiallySound();
    RunKeepsTails(EMPTY, actions, s);
  }

  lemma {:induction false} RunKeepsTails(s: Journal, actions: seq<Action>, s': Journal)
    requires Sound(s) && TailsStored(s) && Runs(s, actions, s', false)
    ensures TailsStored(s')
    decreases |actions|
  {
    hide Sound, TailsStored, Do, Enabled;
    if actions != [] {
      StepKeepsSound(s, actions[0]);
      TailsKept(s, actions[0]);
      RunKeepsTails(Do(s, actions[0]), actions[1..], s');
    }
  }

  lemma NotReopened(s: Journal, a: Action)
    requires Enabled(s, a) && a.h in s.handles
    ensures !a.Open?
  {
  }

  // ---------------------------------------------------------------- what goes through

  ghost predicate StepsTo(s: Journal, a: Action, s': Journal) {
    Enabled(s, a) && Heeds(s, a) && Do(s, a) == s'
  }

  lemma {:induction false} RunsOn(s: Journal, actions: seq<Action>, mid: Journal, a: Action, s': Journal)
    requires Runs(s, actions, mid, true) && StepsTo(mid, a, s')
    ensures Runs(s, actions + [a], s', true)
    decreases |actions|
  {
    hide Do, Enabled, Heeds;
    if actions == [] {
      assert (actions + [a])[1..] == [];
    } else {
      RunsOn(Do(s, actions[0]), actions[1..], mid, a, s');
      assert (actions + [a])[1..] == actions[1..] + [a];
    }
  }

  lemma RunsOnTwice(s: Journal, actions: seq<Action>, mid: Journal, a: Action, mid': Journal, b: Action, s': Journal)
    requires Runs(s, actions, mid, true) && StepsTo(mid, a, mid') && StepsTo(mid', b, s')
    ensures Runs(s, actions + [a, b], s', true)
  {
    hide Runs, StepsTo;
    RunsOn(s, actions, mid, a, mid');
    RunsOn(s, actions + [a], mid', b, s');
    assert actions + [a] + [b] == actions + [a, b];
  }

  /** Nothing in the journal stands against this delivery's claim. */
  ghost predicate Unopposed(log: seq<Record>, task: Task) {
    && (log != [] ==> log[|log| - 1].task.iteration <= task.iteration)
    && forall p | 0 <= p < |log| :: !CommitOf(log[p], task) && !NewerDeliveryClaim(log[p], task)
  }

  /** The state in which this holder stands so. */
  function With(s: Journal, h: nat, task: Task, more: seq<Record>, handle: Handle): Journal {
    s.(log := s.log + more, handles := s.handles[h := handle], tasks := s.tasks + {task})
  }

  lemma ClaimGoesThrough(s: Journal, h: nat, task: Task)
    requires Enabled(s, Open(h, task)) && Unopposed(s.log, task)
    ensures var n := |s.log|;
            var claiming := Handle(task, n, 0, false, false, None, 0, Publishing(Claiming, n));
            && StepsTo(s, Open(h, task), With(s, h, task, [], claiming))
            && StepsTo(With(s, h, task, [], claiming), Attempt(h, None, false),
                       With(s, h, task, [Record(task, 0, Claiming)],
                            Handle(task, n + 1, 1, false, false, None, 0, Idle)))
  {
    FindCommitFinds(s.log, task);
    hide FindCommit;
    assert s.log + [] == s.log;
  }

  /** Only records of index zero are stored for a delivery that opens anew. */
  lemma NoneUnderOne(s: Journal, h: nat, task: Task)
    requires Enabled(s, Open(h, task)) && Unopposed(s.log, task) && Known(s)
    ensures forall p | 0 <= p < |s.log| :: !SameMsgId(s.log[p], task, 1)
  {
    forall p | 0 <= p < |s.log| ensures !SameMsgId(s.log[p], task, 1) {
      assert Consistent(s.log[p].task, task) && !CommitOf(s.log[p], task);
    }
  }

  lemma CommitGoesOn(s: Journal, h: nat, task: Task, c: Commit)
    requires Enabled(s, Open(h, task)) && Unopposed(s.log, task) && Known(s)
    ensures var n, claim := |s.log|, Record(task, 0, Claiming);
            var idle := Handle(task, n + 1, 1, false, false, None, 0, Idle);
            var body := Committing(c);
            && StepsTo(With(s, h, task, [claim], idle), Begin(h, body),
                       With(s, h, task, [claim], idle.(phase := Publishing(body, n + 1))))
            && StepsTo(With(s, h, task, [claim], idle.(phase := Publishing(body, n + 1))), Attempt(h, None, false),
                       With(s, h, task, [claim, Record(task, 1, body)],
                            Handle(task, n + 2, 2, false, true, Some(c), n + 2, Announcing)))
  {
    NoneUnderOne(s, h, task);
    hide Known, FindCommit, Consistent;
    var claim := Record(task, 0, Claiming);
    assert s.log + [claim] + [Record(task, 1, Committing(c))] == s.log + [claim, Record(task, 1, Committing(c))];
  }

  lemma AnswerGoesOut(s: Journal, h: nat)
    requires h in s.handles && h !in s.acked && s.handles[h].phase.Announcing? && s.handles[h].committed.Some?
    ensures var hd := s.handles[h];
            var e := Event(h, false, NewsOf(hd.task, hd.committedSeq, hd.committed.value, false));
            var told := s.(handles := s.handles[h := hd.(phase := Settling)], events := s.events + [e]);
            && StepsTo(s, Announce(h, false), s.(handles := s.handles[h := hd.(phase := Idle)]))
            && StepsTo(s, Announce(h, true), told)
            && StepsTo(told, Ack(h, true),
                       told.(handles := s.handles[h := hd.(phase := Gone)], acked := s.acked[h := Answered]))
  {
    hide NewsOf;
  }

  /** The holder that has stored its claim and its commit behind n records. */
  function Committed(task: Task, c: Commit, n: nat): Handle {
    Handle(task, n + 2, 2, false, true, Some(c), n + 2, Announcing)
  }

  function Committal(h: nat, task: Task, c: Commit): seq<Action> {
    [Open(h, task), Attempt(h, None, false), Begin(h, Committing(c)), Attempt(h, None, false)]
  }

  lemma CommitIsStored(s: Journal, h: nat, task: Task, c: Commit)
    requires Enabled(s, Open(h, task)) && Unopposed(s.log, task) && Known(s)
    ensures Runs(s, Committal(h, task, c),
                 With(s, h, task, [Record(task, 0, Claiming), Record(task, 1, Committing(c))],
                      Committed(task, c, |s.log|)), true)
  {
    hide StepsTo, Enabled, Unopposed, Known, With;
    var n, claim, body := |s.log|, Record(task, 0, Claiming), Committing(c);
    var s1 := With(s, h, task, [], Handle(task, n, 0, false, false, None, 0, Publishing(Claiming, n)));
    var s2 := With(s, h, task, [claim], Handle(task, n + 1, 1, false, false, None, 0, Idle));
    var s3 := With(s, h, task, [claim], Handle(task, n + 1, 1, false, false, None, 0, Publishing(body, n + 1)));
    var s4 := With(s, h, task, [claim, Record(task, 1, body)], Committed(task, c, n));
    ClaimGoesThrough(s, h, task);
    CommitGoesOn(s, h, task, c);
    assert Runs(s, [], s, true);
    hide Runs;
    RunsOnTwice(s, [], s, Open(h, task), s1, Attempt(h, None, false), s2);
    RunsOnTwice(s, [] + [Open(h, task), Attempt(h, None, false)], s2, Begin(h, body), s3, Attempt(h, None, false), s4);
    assert [] + [Open(h, task), Attempt(h, None, false)] + [Begin(h, body), Attempt(h, None, false)] ==
           Committal(h, task, c);
  }

  /**
   Wherever the journal stands against nothing, a delivery goes through: it claims
   the step, commits, announces its commit and is acknowledged.
   */
  lemma CommitGoesThrough(s: Journal, h: nat, task: Task, c: Commit) returns (actions: seq<Action>, s': Journal)
    requires Sound(s) && Enabled(s, Open(h, task)) && Unopposed(s.log, task)
    ensures Runs(s, actions, s', true)
    ensures s'.log == s.log + [Record(task, 0, Claiming), Record(task, 1, Committing(c))]
    ensures |s'.events| == |s.events| + 1 && s'.events[|s.events|].who == h
    ensures s'.events[|s.events|].news.seqNo == |s.log| + 2 && s'.events[|s.events|].news.action == c.action
    ensures h in s'.acked && s'.acked[h].Answered?
  {
    hide StepsTo, Enabled, Unopposed, Known, Handles, Separate, Ordered, Runs, Committal;
    var n, hd := |s.log|, Committed(task, c, |s.log|);
    var s4 := With(s, h, task, [Record(task, 0, Claiming), Record(task, 1, Committing(c))], hd);
    CommitIsStored(s, h, task, c);
    assert h !in s4.acked by { NewHolder(s, h, task); }
    AnswerGoesOut(s4, h);
    var e := Event(h, false, NewsOf(task, n + 2, c, false));
    var s5 := s4.(handles := s4.handles[h := hd.(phase := Settling)], events := s.events + [e]);
    s' := s5.(handles := s4.handles[h := hd.(phase := Gone)], acked := s4.acked[h := Answered]);
    RunsOnTwice(s, Committal(h, task, c), s4, Announce(h, true), s5, Ack(h, true), s');
    actions := Committal(h, task, c) + [Announce(h, true), Ack(h, true)];
  }

  lemma NewHolder(s: Journal, h: nat, task: Task)
    requires Acks(s) && Enabled(s, Open(h, task))
    ensures h !in s.handles && h !in s.acked
  {
  }

  lemma RepublicationGoesOut(s: Journal, h: nat)
    requires h in s.handles && h !in s.acked && s.handles[h].phase.Idle?
    requires s.handles[h].done && !s.handles[h].fenced && s.handles[h].committed.Some?
    ensures var hd := s.handles[h];
            var e := Event(h, true, NewsOf(hd.task, hd.committedSeq, hd.committed.value, true));
            var told := s.(handles := s.handles[h := hd.(phase := Settling)], events := s.events + [e]);
            && StepsTo(s, Republish(h, false), s) && StepsTo(s, Republish(h, true), told)
            && StepsTo(told, Ack(h, false), told.(handles := s.handles[h := hd]))
            && StepsTo(told, Ack(h, true),
                       told.(handles := s.handles[h := hd.(phase := Gone)], acked := s.acked[h := Answered]))
  {
    hide NewsOf;
    assert s.handles[h := s.handles[h]] == s.handles;
  }

  /**
   A delivery of a committed attempt answers with that commit: it republishes it,
   again after a publish or an acknowledgement that failed, and is acknowledged.
   */
  lemma CommittedIsAnswered(s: Journal, h: nat, task: Task, p: nat) returns (actions: seq<Action>, s': Journal)
    requires Exact(s) && Enabled(s, Open(h, task)) && p < |s.log| && CommitOf(s.log[p], task)
    requires s.log[|s.log| - 1].task.iteration <= task.iteration
    ensures Runs(s, actions, s', true) && s'.log == s.log
    ensures |s'.events| == |s.events| + 1 && s'.events[|s.events|].who == h
    ensures s'.events[|s.events|].news.seqNo == p + 1 && h in s'.acked && s'.acked[h].Answered?
  {
    hide StepsTo, Enabled, Known, Handles, Separate, Ordered, AllTrusty, Events, Sole;
    var hd := Handle(task, |s.log|, 0, false, true, Some(s.log[p].body.commit), p + 1, Idle);
    var s1 := With(s, h, task, [], hd);
    FindsTheCommit(s, h, task, p);
    assert h !in s1.acked by { NewHolder(s, h, task); }
    RepublicationGoesOut(s1, h);
    var e := Event(h, true, NewsOf(task, p + 1, s.log[p].body.commit, true));
    var s2 := s1.(handles := s1.handles[h := hd.(phase := Settling)], events := s.events + [e]);
    s' := s2.(handles := s1.handles[h := hd.(phase := Gone)], acked := s1.acked[h := Answered]);
    assert Runs(s, [], s, true);
    RunsOnTwice(s, [], s, Open(h, task), s1, Republish(h, true), s2);
    RunsOn(s, [] + [Open(h, task), Republish(h, true)], s2, Ack(h, true), s');
    actions := [] + [Open(h, task), Republish(h, true)] + [Ack(h, true)];
    assert s.log + [] == s.log;
  }

  lemma FindsTheCommit(s: Journal, h: nat, task: Task, p: nat)
    requires Final(s.log) && Enabled(s, Open(h, task)) && p < |s.log| && CommitOf(s.log[p], task)
    requires s.log[|s.log| - 1].task.iteration <= task.iteration
    ensures StepsTo(s, Open(h, task),
                    With(s, h, task, [],
                         Handle(task, |s.log|, 0, false, true, Some(s.log[p].body.commit), p + 1, Idle)))
  {
    FindCommitFinds(s.log, task);
    hide FindCommit;
    var q := FindCommit(s.log, task).value;
    assert p < q ==> !SameOutcome(s.log[p].task, s.log[q].task);
    assert q < p ==> !SameOutcome(s.log[q].task, s.log[p].task);
    assert s.log + [] == s.log;
  }

  /**
   A refused append fences its holder when the tail is another delivery's, of this
   or a later iteration and no older claim. The holder writes and republishes
   nothing more, and one that had claimed is left to be withdrawn.
   */
  lemma RefusedAppendFences(s: Journal, h: nat, body: Body)
    requires h in s.handles && s.handles[h].phase.Reading? && s.log != [] && |s.log| != s.handles[h].phase.expected
    requires var tail, hd := s.log[|s.log| - 1], s.handles[h];
             && !SameMsgId(tail, hd.task, hd.next) && tail.task != hd.task && tail.task.iteration >= hd.task.iteration
             && !OlderDeliveryClaim(tail, hd.task)
    ensures Enabled(s, ReadTail(h))
    ensures var s' := Do(s, ReadTail(h));
            && s'.handles[h].fenced && s'.log == s.log
            && !Enabled(s', Begin(h, body)) && !Enabled(s', Republish(h, true))
            && (s.handles[h].next > 0 && h !in s.acked ==> Enabled(s', Withdraw(h, true)))
  {
    hide FindCommit, NewsOf;
  }

  /** After an append that failed, or was stored unheard, the holder can write again. */
  lemma FailedAppendLeavesHolder(s: Journal, h: nat, body: Body)
    requires h in s.handles && Appending(s.handles[h]) && s.handles[h].next > 0 && !body.Claiming?
    requires !s.handles[h].done && !s.handles[h].fenced
    ensures Enabled(s, GiveUp(h)) && Enabled(Do(s, GiveUp(h)), Begin(h, body))
    ensures s.handles[h].phase.Publishing? ==>
              Enabled(s, Attempt(h, None, true)) && Enabled(Do(s, Attempt(h, None, true)), Begin(h, body))
  {
    hide FindCommit, NewsOf;
  }

  /**
   A refused append is tried again, and lands, when the tail is a record of the
   same delivery, of an earlier iteration, or an older delivery's claim.
   */
  lemma RefusedAppendLands(s: Journal, h: nat)
    requires h in s.handles && s.handles[h].phase.Reading? && s.log != []
    requires var tail, hd := s.log[|s.log| - 1], s.handles[h];
             && !SameMsgId(tail, hd.task, hd.next)
             && (tail.task == hd.task || tail.task.iteration < hd.task.iteration || OlderDeliveryClaim(tail, hd.task))
    ensures var again := s.(handles := s.handles[h := s.handles[h].(phase := Publishing(s.handles[h].phase.body,
                                                                                       |s.log|))]);
            && StepsTo(s, ReadTail(h), again) && Enabled(again, Attempt(h, None, false))
            && Do(again, Attempt(h, None, false)).log ==
               s.log + [Record(s.handles[h].task, s.handles[h].next, s.handles[h].phase.body)]
  {
    hide FindCommit;
  }
}
