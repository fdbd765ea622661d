/**
 The bridge's claim protocol as a transition system (bridge/resolve.go,
 bridge/workerconn.go, bridge/poll.go over bridge/ackmap.go). One action is one
 atomic step of the source: a critical section of the ack map, taking or giving
 back a claim's mutex, one connection flag, a publish, an Ack or a Nak. Any
 number of polls, resolves and connection closes interleave. A resolve that does
 not end its claim takes no mutex, yet may ack and forget it when the run was
 cancelled or the journal stopped. Sweeps, evictions, heartbeats and fences are
 steps of the environment. Every fetched message is a fresh identity, stored at
 most once.
 */
module ClaimProtocol {
  import opened Graphs
  import opened Dag
  import opened AckMaps
  import LogIngest

  /** What a store fixed about a message for good. */
  datatype Origin = Origin(taskId: string, lock: Identity, conn: Option<Identity>)

  /** Where a handler stands. A poll's release carries the message the poll stored. */
  datatype Pc =
    // A resolve that ends its claim.
    | Loaded(taskId: string, msg: Identity, pauses: bool)
    | Checked(taskId: string, msg: Identity, pauses: bool)
    | Aiming(taskId: string, msg: Identity, pauses: bool, lock: Identity)
    | Locked(taskId: string, msg: Identity, pauses: bool, lock: Identity)
    | Passed(taskId: string, msg: Identity, pauses: bool, lock: Identity)
    | Announced(taskId: string, msg: Identity, lock: Identity)
    | Settling(taskId: string, msg: Identity, lock: Identity)
    | Leaving(lock: Identity)
    // A resolve that does not end its claim.
    | FreeLoaded(taskId: string, msg: Identity)
    | FreeChecked(taskId: string, msg: Identity)
    | FreeSettling(taskId: string, msg: Identity)
    // A poll after it stored its claim under a connection.
    | Stored(taskId: string, msg: Identity, conn: Identity)
    | SawClosed(taskId: string, msg: Identity, conn: Identity)
    | SawRelease(taskId: string, msg: Identity, conn: Identity)
    // A connection's close.
    | Flagging(conn: Identity, owned: bool)
    | Collecting(conn: Identity)
    // Releasing claims, from a close or from a poll.
    | Going(conn: Identity, todo: seq<ClaimRef>, poll: Option<Identity>)
    | Waiting(conn: Identity, ref: ClaimRef, todo: seq<ClaimRef>, poll: Option<Identity>)
    | Holding(conn: Identity, ref: ClaimRef, todo: seq<ClaimRef>, poll: Option<Identity>)
    | Taken(conn: Identity, ref: ClaimRef, todo: seq<ClaimRef>, poll: Option<Identity>)
    | Freed(conn: Identity, ref: ClaimRef, todo: seq<ClaimRef>, poll: Option<Identity>, took: bool)
    | Done

  datatype Effect =
    | Published(who: nat, msg: Identity)
    | Acked(who: nat, msg: Identity)
    | Paused(who: nat, msg: Identity)
    | Withdrawn(who: nat, msg: Identity)
    | Released(who: nat, msg: Identity, conn: Identity)
    | Handed(who: nat, msg: Identity)
    | FreeAcked(who: nat, msg: Identity)

  datatype Bridge = Bridge(
    entries: Entries,
    stored: map<Identity, Origin>,
    holder: map<Identity, nat>,
    procs: map<nat, Pc>,
    releasing: set<Identity>,
    closed: set<Identity>,
    closing: set<Identity>,
    log: seq<Effect>)

  const INITIAL := Bridge(map[], map[], map[], map[], {}, {}, {}, [])

  datatype Action =
    | Poll(p: nat, taskId: string, entry: Entry, dropped: set<string>)
    | CheckClosed(p: nat)
    | CheckRelease(p: nat)
    | FindClaim(p: nat)
    | Load(p: nat, taskId: string, pauses: bool)
    | CheckStop(p: nat)
    | GetLock(p: nat)
    | Lock(p: nat)
    | Reload(p: nat)
    | Fail(p: nat)
    | FenceOwn(p: nat)
    | Publish(p: nat)
    | Settle(p: nat)
    | Withdraw(p: nat, acked: bool)
    | Forget(p: nat)
    | Unlock(p: nat)
    | FreeLoad(p: nat, taskId: string)
    | FreeCheck(p: nat)
    | FreeAck(p: nat, acked: bool)
    | FreeForget(p: nat)
    | FreeLeave(p: nat)
    | Close(p: nat, conn: Identity, owned: bool)
    | MarkClosed(p: nat)
    | Collect(p: nat, todo: seq<ClaimRef>)
    | NextRef(p: nat)
    | Take(p: nat)
    | Nak(p: nat, ok: bool)
    | Drop(taskId: string)
    | Amend(taskId: string, entry: Entry)

  // ---------------------------------------------------------------- steps

  predicate Current(s: Bridge, taskId: string, msg: Identity) {
    taskId in s.entries && s.entries[taskId].msg == msg
  }

  /** The mutex a handler is about to lock. */
  function Wanted(pc: Pc): Option<Identity> {
    match pc
    case Aiming(_, _, _, l) => Some(l)
    case Waiting(_, ref, _, _) => Some(ref.lock)
    case _ => None
  }

  /** The mutex a handler holds. */
  function Held(pc: Pc): Option<Identity> {
    match pc
    case Locked(_, _, _, l) => Some(l)
    case Passed(_, _, _, l) => Some(l)
    case Announced(_, _, l) => Some(l)
    case Settling(_, _, l) => Some(l)
    case Leaving(l) => Some(l)
    case Holding(_, ref, _, _) => Some(ref.lock)
    case Taken(_, ref, _, _) => Some(ref.lock)
    case Freed(_, ref, _, _, _) => Some(ref.lock)
    case _ => None
  }

  /** The handler that takes the step; None for the environment. */
  function Actor(a: Action): Option<nat> {
    if a.Drop? || a.Amend? then None else Some(a.p)
  }

  predicate Starts(a: Action) {
    a.Poll? || a.Load? || a.FreeLoad? || a.Close?
  }

  /** The step follows from where its handler stands. */
  predicate Follows(a: Action, pc: Pc) {
    match a
    case CheckClosed(_) => pc.Stored?
    case CheckRelease(_) => pc.SawClosed?
    case FindClaim(_) => pc.SawRelease?
    case CheckStop(_) => pc.Loaded?
    case GetLock(_) => pc.Checked?
    case Lock(_) => pc.Aiming? || pc.Waiting?
    case Reload(_) => pc.Locked?
    case Fail(_) => pc.Passed? || pc.Announced?
    case FenceOwn(_) => pc.Passed?
    case Publish(_) => pc.Passed? && !pc.pauses
    case Settle(_) => pc.Announced? || (pc.Passed? && pc.pauses)
    case Withdraw(_, _) => pc.Passed?
    case Forget(_) => pc.Settling?
    case Unlock(_) => pc.Leaving? || pc.Freed?
    case FreeCheck(_) => pc.FreeLoaded?
    case FreeAck(_, _) => pc.FreeChecked?
    case FreeForget(_) => pc.FreeSettling?
    case FreeLeave(_) => pc.FreeChecked? || pc.FreeSettling?
    case MarkClosed(_) => pc.Flagging?
    case Collect(_, _) => pc.Collecting?
    case NextRef(_) => pc.Going?
    case Take(_) => pc.Holding?
    case Nak(_, _) => pc.Taken?
    case _ => false
  }

  /** What else the shared state must allow. */
  ghost predicate Allowed(s: Bridge, a: Action) {
    match a
    case Poll(_, _, e, _) => e.msg !in s.stored && !e.fenced && forall m | m in s.stored :: s.stored[m].lock != e.lock
    case Load(_, t, _) => t in s.entries
    case Close(_, c, _) => c !in s.closing
    case Lock(p) => p in s.procs && Wanted(s.procs[p]).Some? && Wanted(s.procs[p]).value !in s.holder
    case FreeLoad(_, t) => t in s.entries
    case Collect(p, todo) => p in s.procs && s.procs[p].Collecting? && forall r :: r in todo <==>
      IsClaim(s.entries, s.procs[p].conn, r)
    case Amend(t, e) =>
      t in s.entries && e.msg == s.entries[t].msg && e.lock == s.entries[t].lock && e.conn == s.entries[t].conn
      && (s.entries[t].fenced ==> e.fenced)
    case _ => true
  }

  ghost predicate Enabled(s: Bridge, a: Action) {
    && (Actor(a).Some? ==> if Starts(a) then a.p !in s.procs else a.p in s.procs && Follows(a, s.procs[a.p]))
    && Allowed(s, a)
  }

  /** The claim a release takes: still the same delivery, and not fenced. */
  predicate Takes(s: Bridge, ref: ClaimRef) {
    Current(s, ref.taskId, ref.msg) && !s.entries[ref.taskId].fenced
  }

  /** Where a resolve stands after its step. */
  function ResolvePc(s: Bridge, a: Action, pc: Pc): Pc
    requires Follows(a, pc)
  {
    match a
    case CheckStop(_) =>
      if pc.taskId in s.entries && s.entries[pc.taskId].fenced then Done else Checked(pc.taskId, pc.msg, pc.pauses)
    case GetLock(_) =>
      if pc.taskId in s.entries then Aiming(pc.taskId, pc.msg, pc.pauses, s.entries[pc.taskId].lock) else Done
    case Reload(_) =>
      if Current(s, pc.taskId, pc.msg) then Passed(pc.taskId, pc.msg, pc.pauses, pc.lock) else Leaving(pc.lock)
    case Fail(_) => Leaving(pc.lock)
    case FenceOwn(_) => Leaving(pc.lock)
    case Publish(_) => Announced(pc.taskId, pc.msg, pc.lock)
    case Settle(_) => Settling(pc.taskId, pc.msg, pc.lock)
    case Withdraw(_, _) => Settling(pc.taskId, pc.msg, pc.lock)
    case Forget(_) => Leaving(pc.lock)
    case FreeCheck(_) =>
      if pc.taskId in s.entries && s.entries[pc.taskId].fenced then Done else FreeChecked(pc.taskId, pc.msg)
    case FreeAck(_, _) => FreeSettling(pc.taskId, pc.msg)
    case FreeForget(_) => Done
    case FreeLeave(_) => Done
    case _ => pc
  }

  /** Where a poll or a close stands after its step. */
  function ConnPc(s: Bridge, a: Action, pc: Pc): Pc
    requires Follows(a, pc)
  {
    match a
    case CheckClosed(_) => if pc.conn in s.closed then SawClosed(pc.taskId, pc.msg, pc.conn) else Done
    case CheckRelease(_) => if pc.conn in s.releasing then SawRelease(pc.taskId, pc.msg, pc.conn) else Done
    case FindClaim(_) =>
      if pc.taskId in s.entries && s.entries[pc.taskId].conn == Some(pc.conn)
      then Waiting(pc.conn, ClaimRef(pc.taskId, s.entries[pc.taskId].msg, s.entries[pc.taskId].lock), [], Some(pc.msg))
      else Done
    case MarkClosed(_) => if pc.owned then Collecting(pc.conn) else Done
    case Collect(_, todo) => Going(pc.conn, todo, None)
    case _ => pc
  }

  /** Where a release stands after its step; locking and unlocking serve resolves too. */
  function ReleasePc(s: Bridge, a: Action, pc: Pc): Pc
    requires Follows(a, pc)
  {
    match a
    case Lock(_) =>
      if pc.Aiming? then Locked(pc.taskId, pc.msg, pc.pauses, pc.lock) else Holding(pc.conn, pc.ref, pc.todo, pc.poll)
    case NextRef(_) => if pc.todo == [] then Done else Waiting(pc.conn, pc.todo[0], pc.todo[1..], pc.poll)
    case Take(_) =>
      if Takes(s, pc.ref) then Taken(pc.conn, pc.ref, pc.todo, pc.poll)
        else Freed(pc.conn, pc.ref, pc.todo, pc.poll, false)
    case Nak(_, _) => Freed(pc.conn, pc.ref, pc.todo, pc.poll, true)
    case Unlock(_) => if pc.Leaving? then Done else Going(pc.conn, pc.todo, pc.poll)
    case _ => pc
  }

  predicate ConnStep(a: Action) {
    a.CheckClosed? || a.CheckRelease? || a.FindClaim? || a.MarkClosed? || a.Collect?
  }

  predicate ReleaseStep(a: Action) {
    a.Lock? || a.NextRef? || a.Take? || a.Nak? || a.Unlock?
  }

  function StartPc(s: Bridge, a: Action): Pc
    requires Starts(a) && Allowed(s, a)
  {
    match a
    case Poll(_, t, e, _) => if e.conn.Some? then Stored(t, e.msg, e.conn.value) else Done
    case Load(_, t, pauses) => Loaded(t, s.entries[t].msg, pauses)
    case FreeLoad(_, t) => FreeLoaded(t, s.entries[t].msg)
    case Close(_, c, owned) => Flagging(c, owned)
  }

  function PcAfter(s: Bridge, a: Action): Pc
    requires Enabled(s, a) && Actor(a).Some?
  {
    if Starts(a) then StartPc(s, a)
    else if ConnStep(a) then ConnPc(s, a, s.procs[a.p])
    else if ReleaseStep(a) then ReleasePc(s, a, s.procs[a.p])
    else ResolvePc(s, a, s.procs[a.p])
  }

  function EntriesAfter(s: Bridge, a: Action): Entries
    requires Enabled(s, a)
  {
    match a
    case Poll(_, t, e, dropped) => (s.entries - dropped)[t := e]
    case FenceOwn(p) =>
      var t := s.procs[p].taskId;
      if t in s.entries then s.entries[t := s.entries[t].(fenced := true)] else s.entries
    case Forget(p) => s.entries - {s.procs[p].taskId}
    case FreeForget(p) => s.entries - {s.procs[p].taskId}
    case Take(p) => if Takes(s, s.procs[p].ref) then s.entries - {s.procs[p].ref.taskId} else s.entries
    case Drop(t) => s.entries - {t}
    case Amend(t, e) => s.entries[t := e]
    case _ => s.entries
  }

  function HolderAfter(s: Bridge, a: Action): map<Identity, nat>
    requires Enabled(s, a)
  {
    match a
    case Lock(p) => s.holder[Wanted(s.procs[p]).value := p]
    case Unlock(p) => s.holder - {Held(s.procs[p]).value}
    case _ => s.holder
  }

  /** What the step does outside: a publish, a settlement, or handing a polled task out. */
  function EffectOf(s: Bridge, a: Action): Option<Effect>
    requires Enabled(s, a)
  {
    match a
    case Poll(p, _, e, _) => if e.conn.None? then Some(Handed(p, e.msg)) else None
    case CheckClosed(p) => if s.procs[p].conn !in s.closed then Some(Handed(p, s.procs[p].msg)) else None
    case CheckRelease(p) => if s.procs[p].conn !in s.releasing then Some(Handed(p, s.procs[p].msg)) else None
    case FindClaim(p) => if ConnPc(s, a, s.procs[p]).Done? then Some(Handed(p, s.procs[p].msg)) else None
    case Publish(p) => Some(Published(p, s.procs[p].msg))
    case Settle(p) => Some(if s.procs[p].Announced? then Acked(p, s.procs[p].msg) else Paused(p, s.procs[p].msg))
    case Withdraw(p, acked) => if acked then Some(Withdrawn(p, s.procs[p].msg)) else None
    case Nak(p, ok) => if ok then Some(Released(p, s.procs[p].ref.msg, s.procs[p].conn)) else None
    case Unlock(p) =>
      var pc := s.procs[p];
      if pc.Freed? && pc.poll.Some? && !pc.took then Some(Handed(p, pc.poll.value)) else None
    case FreeAck(p, acked) => if acked then Some(FreeAcked(p, s.procs[p].msg)) else None
    case _ => None
  }

  function ReleasingAfter(s: Bridge, a: Action): set<Identity> {
    match a
    case Close(_, c, owned) => if owned then s.releasing + {c} else s.releasing - {c}
    case _ => s.releasing
  }

  /** The state after one atomic step. */
  function Do(s: Bridge, a: Action): Bridge
    requires Enabled(s, a)
  {
    Bridge(
      EntriesAfter(s, a),
      if a.Poll? then s.stored[a.entry.msg := Origin(a.taskId, a.entry.lock, a.entry.conn)] else s.stored,
      HolderAfter(s, a),
      if Actor(a).Some? then s.procs[a.p := PcAfter(s, a)] else s.procs,
      ReleasingAfter(s, a),
      if a.MarkClosed? then s.closed + {s.procs[a.p].conn} else s.closed,
      if a.Close? then s.closing + {a.conn} else s.closing,
      if EffectOf(s, a).Some? then s.log + [EffectOf(s, a).value] else s.log)
  }

  /** The state after a sequence of steps, each enabled when its turn comes. */
  ghost predicate Runs(s: Bridge, actions: seq<Action>, s': Bridge)
    decreases |actions|
  {
    if actions == [] then s' == s
    else Enabled(s, actions[0]) && Runs(Do(s, actions[0]), actions[1..], s')
  }

  // ---------------------------------------------------------------- settlements

  /** A settlement made while holding the claim's mutex. */
  predicate Settles(e: Effect, msg: Identity) {
    !e.Published? && !e.Handed? && !e.FreeAcked? && e.msg == msg
  }

  function Settlements(log: seq<Effect>, msg: Identity): nat {
    if log == [] then 0 else Settlements(log[..|log| - 1], msg) + if Settles(log[|log| - 1], msg) then 1 else 0
  }

  lemma SettlementsAfter(log: seq<Effect>, e: Effect, msg: Identity)
    ensures Settlements(log + [e], msg) == Settlements(log, msg) + if Settles(e, msg) then 1 else 0
  {
    assert (log + [e])[..|log|] == log;
  }

  // ---------------------------------------------------------------- invariants

  /** Messages keep their task, mutex and connection; no two share a mutex. */
  ghost predicate Origins(s: Bridge) {
    && (forall t | t in s.entries ::
          s.entries[t].msg in s.stored && s.stored[s.entries[t].msg] == Origin(t, s.entries[t].lock, s.entries[t].conn))
    && (forall m, n | m in s.stored && n in s.stored && s.stored[m].lock == s.stored[n].lock :: m == n)
  }

  predicate InMap(s: Bridge, msg: Identity) {
    msg in s.stored && Current(s, s.stored[msg].taskId, msg)
  }

  /** The connection closed and its claims are to be released. */
  predicate ToRelease(s: Bridge, conn: Identity) {
    conn in s.closed && conn in s.releasing
  }

  predicate RefOk(s: Bridge, conn: Identity, ref: ClaimRef) {
    ref.msg in s.stored && s.stored[ref.msg] == Origin(ref.taskId, ref.lock, Some(conn))
  }

  ghost predicate TodoOk(s: Bridge, conn: Identity, todo: seq<ClaimRef>) {
    forall i | 0 <= i < |todo| :: RefOk(s, conn, todo[i])
  }

  /** A resolve's target: while that delivery is in the map, the mutex it aims for is that delivery's. */
  predicate Aimed(s: Bridge, taskId: string, msg: Identity, lock: Identity) {
    msg in s.stored && s.stored[msg].taskId == taskId && (InMap(s, msg) ==> lock == s.stored[msg].lock)
  }

  predicate Owns(s: Bridge, taskId: string, msg: Identity, lock: Identity) {
    msg in s.stored && s.stored[msg].taskId == taskId && lock == s.stored[msg].lock
  }

  /** What a handler knows at each point, given the shared state. */
  ghost predicate PcOk(s: Bridge, p: nat, pc: Pc) {
    match pc
    case Loaded(t, m, _) => m in s.stored && s.stored[m].taskId == t
    case Checked(t, m, _) => m in s.stored && s.stored[m].taskId == t
    case Aiming(t, m, _, l) => Aimed(s, t, m, l)
    case Locked(t, m, _, l) => Aimed(s, t, m, l)
    case Passed(t, m, _, l) => Owns(s, t, m, l) && Settlements(s.log, m) == 0
    case Announced(t, m, l) => Owns(s, t, m, l) && Settlements(s.log, m) == 0 && Published(p, m) in s.log
    case Settling(t, m, l) => Owns(s, t, m, l)
    case FreeLoaded(t, m) => m in s.stored && s.stored[m].taskId == t
    case FreeChecked(t, m) => m in s.stored && s.stored[m].taskId == t
    case Stored(t, m, c) => m in s.stored && s.stored[m].taskId == t && s.stored[m].conn == Some(c)
    case SawClosed(t, m, c) => m in s.stored && s.stored[m].taskId == t && s.stored[m].conn == Some(c) && c in s.closed
    case SawRelease(t, m, c) => m in s.stored && s.stored[m].taskId == t && s.stored[m].conn == Some(c) &&
      ToRelease(s, c)
    case Flagging(c, owned) => c in s.closing && (owned <==> c in s.releasing) && c !in s.closed
    case Collecting(c) => ToRelease(s, c)
    case Going(c, todo, _) => ToRelease(s, c) && TodoOk(s, c, todo)
    case Waiting(c, ref, todo, _) => ToRelease(s, c) && RefOk(s, c, ref) && TodoOk(s, c, todo)
    case Holding(c, ref, todo, _) => ToRelease(s, c) && RefOk(s, c, ref) && TodoOk(s, c, todo)
    case Taken(c, ref, todo, _) =>
      ToRelease(s, c) && RefOk(s, c, ref) && TodoOk(s, c, todo) && Settlements(s.log, ref.msg) == 0 &&
        !InMap(s, ref.msg)
    case Freed(c, ref, todo, _, _) => ToRelease(s, c) && RefOk(s, c, ref) && TodoOk(s, c, todo)
    case _ => true
  }

  ghost predicate Procs(s: Bridge) {
    forall p | p in s.procs :: PcOk(s, p, s.procs[p])
  }

  /** A mutex has one holder, and it is the handler that thinks so. */
  ghost predicate Mutexes(s: Bridge) {
    HeldBy(s.holder, s.procs)
  }

  ghost predicate HeldBy(holder: map<Identity, nat>, procs: map<nat, Pc>) {
    && (forall p | p in procs && Held(procs[p]).Some? ::
         Held(procs[p]).value in holder && holder[Held(procs[p]).value] == p)
    && (forall l | l in holder :: holder[l] in procs && Held(procs[holder[l]]) == Some(l))
  }

  predicate BeingForgotten(s: Bridge, msg: Identity) {
    && msg in s.stored && s.stored[msg].lock in s.holder && s.holder[s.stored[msg].lock] in s.procs
    && var pc := s.procs[s.holder[s.stored[msg].lock]];
       pc.Settling? && pc.msg == msg
  }

  /** Settled at most once; a settled delivery is out of the map, or its settler is about to take it out. */
  ghost predicate OnceEach(s: Bridge) {
    forall m :: Settlements(s.log, m) <= 1
      && (Settlements(s.log, m) == 1 ==> m in s.stored && (InMap(s, m) ==> BeingForgotten(s, m)))
  }

  ghost predicate Closings(s: Bridge) {
    && s.closed <= s.closing
    && (forall p, q | p in s.procs && q in s.procs && s.procs[p].Flagging? && s.procs[q].Flagging? &&
         s.procs[p].conn == s.procs[q].conn :: p == q)
  }

  /** Every Ack of a publishing resolve follows its own successful publish; releases stay with their connection. */
  ghost predicate LogOk(s: Bridge) {
    && (forall i | 0 <= i < |s.log| && s.log[i].Acked? :: Published(s.log[i].who, s.log[i].msg) in s.log[..i])
    && (forall i | 0 <= i < |s.log| && s.log[i].Released? ::
          s.log[i].msg in s.stored && s.stored[s.log[i].msg].conn == Some(s.log[i].conn) && ToRelease(s, s.log[i].conn))
  }

  ghost predicate Safe(s: Bridge) {
    Origins(s) && Procs(s) && Mutexes(s) && OnceEach(s) && Closings(s) && LogOk(s)
  }

  // ---------------------------------------------------------------- what a step leaves alone

  /** Shared state only ever gains messages, effects and flags, and loses map entries. */
  ghost predicate Grows(s: Bridge, s': Bridge) {
    && (forall m | m in s.stored :: m in s'.stored && s'.stored[m] == s.stored[m])
    && (forall m | m in s.stored && InMap(s', m) :: InMap(s, m))
    && s.log <= s'.log
    && s.closed <= s'.closed && s.closing <= s'.closing
    && (forall c | c in s.closing :: c in s.releasing <==> c in s'.releasing)
  }

  /** Only a poll adds an entry; any other step leaves each remaining entry's delivery, mutex and connection. */
  lemma EntriesTraced(s: Bridge, a: Action, t: string)
    requires Enabled(s, a) && !a.Poll? && t in EntriesAfter(s, a)
    ensures t in s.entries
    ensures var e := EntriesAfter(s, a)[t];
            e.msg == s.entries[t].msg && e.lock == s.entries[t].lock && e.conn == s.entries[t].conn &&
              (s.entries[t].fenced ==> e.fenced)
  {
    hide PcAfter, HolderAfter, EffectOf;
  }

  lemma StepGrows(s: Bridge, a: Action)
    requires Enabled(s, a)
    ensures Grows(s, Do(s, a))
  {
    hide PcAfter, HolderAfter, EffectOf, EntriesAfter, Follows;
    var s' := Do(s, a);
    forall m | m in s.stored && InMap(s', m) ensures InMap(s, m) {
      var t := s.stored[m].taskId;
      if a.Poll? { PolledEntries(s, a); } else { EntriesTraced(s, a, t); }
    }
  }

  lemma PolledEntries(s: Bridge, a: Action)
    requires Enabled(s, a) && a.Poll?
    ensures EntriesAfter(s, a) == (s.entries - a.dropped)[a.taskId := a.entry]
  {
  }

  /** The delivery a handler is entitled to settle. */
  function Entitled(pc: Pc): Option<Identity> {
    match pc
    case Passed(_, m, _, _) => Some(m)
    case Announced(_, m, _) => Some(m)
    case Taken(_, ref, _, _) => Some(ref.msg)
    case _ => None
  }

  lemma EntitledHolds(s: Bridge, p: nat)
    requires Procs(s) && Mutexes(s) && p in s.procs && Entitled(s.procs[p]).Some?
    ensures var m := Entitled(s.procs[p]).value;
            m in s.stored && s.stored[m].lock in s.holder && s.holder[s.stored[m].lock] == p &&
              Settlements(s.log, m) == 0
  {
    hide Settlements;
    assert PcOk(s, p, s.procs[p]);
  }

  lemma EffectSettles(s: Bridge, a: Action, m: Identity)
    requires Enabled(s, a) && EffectOf(s, a).Some? && Settles(EffectOf(s, a).value, m)
    ensures a.Settle? || a.Withdraw? || a.Nak?
    ensures a.p in s.procs && Entitled(s.procs[a.p]) == Some(m)
  {
    hide PcAfter, HolderAfter, EntriesAfter, ConnPc;
  }

  /** A step settles nothing, or its actor settles the delivery it is entitled to. */
  lemma StepSettles(s: Bridge, a: Action, m: Identity)
    requires Enabled(s, a)
    ensures Settlements(Do(s, a).log, m) == Settlements(s.log, m) ||
            (Settlements(Do(s, a).log, m) == Settlements(s.log, m) + 1 && (a.Settle? || a.Withdraw? || a.Nak?) &&
             a.p in s.procs && Entitled(s.procs[a.p]) == Some(m) && EffectOf(s, a).Some?)
  {
    hide PcAfter, HolderAfter, EffectOf, EntriesAfter, Follows, Allowed, Settlements, Entitled;
    if EffectOf(s, a).Some? {
      var e := EffectOf(s, a).value;
      SettlementsAfter(s.log, e, m);
      if Settles(e, m) { EffectSettles(s, a, m); }
    }
  }

  lemma OthersUnmoved(s: Bridge, a: Action, q: nat)
    requires Enabled(s, a) && Actor(a) != Some(q)
    ensures q in Do(s, a).procs <==> q in s.procs
    ensures q in s.procs ==> Do(s, a).procs[q] == s.procs[q]
  {
    hide PcAfter, HolderAfter, EffectOf, EntriesAfter, Follows, Allowed;
  }

  lemma OthersKeepCounts(s: Bridge, a: Action, q: nat)
    requires Procs(s) && Mutexes(s) && Enabled(s, a) && q in s.procs && Actor(a) != Some(q)
    requires Entitled(s.procs[q]).Some?
    ensures Settlements(Do(s, a).log, Entitled(s.procs[q]).value) == 0
  {
    hide Do, Enabled, PcOk, Procs, Mutexes, Settlements, Entitled;
    var m := Entitled(s.procs[q]).value;
    EntitledHolds(s, q);
    StepSettles(s, a, m);
    if Settlements(Do(s, a).log, m) != 0 { EntitledHolds(s, a.p); }
  }

  lemma OthersStayUnclosed(s: Bridge, a: Action, q: nat)
    requires Enabled(s, a) && Procs(s) && Closings(s) && Actor(a) != Some(q) && q in s.procs && s.procs[q].Flagging?
    ensures s.procs[q].conn !in Do(s, a).closed
  {
    hide PcAfter, HolderAfter, EffectOf, EntriesAfter, Settlements;
    assert PcOk(s, q, s.procs[q]);
  }

  /** A handler that did not move still knows what it knew. */
  lemma OthersOk(s: Bridge, a: Action, q: nat)
    requires Procs(s) && Mutexes(s) && Closings(s) && Enabled(s, a) && q in s.procs && Actor(a) != Some(q)
    ensures PcOk(Do(s, a), q, s.procs[q])
  {
    hide Do, Enabled, Mutexes, Settlements, InMap;
    StepGrows(s, a);
    assert PcOk(s, q, s.procs[q]);
    hide Procs;
    var s' := Do(s, a);
    if Entitled(s.procs[q]).Some? { OthersKeepCounts(s, a, q); }
    if s.procs[q].Flagging? { OthersStayUnclosed(s, a, q); }
    if s.procs[q].Announced? { assert Published(q, s.procs[q].msg) in s'.log; }
  }

  // ---------------------------------------------------------------- one step keeps the invariants

  lemma OriginsKept(s: Bridge, a: Action)
    requires Origins(s) && Enabled(s, a)
    ensures Origins(Do(s, a))
  {
    hide PcAfter, HolderAfter, EffectOf, EntriesAfter, Follows;
    var s' := Do(s, a);
    forall t | t in s'.entries
      ensures s'.entries[t].msg in s'.stored &&
          s'.stored[s'.entries[t].msg] == Origin(t, s'.entries[t].lock, s'.entries[t].conn)
    {
      if a.Poll? { PolledEntries(s, a); } else { EntriesTraced(s, a, t); }
    }
  }

  /** Nobody else can be forgetting the delivery whose mutex this handler holds. */
  lemma HolderFindsUnsettled(s: Bridge, p: nat, m: Identity)
    requires Mutexes(s) && OnceEach(s) && p in s.procs && !s.procs[p].Settling?
    requires InMap(s, m) && Held(s.procs[p]) == Some(s.stored[m].lock)
    ensures Settlements(s.log, m) == 0
  {
    hide Settlements;
    assert !BeingForgotten(s, m);
  }

  /** What a handler's next point needs, evaluated before the step. */
  lemma ResolveStepKnows(s: Bridge, a: Action, pc: Pc)
    requires Origins(s) && Enabled(s, a) && Actor(a).Some? && !Starts(a) && !ConnStep(a) && !ReleaseStep(a) &&
        pc == s.procs[a.p]
    requires PcOk(s, a.p, pc) && (a.Reload? && InMap(s, pc.msg) ==> Settlements(s.log, pc.msg) == 0)
    ensures var pc' := ResolvePc(s, a, pc);
            pc'.Announced? || PcOk(s, a.p, pc')
    ensures ResolvePc(s, a, pc).Announced? ==>
              a.Publish? && Owns(s, pc.taskId, pc.msg, pc.lock) && Settlements(s.log, pc.msg) == 0
  {
    hide PcAfter, HolderAfter, EffectOf, EntriesAfter, Settlements, TodoOk;
  }

  lemma ConnStepKnows(s: Bridge, a: Action, pc: Pc)
    requires Origins(s) && Enabled(s, a) && ConnStep(a) && !a.MarkClosed? && pc == s.procs[a.p] && PcOk(s, a.p, pc)
    ensures PcOk(s, a.p, ConnPc(s, a, pc))
  {
    hide PcAfter, HolderAfter, EffectOf, EntriesAfter, Settlements;
    if a.Collect? {
      forall i | 0 <= i < |a.todo| ensures RefOk(s, pc.conn, a.todo[i]) {
        assert a.todo[i] in a.todo;
        assert IsClaim(s.entries, pc.conn, a.todo[i]);
      }
    }
  }

  lemma FirstRefOk(s: Bridge, c: Identity, todo: seq<ClaimRef>)
    requires todo != [] && TodoOk(s, c, todo)
    ensures RefOk(s, c, todo[0]) && TodoOk(s, c, todo[1..])
  {
    hide RefOk;
  }

  lemma ReleaseStepKnows(s: Bridge, a: Action, pc: Pc)
    requires Enabled(s, a) && ReleaseStep(a) && !a.Take? && pc == s.procs[a.p] && PcOk(s, a.p, pc)
    ensures PcOk(s, a.p, ReleasePc(s, a, pc))
  {
    hide PcAfter, HolderAfter, EffectOf, EntriesAfter, Settlements, TodoOk, RefOk, Aimed, Owns;
    if a.NextRef? && pc.todo != [] { FirstRefOk(s, pc.conn, pc.todo); }
  }

  /** What is known before the step stays known after it, if the step settles nothing of the handler's. */
  lemma KnownAfter(s: Bridge, s': Bridge, p: nat, pc: Pc)
    requires Grows(s, s') && s.closed <= s.closing && PcOk(s, p, pc) && !pc.Flagging?
    requires Entitled(pc).Some? ==> Settlements(s'.log, Entitled(pc).value) == Settlements(s.log, Entitled(pc).value)
    ensures PcOk(s', p, pc)
  {
    hide Settlements, InMap;
    if pc.Announced? { assert Published(p, pc.msg) in s'.log; }
  }

  lemma NewcomerOk(s: Bridge, a: Action)
    requires Safe(s) && Enabled(s, a) && Starts(a)
    ensures PcOk(Do(s, a), a.p, PcAfter(s, a))
  {
    hide Procs, Mutexes, OnceEach, LogOk, HolderAfter, EffectOf, Settlements, EntriesAfter;
  }

  lemma TakerOk(s: Bridge, a: Action)
    requires Safe(s) && Enabled(s, a) && a.Take?
    ensures PcOk(Do(s, a), a.p, PcAfter(s, a))
  {
    hide Origins, Mutexes, OnceEach, Closings, LogOk, Settlements, TodoOk, Allowed;
    var pc := s.procs[a.p];
    assert PcOk(s, a.p, pc);
    hide Procs;
    TodoKept(s, Do(s, a), pc.conn, pc.todo);
    if Takes(s, pc.ref) { HolderFindsUnsettled(s, a.p, pc.ref.msg); }
  }

  lemma CloserOk(s: Bridge, a: Action)
    requires Safe(s) && Enabled(s, a) && a.MarkClosed?
    ensures PcOk(Do(s, a), a.p, PcAfter(s, a))
  {
    hide Origins, Mutexes, OnceEach, Closings, LogOk, Settlements, TodoOk, Allowed, HolderAfter, EffectOf, EntriesAfter;
    assert PcOk(s, a.p, s.procs[a.p]);
  }

  lemma TodoKept(s: Bridge, s': Bridge, c: Identity, todo: seq<ClaimRef>)
    requires TodoOk(s, c, todo) && s'.stored == s.stored
    ensures TodoOk(s', c, todo)
  {
  }

  lemma PublisherOk(s: Bridge, a: Action)
    requires Enabled(s, a) && a.Publish? && Owns(s, s.procs[a.p].taskId, s.procs[a.p].msg, s.procs[a.p].lock)
    requires Settlements(s.log, s.procs[a.p].msg) == 0
    ensures PcOk(Do(s, a), a.p, PcAfter(s, a))
  {
    var m := s.procs[a.p].msg;
    SettlementsAfter(s.log, Published(a.p, m), m);
  }

  lemma ResolverOk(s: Bridge, a: Action)
    requires Safe(s) && Enabled(s, a) && Actor(a).Some? && !Starts(a) && !ConnStep(a) && !ReleaseStep(a)
    ensures PcOk(Do(s, a), a.p, PcAfter(s, a))
  {
    hide PcOk, Origins, Mutexes, OnceEach, LogOk, Settlements, HolderAfter, EffectOf, EntriesAfter, Allowed, Do;
    var pc := s.procs[a.p];
    assert PcOk(s, a.p, pc);
    hide Procs;
    if a.Reload? && InMap(s, pc.msg) { ReloaderHolds(s, a); }
    ResolveStepKnows(s, a, pc);
    if a.Publish? {
      PublisherOk(s, a);
    } else {
      StepGrows(s, a);
      var pc' := ResolvePc(s, a, pc);
      if Entitled(pc').Some? { StepSettles(s, a, Entitled(pc').value); }
      KnownAfter(s, Do(s, a), a.p, pc');
    }
  }

  /** The reload check: a resolve that passes it holds the mutex of the very claim it loaded. */
  lemma ReloaderHolds(s: Bridge, a: Action)
    requires Safe(s) && Enabled(s, a) && a.Reload? && InMap(s, s.procs[a.p].msg)
    ensures s.procs[a.p].lock == s.stored[s.procs[a.p].msg].lock && Settlements(s.log, s.procs[a.p].msg) == 0
  {
    hide Origins, Mutexes, OnceEach, Closings, LogOk, Settlements, Allowed;
    assert PcOk(s, a.p, s.procs[a.p]);
    HolderFindsUnsettled(s, a.p, s.procs[a.p].msg);
  }

  lemma ActorOk(s: Bridge, a: Action)
    requires Safe(s) && Enabled(s, a) && Actor(a).Some?
    ensures PcOk(Do(s, a), a.p, PcAfter(s, a))
  {
    hide PcOk, Origins, Mutexes, OnceEach, LogOk, Settlements, HolderAfter, EffectOf, EntriesAfter, Allowed, Do,
      ResolvePc, ConnPc, ReleasePc, StartPc, Follows;
    if Starts(a) {
      NewcomerOk(s, a);
    } else if a.Take? {
      TakerOk(s, a);
    } else if a.MarkClosed? {
      CloserOk(s, a);
    } else if !ConnStep(a) && !ReleaseStep(a) {
      ResolverOk(s, a);
    } else {
      var pc := s.procs[a.p];
      assert PcOk(s, a.p, pc);
      if ConnStep(a) { ConnStepKnows(s, a, pc); } else { ReleaseStepKnows(s, a, pc); }
      StepGrows(s, a);
      NotEntitling(s, a, pc);
      KnownAfter(s, Do(s, a), a.p, PcAfter(s, a));
    }
  }

  lemma NotEntitling(s: Bridge, a: Action, pc: Pc)
    requires Enabled(s, a) && !Starts(a) && (ConnStep(a) || ReleaseStep(a)) && !a.Take? && pc == s.procs[a.p]
    ensures Entitled(PcAfter(s, a)).None? && !PcAfter(s, a).Flagging?
  {
    hide HolderAfter, EffectOf, EntriesAfter, Allowed;
  }

  lemma ProcsKept(s: Bridge, a: Action)
    requires Safe(s) && Enabled(s, a)
    ensures Procs(Do(s, a))
  {
    hide PcOk, Do, Enabled, Origins, Mutexes, OnceEach, Closings, LogOk, PcAfter;
    var s' := Do(s, a);
    forall q | q in s'.procs ensures PcOk(s', q, s'.procs[q]) {
      if Actor(a) == Some(q) {
        ActorOk(s, a);
        ActorMoves(s, a);
      } else {
        OthersUnmoved(s, a, q);
        OthersOk(s, a, q);
      }
    }
  }

  lemma ActorMoves(s: Bridge, a: Action)
    requires Enabled(s, a) && Actor(a).Some?
    ensures a.p in Do(s, a).procs && Do(s, a).procs[a.p] == PcAfter(s, a)
  {
    hide PcAfter, HolderAfter, EffectOf, EntriesAfter, Allowed;
  }

  lemma ActorKeepsMutex(s: Bridge, a: Action)
    requires Enabled(s, a) && !a.Lock? && !a.Unlock? && Actor(a).Some?
    ensures Held(PcAfter(s, a)) == if a.p in s.procs then Held(s.procs[a.p]) else None
  {
    hide EffectOf, EntriesAfter, HolderAfter;
  }

  lemma MoveKeepsMutexes(holder: map<Identity, nat>, procs: map<nat, Pc>, p: nat, pc: Pc)
    requires HeldBy(holder, procs) && Held(pc) == if p in procs then Held(procs[p]) else None
    ensures HeldBy(holder, procs[p := pc])
  {
    hide Held;
  }

  lemma LockKeepsMutexes(holder: map<Identity, nat>, procs: map<nat, Pc>, p: nat, pc: Pc, l: Identity)
    requires HeldBy(holder, procs) && p in procs && Held(procs[p]).None? && l !in holder && Held(pc) == Some(l)
    ensures HeldBy(holder[l := p], procs[p := pc])
  {
    hide Held;
  }

  lemma UnlockKeepsMutexes(holder: map<Identity, nat>, procs: map<nat, Pc>, p: nat, pc: Pc)
    requires HeldBy(holder, procs) && p in procs && Held(procs[p]).Some? && Held(pc).None?
    ensures HeldBy(holder - {Held(procs[p]).value}, procs[p := pc])
  {
    hide Held;
  }

  lemma MutexesKept(s: Bridge, a: Action)
    requires Mutexes(s) && Enabled(s, a)
    ensures Mutexes(Do(s, a))
  {
    hide PcAfter, EffectOf, EntriesAfter, Follows, Allowed, Held, Wanted, HeldBy;
    if a.Lock? {
      LockTakes(s, a);
      LockKeepsMutexes(s.holder, s.procs, a.p, PcAfter(s, a), Wanted(s.procs[a.p]).value);
    } else if a.Unlock? {
      UnlockGives(s, a);
      UnlockKeepsMutexes(s.holder, s.procs, a.p, PcAfter(s, a));
    } else if Actor(a).Some? {
      ActorKeepsMutex(s, a);
      MoveKeepsMutexes(s.holder, s.procs, a.p, PcAfter(s, a));
    }
  }

  lemma LockTakes(s: Bridge, a: Action)
    requires Enabled(s, a) && a.Lock?
    ensures a.p in s.procs && Held(s.procs[a.p]).None? && Wanted(s.procs[a.p]).Some? &&
        Held(PcAfter(s, a)) == Wanted(s.procs[a.p])
    ensures Wanted(s.procs[a.p]).value !in s.holder
  {
    hide EffectOf, EntriesAfter, HolderAfter;
  }

  lemma UnlockGives(s: Bridge, a: Action)
    requires Enabled(s, a) && a.Unlock?
    ensures a.p in s.procs && Held(s.procs[a.p]).Some? && Held(PcAfter(s, a)).None?
  {
    hide EffectOf, EntriesAfter, HolderAfter;
  }

  /** After its settlement the actor is about to forget the delivery, or has already taken it out of the map. */
  lemma SettlerForgets(s: Bridge, a: Action, m: Identity)
    requires Safe(s) && Enabled(s, a) && (a.Settle? || a.Withdraw? || a.Nak?) && Entitled(s.procs[a.p]) == Some(m)
    ensures m in Do(s, a).stored && (InMap(Do(s, a), m) ==> BeingForgotten(Do(s, a), m))
  {
    hide Origins, Mutexes, OnceEach, Closings, LogOk, Settlements, EffectOf, Allowed, EntriesAfter;
    EntitledHolds(s, a.p);
    assert PcOk(s, a.p, s.procs[a.p]);
    hide Procs;
    StepGrows(s, a);
  }

  lemma HolderStays(s: Bridge, a: Action, q: nat, l: Identity)
    requires Mutexes(s) && Enabled(s, a) && Actor(a) != Some(q) && l in s.holder && s.holder[l] == q
    ensures l in Do(s, a).holder && Do(s, a).holder[l] == q
  {
    hide PcAfter, EffectOf, EntriesAfter;
  }

  /** A settler's only next step is to forget its delivery, and then it is out of the map. */
  lemma SettlerMoves(s: Bridge, a: Action, m: Identity)
    requires Enabled(s, a) && Actor(a).Some? && a.p in s.procs && s.procs[a.p].Settling? && s.procs[a.p].msg == m
    requires Owns(s, s.procs[a.p].taskId, m, s.procs[a.p].lock)
    ensures !InMap(Do(s, a), m)
  {
    hide PcAfter, HolderAfter, EffectOf;
  }

  /** A delivery being forgotten stays so until it is out of the map. */
  lemma ForgettingKept(s: Bridge, a: Action, m: Identity)
    requires Safe(s) && Enabled(s, a) && BeingForgotten(s, m)
    ensures InMap(Do(s, a), m) ==> BeingForgotten(Do(s, a), m)
  {
    hide Origins, Mutexes, OnceEach, Closings, LogOk, Settlements, Do, Enabled, InMap;
    var l := s.stored[m].lock;
    var q := s.holder[l];
    StepGrows(s, a);
    assert PcOk(s, q, s.procs[q]);
    hide Procs;
    if Actor(a) == Some(q) {
      SettlerMoves(s, a, m);
    } else {
      OthersUnmoved(s, a, q);
      HolderStays(s, a, q, l);
    }
  }

  lemma OnceEachKept(s: Bridge, a: Action)
    requires Safe(s) && Enabled(s, a)
    ensures OnceEach(Do(s, a))
  {
    hide Origins, Procs, Mutexes, Closings, LogOk, Settlements, Do, Enabled, InMap, BeingForgotten, Entitled;
    var s' := Do(s, a);
    StepGrows(s, a);
    forall m ensures Settlements(s'.log, m) <= 1
      ensures Settlements(s'.log, m) == 1 ==> m in s'.stored && (InMap(s', m) ==> BeingForgotten(s', m))
    {
      StepSettles(s, a, m);
      if Settlements(s'.log, m) == Settlements(s.log, m) + 1 {
        EntitledHolds(s, a.p);
        SettlerForgets(s, a, m);
      } else if BeingForgotten(s, m) {
        ForgettingKept(s, a, m);
      }
    }
  }

  lemma ClosingsKept(s: Bridge, a: Action)
    requires Closings(s) && Procs(s) && Enabled(s, a)
    ensures Closings(Do(s, a))
  {
    hide PcAfter, HolderAfter, EffectOf, EntriesAfter, Settlements;
    var s' := Do(s, a);
    forall q | q in s.procs && s.procs[q].Flagging?
      ensures s.procs[q].conn in s.closing { assert PcOk(s, q, s.procs[q]); }
    if Actor(a).Some? { OnlyClosesFlag(s, a); }
    hide Procs;
  }

  lemma OnlyClosesFlag(s: Bridge, a: Action)
    requires Enabled(s, a) && Actor(a).Some?
    ensures PcAfter(s, a).Flagging? ==> a.Close? && PcAfter(s, a).conn == a.conn
  {
    hide HolderAfter, EffectOf, EntriesAfter;
  }

  lemma LogKept(s: Bridge, a: Action)
    requires LogOk(s) && Procs(s) && Closings(s) && Enabled(s, a)
    ensures LogOk(Do(s, a))
  {
    hide PcAfter, HolderAfter, EntriesAfter, EffectOf, Settlements, Allowed;
    var s' := Do(s, a);
    StepGrows(s, a);
    if EffectOf(s, a).Some? { EffectOk(s, a); }
    hide Procs;
    forall i | 0 <= i < |s'.log| && s'.log[i].Acked? ensures Published(s'.log[i].who, s'.log[i].msg) in s'.log[..i] {
      if i < |s.log| { assert s'.log[..i] == s.log[..i]; } else { assert s'.log[..i] == s.log; }
    }
  }

  lemma EffectOk(s: Bridge, a: Action)
    requires Procs(s) && Enabled(s, a) && EffectOf(s, a).Some?
    ensures var e := EffectOf(s, a).value;
            && (e.Acked? ==> Published(e.who, e.msg) in s.log)
            && (e.Released? ==> e.msg in s.stored && s.stored[e.msg].conn == Some(e.conn) && ToRelease(s, e.conn))
  {
    hide PcAfter, HolderAfter, EntriesAfter, Settlements, Allowed, ConnPc;
    if Actor(a).Some? && a.p in s.procs { assert PcOk(s, a.p, s.procs[a.p]); }
  }

  lemma StepKeepsSafe(s: Bridge, a: Action)
    requires Safe(s) && Enabled(s, a)
    ensures Safe(Do(s, a))
  {
    hide Origins, Procs, Mutexes, OnceEach, Closings, LogOk, Do, Enabled;
    OriginsKept(s, a);
    ProcsKept(s, a);
    MutexesKept(s, a);
    OnceEachKept(s, a);
    ClosingsKept(s, a);
    LogKept(s, a);
  }

  lemma InitiallySafe()
    ensures Safe(INITIAL)
  {
  }

  lemma {:induction false} RunKeepsSafe(s: Bridge, actions: seq<Action>, s': Bridge)
    requires Safe(s) && Runs(s, actions, s')
    ensures Safe(s')
    decreases |actions|
  {
    hide Safe, Do, Enabled;
    if actions != [] {
      StepKeepsSafe(s, actions[0]);
      RunKeepsSafe(Do(s, actions[0]), actions[1..], s');
    }
  }

  // ---------------------------------------------------------------- no orphans

  ghost predicate InTodo(todo: seq<ClaimRef>, msg: Identity) {
    exists i :: 0 <= i < |todo| && todo[i].msg == msg
  }

  /** The handler will still look at this claim of the connection. */
  ghost predicate Tends(pc: Pc, conn: Identity, msg: Identity) {
    match pc
    case Stored(_, m, c) => c == conn && m == msg
    case SawClosed(_, m, c) => c == conn && m == msg
    case SawRelease(_, m, c) => c == conn && m == msg
    case Collecting(c) => c == conn
    case Going(c, todo, _) => c == conn && InTodo(todo, msg)
    case Waiting(c, ref, todo, _) => c == conn && (ref.msg == msg || InTodo(todo, msg))
    case Holding(c, ref, todo, _) => c == conn && (ref.msg == msg || InTodo(todo, msg))
    case Taken(c, _, todo, _) => c == conn && InTodo(todo, msg)
    case Freed(c, _, todo, _, _) => c == conn && InTodo(todo, msg)
    case _ => false
  }

  ghost predicate Tended(s: Bridge, conn: Identity, msg: Identity) {
    exists p :: p in s.procs && Tends(s.procs[p], conn, msg)
  }

  /** An unfenced claim of a connection whose close releases its claims. */
  predicate Orphaned(s: Bridge, t: string, conn: Identity) {
    t in s.entries && s.entries[t].conn == Some(conn) && !s.entries[t].fenced && ToRelease(s, conn)
  }

  ghost predicate NoneLost(s: Bridge) {
    forall t, c | Orphaned(s, t, c) :: Tended(s, c, s.entries[t].msg)
  }

  /** The snapshot misses no claim of the connection. */
  lemma CollectTends(s: Bridge, todo: seq<ClaimRef>, t: string, c: Identity)
    requires Orphaned(s, t, c) && forall r :: r in todo <==> IsClaim(s.entries, c, r)
    ensures InTodo(todo, s.entries[t].msg)
  {
    var ref := ClaimRef(t, s.entries[t].msg, s.entries[t].lock);
    assert IsClaim(s.entries, c, ref);
    assert ref in todo;
  }

  lemma CheckStepTends(s: Bridge, a: Action, t: string, c: Identity)
    requires Origins(s) && Enabled(s, a) && ConnStep(a) && !a.Collect? && PcOk(s, a.p, s.procs[a.p])
    requires Orphaned(s, t, c) && Tends(s.procs[a.p], c, s.entries[t].msg)
    ensures Tends(ConnPc(s, a, s.procs[a.p]), c, s.entries[t].msg)
  {
    hide PcAfter, HolderAfter, EffectOf, EntriesAfter, Settlements, TodoOk, RefOk, Allowed, InTodo;
  }

  lemma ConnStepTends(s: Bridge, a: Action, t: string, c: Identity)
    requires Origins(s) && Enabled(s, a) && ConnStep(a) && PcOk(s, a.p, s.procs[a.p])
    requires Orphaned(s, t, c) && Tends(s.procs[a.p], c, s.entries[t].msg)
    ensures Tends(ConnPc(s, a, s.procs[a.p]), c, s.entries[t].msg)
  {
    hide PcAfter, HolderAfter, EffectOf, EntriesAfter, Origins, PcOk, InTodo, Orphaned;
    if a.Collect? {
      OrphanThere(s, t, c);
      CollectTends(s, a.todo, t, c);
    } else {
      CheckStepTends(s, a, t, c);
    }
  }

  lemma ReleaseStepTends(s: Bridge, a: Action, t: string, c: Identity)
    requires Enabled(s, a) && ReleaseStep(a) && !a.Take?
    requires Orphaned(s, t, c) && Tends(s.procs[a.p], c, s.entries[t].msg)
    ensures Tends(ReleasePc(s, a, s.procs[a.p]), c, s.entries[t].msg)
  {
    hide PcAfter, HolderAfter, EffectOf, InTodo, EntriesAfter, Allowed;
    if a.NextRef? { RestTends(s.procs[a.p].todo, s.entries[t].msg); }
  }

  /** A take that leaves a claim in place looked at another one. */
  lemma TakeTends(s: Bridge, a: Action, t: string, c: Identity)
    requires Origins(s) && Enabled(s, a) && a.Take? && PcOk(s, a.p, s.procs[a.p])
    requires Orphaned(s, t, c) && Tends(s.procs[a.p], c, s.entries[t].msg) && t in EntriesAfter(s, a)
    ensures Tends(ReleasePc(s, a, s.procs[a.p]), c, s.entries[t].msg)
  {
    hide PcAfter, HolderAfter, EffectOf, Settlements, TodoOk, InTodo, Allowed;
  }

  lemma RestTends(todo: seq<ClaimRef>, m: Identity)
    ensures InTodo(todo, m) ==> todo != [] && (todo[0].msg == m || InTodo(todo[1..], m))
  {
    if InTodo(todo, m) {
      var i :| 0 <= i < |todo| && todo[i].msg == m;
      if i > 0 { assert todo[1..][i - 1].msg == m; }
    }
  }

  lemma OnlyTheseTend(s: Bridge, a: Action, c: Identity, m: Identity)
    requires Enabled(s, a) && Actor(a).Some? && a.p in s.procs && Tends(s.procs[a.p], c, m)
    ensures ConnStep(a) || ReleaseStep(a)
  {
    hide InTodo, HolderAfter, EffectOf, EntriesAfter, Allowed;
  }

  /** A claim tended before the step, and still there after it, is still tended. */
  lemma StaysTended(s: Bridge, a: Action, t: string, c: Identity)
    requires Safe(s) && Enabled(s, a) && Orphaned(s, t, c) && Tended(s, c, s.entries[t].msg) && t in EntriesAfter(s, a)
    ensures Tended(Do(s, a), c, s.entries[t].msg)
  {
    hide Do, Enabled, Tends, Mutexes, OnceEach, LogOk, Closings, Origins, PcOk, EntriesAfter, Orphaned, ConnPc,
      ReleasePc, ResolvePc, StartPc;
    OrphanThere(s, t, c);
    var m := s.entries[t].msg;
    var p :| p in s.procs && Tends(s.procs[p], c, m);
    if Actor(a) != Some(p) {
      OthersUnmoved(s, a, p);
    } else {
      assert PcOk(s, p, s.procs[p]);
      hide Procs;
      OnlyTheseTend(s, a, c, m);
      NotStarting(s, a);
      if ConnStep(a) { ConnStepTends(s, a, t, c); } else if a.Take? { TakeTends(s, a, t, c); }
        else { ReleaseStepTends(s, a, t, c); }
      ActorMoves(s, a);
    }
  }

  lemma NotStarting(s: Bridge, a: Action)
    requires Enabled(s, a) && Actor(a).Some? && a.p in s.procs
    ensures !Starts(a)
  {
    hide Allowed, Follows;
  }

  /** A claim that becomes one to release in this step has someone to tend it. */
  lemma NewlyTended(s: Bridge, a: Action, t: string, c: Identity)
    requires Safe(s) && Enabled(s, a) && Orphaned(Do(s, a), t, c)
    requires (a.Poll? && t == a.taskId) || !Orphaned(s, t, c)
    ensures Tended(Do(s, a), c, Do(s, a).entries[t].msg)
  {
    hide Mutexes, OnceEach, LogOk, Origins, EffectOf, HolderAfter, Settlements, TodoOk, InTodo;
    var s' := Do(s, a);
    if a.Poll? && t == a.taskId {
      assert Tends(s'.procs[a.p], c, s'.entries[t].msg);
    } else {
      BecameOrphaned(s, a, t, c);
      assert PcOk(s, a.p, s.procs[a.p]);
      assert Tends(s'.procs[a.p], c, s'.entries[t].msg);
    }
  }

  lemma BecameOrphaned(s: Bridge, a: Action, t: string, c: Identity)
    requires Closings(s) && Enabled(s, a) && Orphaned(Do(s, a), t, c) && !Orphaned(s, t, c) &&
        !(a.Poll? && t == a.taskId)
    ensures a.MarkClosed? && s.procs[a.p].conn == c
  {
    hide PcAfter, HolderAfter, EffectOf, EntriesAfter;
    if a.Poll? { PolledEntries(s, a); } else { EntriesTraced(s, a, t); }
  }

  lemma NoneLostKept(s: Bridge, a: Action)
    requires Safe(s) && NoneLost(s) && Enabled(s, a)
    ensures NoneLost(Do(s, a))
  {
    hide Safe, Enabled, Tended, Orphaned, EntriesAfter, PcAfter, HolderAfter, EffectOf;
    var s' := Do(s, a);
    forall t, c | Orphaned(s', t, c) ensures t in s'.entries && Tended(s', c, s'.entries[t].msg) {
      OrphanThere(s', t, c);
      if Orphaned(s, t, c) && !(a.Poll? && t == a.taskId) {
        OrphanThere(s, t, c);
        if a.Poll? { PolledEntries(s, a); } else { EntriesTraced(s, a, t); }
        StaysTended(s, a, t, c);
      } else {
        NewlyTended(s, a, t, c);
      }
    }
  }

  lemma OrphanThere(s: Bridge, t: string, c: Identity)
    requires Orphaned(s, t, c)
    ensures t in s.entries
  {
  }

  // ---------------------------------------------------------------- every run of the bridge

  lemma {:induction false} RunLosesNone(s: Bridge, actions: seq<Action>, s': Bridge)
    requires Safe(s) && NoneLost(s) && Runs(s, actions, s')
    ensures NoneLost(s')
    decreases |actions|
  {
    hide Safe, NoneLost, Do, Enabled;
    if actions != [] {
      StepKeepsSafe(s, actions[0]);
      NoneLostKept(s, actions[0]);
      RunLosesNone(Do(s, actions[0]), actions[1..], s');
    }
  }

  /**
   In every reachable state, an unfenced claim of a connection that releases its
   claims has a handler yet to look at it.
   */
  lemma NoneEverLost(actions: seq<Action>, s: Bridge, t: string, c: Identity)
    requires Runs(INITIAL, actions, s) && Orphaned(s, t, c)
    ensures exists p :: p in s.procs && Tends(s.procs[p], c, s.entries[t].msg)
  {
    hide Tends;
    InitiallySafe();
    RunLosesNone(INITIAL, actions, s);
    assert Tended(s, c, s.entries[t].msg);
  }

  /** The connection a handler works for. */
  function WorksFor(pc: Pc): Option<Identity> {
    match pc
    case Stored(_, _, c) => Some(c)
    case SawClosed(_, _, c) => Some(c)
    case SawRelease(_, _, c) => Some(c)
    case Flagging(c, _) => Some(c)
    case Collecting(c) => Some(c)
    case Going(c, _, _) => Some(c)
    case Waiting(c, _, _, _) => Some(c)
    case Holding(c, _, _, _) => Some(c)
    case Taken(c, _, _, _) => Some(c)
    case Freed(c, _, _, _, _) => Some(c)
    case _ => None
  }

  /**
   Once a close that releases its claims and every poll of that connection are
   finished, in whatever order their steps fell, no unfenced claim of the
   connection is left.
   */
  lemma NoOrphans(actions: seq<Action>, s: Bridge, c: Identity)
    requires Runs(INITIAL, actions, s) && ToRelease(s, c)
    requires forall p | p in s.procs :: WorksFor(s.procs[p]) != Some(c)
    ensures forall t | t in s.entries && s.entries[t].conn == Some(c) :: s.entries[t].fenced
  {
    InitiallySafe();
    RunLosesNone(INITIAL, actions, s);
    forall t | t in s.entries && s.entries[t].conn == Some(c) ensures s.entries[t].fenced {
      assert !Orphaned(s, t, c);
    }
  }

  /** Over every run, no delivery is settled twice by resolves that end claims and by releases. */
  lemma SettledAtMostOnce(actions: seq<Action>, s: Bridge, m: Identity)
    requires Runs(INITIAL, actions, s)
    ensures Settlements(s.log, m) <= 1
  {
    InitiallySafe();
    RunKeepsSafe(INITIAL, actions, s);
  }

  /** A resolve past the reload check holds that very claim's mutex, and shares the delivery with no other settler. */
  lemma PassedHoldsItsClaim(actions: seq<Action>, s: Bridge, p: nat)
    requires Runs(INITIAL, actions, s) && p in s.procs && (s.procs[p].Passed? || s.procs[p].Announced?)
    ensures var pc := s.procs[p];
            && pc.msg in s.stored && s.stored[pc.msg].taskId == pc.taskId && s.stored[pc.msg].lock == pc.lock
            && pc.lock in s.holder && s.holder[pc.lock] == p
            && forall q | q in s.procs && Entitled(s.procs[q]) == Some(pc.msg) :: q == p
  {
    hide Settlements;
    InitiallySafe();
    RunKeepsSafe(INITIAL, actions, s);
    assert PcOk(s, p, s.procs[p]);
    forall q | q in s.procs && Entitled(s.procs[q]) == Some(s.procs[p].msg) ensures q == p { EntitledHolds(s, q); }
  }

  /** Complete, fail and continue ack only after their own event was published. */
  lemma AckFollowsPublish(actions: seq<Action>, s: Bridge, i: nat)
    requires Runs(INITIAL, actions, s) && i < |s.log| && s.log[i].Acked?
    ensures Published(s.log[i].who, s.log[i].msg) in s.log[..i]
  {
    hide Settlements;
    InitiallySafe();
    RunKeepsSafe(INITIAL, actions, s);
  }

  /** A release Naks only claims polled under its own connection, and only when that close releases claims. */
  lemma ReleasesStayInConnection(actions: seq<Action>, s: Bridge, i: nat)
    requires Runs(INITIAL, actions, s) && i < |s.log| && s.log[i].Released?
    ensures s.log[i].msg in s.stored && s.stored[s.log[i].msg].conn == Some(s.log[i].conn) &&
        ToRelease(s, s.log[i].conn)
  {
    hide Settlements;
    InitiallySafe();
    RunKeepsSafe(INITIAL, actions, s);
  }

  predicate IsRelease(e: Effect, m: Identity) {
    e.Released? && e.msg == m
  }

  ghost predicate ReleasedIn(log: seq<Effect>, m: Identity) {
    exists i :: 0 <= i < |log| && IsRelease(log[i], m)
  }

  /**
   The poll that stored m gives up on releasing it itself: it finds no claim of
   its connection at that task, or it ends a release that took nothing because
   the claim it had found was replaced, gone or fenced.
   */
  predicate GivesUp(s: Bridge, a: Action, p: nat, m: Identity) {
    && (a.FindClaim? || a.Unlock?) && a.p == p && p in s.procs
    && var pc := s.procs[p];
       if a.FindClaim?
       then pc.SawRelease? && pc.msg == m && pc.taskId !in ClaimedUnder(s.entries, pc.conn)
       else pc.Freed? && pc.poll == Some(m) && !pc.took
  }

  lemma HandedByChecks(s: Bridge, a: Action, p: nat, m: Identity)
    requires Procs(s) && Enabled(s, a) && EffectOf(s, a) == Some(Handed(p, m)) && !a.Poll? && !a.FindClaim? &&
        !a.Unlock?
    ensures m in s.stored && s.stored[m].conn.Some? && !ToRelease(s, s.stored[m].conn.value)
  {
    hide Settlements, PcAfter, HolderAfter, EntriesAfter, TodoOk, InMap, ConnPc, Allowed;
    assert PcOk(s, a.p, s.procs[a.p]);
  }

  /**
   A task already Nak'd by a release is handed out exactly when its poll gives
   up on releasing it; the flags the poll saw still say to release.
   */
  lemma HandsOutReleasedIff(actions: seq<Action>, s: Bridge, a: Action, p: nat, m: Identity)
    requires Runs(INITIAL, actions, s) && Enabled(s, a) && ReleasedIn(s.log, m)
    ensures EffectOf(s, a) == Some(Handed(p, m)) <==> GivesUp(s, a, p, m)
    ensures GivesUp(s, a, p, m) ==> WorksFor(s.procs[p]).Some? && ToRelease(s, WorksFor(s.procs[p]).value)
  {
    hide Settlements, PcAfter, HolderAfter, EntriesAfter, Origins, Mutexes, OnceEach, Closings, TodoOk, Runs, InMap;
    var i :| 0 <= i < |s.log| && IsRelease(s.log[i], m);
    ReleasesStayInConnection(actions, s, i);
    InitiallySafe();
    RunKeepsSafe(INITIAL, actions, s);
    if EffectOf(s, a) == Some(Handed(p, m)) && !a.Poll? && !a.FindClaim? && !a.Unlock? { HandedByChecks(s, a, p, m); }
    if GivesUp(s, a, p, m) { assert PcOk(s, p, s.procs[p]); }
  }

  // ---------------------------------------------------------------- cutting runs

  /** The last step of a run. */
  lemma {:induction false} RunsLast(s: Bridge, actions: seq<Action>, s': Bridge) returns (mid: Bridge)
    requires actions != [] && Runs(s, actions, s')
    ensures Runs(s, actions[..|actions| - 1], mid)
    ensures Enabled(mid, actions[|actions| - 1]) && Do(mid, actions[|actions| - 1]) == s'
    decreases |actions|
  {
    hide Do, Enabled;
    if |actions| == 1 {
      mid := s;
    } else {
      mid := RunsLast(Do(s, actions[0]), actions[1..], s');
      assert actions[..|actions| - 1][1..] == actions[1..][..|actions| - 2];
    }
  }

  lemma Cut(actions: seq<Action>, k: nat)
    requires 0 < k <= |actions|
    ensures actions[..k] != [] && actions[..k][0] == actions[0]
    ensures actions[..k][1..] == actions[1..][..k - 1] && actions[1..][k - 1..] == actions[k..]
  {
  }

  lemma RunsFirst(s: Bridge, actions: seq<Action>, s': Bridge)
    requires actions != [] && Runs(s, actions, s')
    ensures Enabled(s, actions[0]) && Runs(Do(s, actions[0]), actions[1..], s')
  {
    hide Do, Enabled;
  }

  /** The rest of a run from a state it passes through. */
  lemma {:induction false} RunsRest(s: Bridge, actions: seq<Action>, s': Bridge, k: nat, mid: Bridge)
    requires Runs(s, actions, s') && k <= |actions| && Runs(s, actions[..k], mid)
    ensures Runs(mid, actions[k..], s')
    decreases k
  {
    hide Do, Enabled;
    if k == 0 {
      assert actions[..0] == [] && actions[0..] == actions;
    } else {
      hide Runs;
      Cut(actions, k);
      RunsFirst(s, actions, s');
      RunsFirst(s, actions[..k], mid);
      RunsRest(Do(s, actions[0]), actions[1..], s', k - 1, mid);
    }
  }

  lemma {:induction false} LogGrows(s: Bridge, actions: seq<Action>, s': Bridge)
    requires Runs(s, actions, s')
    ensures s.log <= s'.log
    decreases |actions|
  {
    hide Do, Enabled;
    if actions != [] {
      StepGrows(s, actions[0]);
      LogGrows(Do(s, actions[0]), actions[1..], s');
    }
  }

  lemma LogAfter(s: Bridge, a: Action)
    requires Enabled(s, a)
    ensures Do(s, a).log == if EffectOf(s, a).Some? then s.log + [EffectOf(s, a).value] else s.log
  {
    hide PcAfter, HolderAfter, EntriesAfter, EffectOf, Allowed, Follows;
  }

  /** The step of a run that left an effect in its log. */
  lemma {:induction false} EffectStep(actions: seq<Action>, s': Bridge, j: nat) returns (k: nat, s: Bridge)
    requires Runs(INITIAL, actions, s') && j < |s'.log|
    ensures k < |actions| && Runs(INITIAL, actions[..k], s) && Enabled(s, actions[k])
    ensures EffectOf(s, actions[k]) == Some(s'.log[j]) && s.log == s'.log[..j]
    decreases |actions|
  {
    hide Do, Enabled, EffectOf;
    var n := |actions| - 1;
    s := RunsLast(INITIAL, actions, s');
    LogAfter(s, actions[n]);
    if j < |s.log| {
      var before := s;
      k, s := EffectStep(actions[..n], before, j);
      assert actions[..n][..k] == actions[..k] && actions[..n][k] == actions[k];
    } else {
      k := n;
    }
  }

  ghost predicate GivesUpIn(actions: seq<Action>, k: nat, s: Bridge, p: nat, m: Identity) {
    k < |actions| && Runs(INITIAL, actions[..k], s) && ReleasedIn(s.log, m) && GivesUp(s, actions[k], p, m)
  }

  /** Over whole runs: a poll hands a task out after its Nak exactly when, at some step after that Nak, it gave up. */
  lemma RunHandsOutReleasedIff(actions: seq<Action>, s': Bridge, p: nat, m: Identity)
    requires Runs(INITIAL, actions, s')
    ensures (exists i, j :: 0 <= i < j < |s'.log| && IsRelease(s'.log[i], m) && s'.log[j] == Handed(p, m)) <==>
            exists k, s :: GivesUpIn(actions, k, s, p, m)
  {
    hide Do, Enabled, EffectOf, GivesUp;
    if i, j :| 0 <= i < j < |s'.log| && IsRelease(s'.log[i], m) && s'.log[j] == Handed(p, m) {
      var k, s := EffectStep(actions, s', j);
      assert IsRelease(s.log[i], m);
      HandsOutReleasedIff(actions[..k], s, actions[k], p, m);
      assert GivesUpIn(actions, k, s, p, m);
    }
    if k: nat, s :| GivesUpIn(actions, k, s, p, m) {
      RunsRest(INITIAL, actions, s', k, s);
      HandsOutReleasedIff(actions[..k], s, actions[k], p, m);
      LogAfter(s, actions[k]);
      LogGrows(Do(s, actions[k]), actions[k..][1..], s');
      var i :| 0 <= i < |s.log| && IsRelease(s.log[i], m);
      assert s'.log[i] == s.log[i] && s'.log[|s.log|] == Handed(p, m);
    }
  }

  // ---------------------------------------------------------------- where effects come from

  /** Step k of the run is a, taken in mid. */
  ghost predicate Took(actions: seq<Action>, k: nat, mid: Bridge, a: Action) {
    k < |actions| && actions[k] == a && Runs(INITIAL, actions[..k], mid)
  }

  /** The release took the delivery m of task t, which was its entry and not fenced. */
  ghost predicate TookClaim(actions: seq<Action>, p: nat, t: string, m: Identity) {
    exists k, mid :: Took(actions, k, mid, Take(p))
                     && t in mid.entries && mid.entries[t].msg == m && !mid.entries[t].fenced
  }

  /** The release left it: it was gone, replaced or fenced. */
  ghost predicate LeftClaim(actions: seq<Action>, p: nat, t: string, m: Identity) {
    exists k, mid :: Took(actions, k, mid, Take(p))
                     && (t !in mid.entries || mid.entries[t].msg != m || mid.entries[t].fenced)
  }

  /** The resolve began with m as the entry of t. */
  ghost predicate LoadedClaim(actions: seq<Action>, p: nat, t: string, m: Identity, pauses: bool) {
    exists k, mid :: Took(actions, k, mid, Load(p, t, pauses)) && t in mid.entries && mid.entries[t].msg == m
  }

  /** It found no fence at t. */
  ghost predicate FoundNoFence(actions: seq<Action>, p: nat, t: string) {
    exists k, mid :: Took(actions, k, mid, CheckStop(p)) && (t in mid.entries ==> !mid.entries[t].fenced)
  }

  /** Under the mutex, it found m still the entry of t. */
  ghost predicate Reloaded(actions: seq<Action>, p: nat, t: string, m: Identity) {
    exists k, mid :: Took(actions, k, mid, Reload(p)) && t in mid.entries && mid.entries[t].msg == m
  }

  ghost predicate FreeLoadedClaim(actions: seq<Action>, p: nat, t: string, m: Identity) {
    exists k, mid :: Took(actions, k, mid, FreeLoad(p, t)) && t in mid.entries && mid.entries[t].msg == m
  }

  ghost predicate FreeFoundNoFence(actions: seq<Action>, p: nat, t: string) {
    exists k, mid :: Took(actions, k, mid, FreeCheck(p)) && (t in mid.entries ==> !mid.entries[t].fenced)
  }

  ghost predicate Checks(actions: seq<Action>, p: nat, t: string, m: Identity, pauses: bool) {
    LoadedClaim(actions, p, t, m, pauses) && FoundNoFence(actions, p, t)
  }

  ghost predicate FreeChecks(actions: seq<Action>, p: nat, t: string, m: Identity) {
    FreeLoadedClaim(actions, p, t, m) && FreeFoundNoFence(actions, p, t)
  }

  /** What a handler has done to stand where it stands. */
  ghost predicate PcTraced(actions: seq<Action>, p: nat, pc: Pc) {
    match pc
    case Loaded(t, m, pauses) => LoadedClaim(actions, p, t, m, pauses)
    case Checked(t, m, pauses) => Checks(actions, p, t, m, pauses)
    case Aiming(t, m, pauses, _) => Checks(actions, p, t, m, pauses)
    case Locked(t, m, pauses, _) => Checks(actions, p, t, m, pauses)
    case Passed(t, m, pauses, _) => Checks(actions, p, t, m, pauses) && Reloaded(actions, p, t, m)
    case Announced(t, m, _) => Checks(actions, p, t, m, false) && Reloaded(actions, p, t, m)
    case FreeLoaded(t, m) => FreeLoadedClaim(actions, p, t, m)
    case FreeChecked(t, m) => FreeChecks(actions, p, t, m)
    case Taken(_, ref, _, _) => TookClaim(actions, p, ref.taskId, ref.msg)
    case Freed(_, ref, _, _, took) =>
      if took then TookClaim(actions, p, ref.taskId, ref.msg) else LeftClaim(actions, p, ref.taskId, ref.msg)
    case _ => true
  }

  /** What a handler has done before an effect of its own. */
  ghost predicate EffectTraced(actions: seq<Action>, e: Effect) {
    match e
    case Published(p, m) => exists t :: Checks(actions, p, t, m, false) && Reloaded(actions, p, t, m)
    case Acked(p, m) => exists t :: Checks(actions, p, t, m, false) && Reloaded(actions, p, t, m)
    case Paused(p, m) => exists t :: Checks(actions, p, t, m, true) && Reloaded(actions, p, t, m)
    case Withdrawn(p, m) => exists t, pauses :: Checks(actions, p, t, m, pauses) && Reloaded(actions, p, t, m)
    case Released(p, m, _) => exists t :: TookClaim(actions, p, t, m)
    case FreeAcked(p, m) => exists t :: FreeChecks(actions, p, t, m)
    case Handed(_, _) => true
  }

  lemma TookLater(actions: seq<Action>, k: nat, mid: Bridge, a: Action, more: seq<Action>)
    requires Took(actions, k, mid, a)
    ensures Took(actions + more, k, mid, a)
  {
    hide Runs;
    assert (actions + more)[..k] == actions[..k];
  }

  lemma ClaimsTracedLater(actions: seq<Action>, more: seq<Action>, p: nat, t: string, m: Identity)
    ensures TookClaim(actions, p, t, m) ==> TookClaim(actions + more, p, t, m)
    ensures LeftClaim(actions, p, t, m) ==> LeftClaim(actions + more, p, t, m)
    ensures Reloaded(actions, p, t, m) ==> Reloaded(actions + more, p, t, m)
    ensures FreeChecks(actions, p, t, m) ==> FreeChecks(actions + more, p, t, m)
    ensures FreeLoadedClaim(actions, p, t, m) ==> FreeLoadedClaim(actions + more, p, t, m)
  {
    hide Took;
    forall k: nat, mid, a | Took(actions, k, mid, a) ensures Took(actions + more, k, mid, a) {
      TookLater(actions, k, mid, a, more);
    }
  }

  lemma ChecksTracedLater(actions: seq<Action>, more: seq<Action>, p: nat, t: string, m: Identity, pauses: bool)
    ensures LoadedClaim(actions, p, t, m, pauses) ==> LoadedClaim(actions + more, p, t, m, pauses)
    ensures Checks(actions, p, t, m, pauses) ==> Checks(actions + more, p, t, m, pauses)
  {
    hide Took;
    forall k: nat, mid, a | Took(actions, k, mid, a) ensures Took(actions + more, k, mid, a) {
      TookLater(actions, k, mid, a, more);
    }
  }

  lemma PcTracedLater(actions: seq<Action>, more: seq<Action>, p: nat, pc: Pc)
    requires PcTraced(actions, p, pc)
    ensures PcTraced(actions + more, p, pc)
  {
    hide TookClaim, LeftClaim, Reloaded, LoadedClaim, FoundNoFence, FreeLoadedClaim, Checks, FreeChecks;
    match pc {
      case Loaded(t, m, pauses) => ChecksTracedLater(actions, more, p, t, m, pauses);
      case Checked(t, m, pauses) => ChecksTracedLater(actions, more, p, t, m, pauses);
      case Aiming(t, m, pauses, _) => ChecksTracedLater(actions, more, p, t, m, pauses);
      case Locked(t, m, pauses, _) => ChecksTracedLater(actions, more, p, t, m, pauses);
      case Passed(t, m, pauses, _) =>
        ChecksTracedLater(actions, more, p, t, m, pauses);
        ClaimsTracedLater(actions, more, p, t, m);
      case Announced(t, m, _) =>
        ChecksTracedLater(actions, more, p, t, m, false);
        ClaimsTracedLater(actions, more, p, t, m);
      case FreeLoaded(t, m) => ClaimsTracedLater(actions, more, p, t, m);
      case FreeChecked(t, m) => ClaimsTracedLater(actions, more, p, t, m);
      case Taken(_, ref, _, _) => ClaimsTracedLater(actions, more, p, ref.taskId, ref.msg);
      case Freed(_, ref, _, _, _) => ClaimsTracedLater(actions, more, p, ref.taskId, ref.msg);
      case _ =>
    }
  }

  lemma EffectTracedLater(actions: seq<Action>, more: seq<Action>, e: Effect)
    requires EffectTraced(actions, e)
    ensures EffectTraced(actions + more, e)
  {
    hide TookClaim, Reloaded, Checks, FreeChecks;
    forall p, t, m, pauses ensures Checks(actions, p, t, m, pauses) ==> Checks(actions + more, p, t, m, pauses) {
      ChecksTracedLater(actions, more, p, t, m, pauses);
    }
    forall p, t, m
      ensures TookClaim(actions, p, t, m) ==> TookClaim(actions + more, p, t, m)
      ensures Reloaded(actions, p, t, m) ==> Reloaded(actions + more, p, t, m)
      ensures FreeChecks(actions, p, t, m) ==> FreeChecks(actions + more, p, t, m)
    {
      ClaimsTracedLater(actions, more, p, t, m);
    }
  }

  /** The step just taken. */
  lemma JustTook(actions: seq<Action>, s: Bridge, a: Action)
    requires Runs(INITIAL, actions, s)
    ensures Took(actions + [a], |actions|, s, a)
  {
    hide Runs;
    assert (actions + [a])[..|actions|] == actions;
  }

  /** What a handler's own step adds to its past. */
  lemma ResolveStepTraced(actions: seq<Action>, s: Bridge, a: Action)
    requires Runs(INITIAL, actions, s) && Enabled(s, a) && Actor(a).Some? && !ReleaseStep(a) && !ConnStep(a)
    requires !Starts(a) ==> PcTraced(actions, a.p, s.procs[a.p])
    ensures PcTraced(actions + [a], a.p, PcAfter(s, a))
  {
    hide Took, Runs, TookClaim, LeftClaim;
    JustTook(actions, s, a);
    if !Starts(a) { PcTracedLater(actions, [a], a.p, s.procs[a.p]); }
    hide LoadedClaim, FreeLoadedClaim;
    if a.Load? { LoadTraced(actions, s, a); }
    if a.FreeLoad? { LoadTraced(actions, s, a); }
  }

  lemma LoadTraced(actions: seq<Action>, s: Bridge, a: Action)
    requires Runs(INITIAL, actions, s) && Enabled(s, a) && (a.Load? || a.FreeLoad?)
    ensures PcTraced(actions + [a], a.p, PcAfter(s, a))
  {
    hide Took, Runs, TookClaim, LeftClaim;
    JustTook(actions, s, a);
  }

  lemma ReleaseStepTraced(actions: seq<Action>, s: Bridge, a: Action)
    requires Runs(INITIAL, actions, s) && (ReleaseStep(a) || ConnStep(a)) && Enabled(s, a)
    requires PcTraced(actions, a.p, s.procs[a.p])
    ensures PcTraced(actions + [a], a.p, PcAfter(s, a))
  {
    hide Took, Runs, Reloaded, Checks, FreeChecks, LoadedClaim, FreeLoadedClaim;
    JustTook(actions, s, a);
    PcTracedLater(actions, [a], a.p, s.procs[a.p]);
  }

  lemma StepEffectTraced(actions: seq<Action>, s: Bridge, a: Action)
    requires Enabled(s, a) && EffectOf(s, a).Some?
    requires Actor(a).Some? && !Starts(a) ==> PcTraced(actions, a.p, s.procs[a.p])
    ensures EffectTraced(actions, EffectOf(s, a).value)
  {
    hide Took, Reloaded, Checks, FreeChecks, TookClaim, LeftClaim, LoadedClaim, FreeLoadedClaim, PcAfter, EntriesAfter,
      HolderAfter;
  }

  ghost predicate Traced(actions: seq<Action>, s: Bridge) {
    && (forall p | p in s.procs :: PcTraced(actions, p, s.procs[p]))
    && (forall i | 0 <= i < |s.log| :: EffectTraced(actions, s.log[i]))
  }

  lemma StepTraced(actions: seq<Action>, s: Bridge, a: Action)
    requires Runs(INITIAL, actions, s) && Enabled(s, a) && Traced(actions, s)
    ensures Traced(actions + [a], Do(s, a))
  {
    hide PcTraced, EffectTraced, PcAfter, EntriesAfter, HolderAfter, EffectOf, Runs;
    var s' := Do(s, a);
    forall p | p in s'.procs ensures PcTraced(actions + [a], p, s'.procs[p]) {
      if Actor(a) == Some(p) {
        if ReleaseStep(a) || ConnStep(a) {
          ReleaseStepTraced(actions, s, a);
        } else {
          ResolveStepTraced(actions, s, a);
        }
      } else {
        PcTracedLater(actions, [a], p, s.procs[p]);
      }
    }
    forall i | 0 <= i < |s'.log| ensures EffectTraced(actions + [a], s'.log[i]) {
      if i == |s.log| { StepEffectTraced(actions, s, a); }
      EffectTracedLater(actions, [a], s'.log[i]);
    }
  }

  lemma {:induction false} RunTraced(actions: seq<Action>, s: Bridge)
    requires Runs(INITIAL, actions, s)
    ensures Traced(actions, s)
    decreases |actions|
  {
    hide PcTraced, EffectTraced, Do, Enabled;
    if actions != [] {
      var init := actions[..|actions| - 1];
      var mid := RunsLast(INITIAL, actions, s);
      RunTraced(init, mid);
      StepTraced(init, mid, actions[|actions| - 1]);
      assert init + [actions[|actions| - 1]] == actions;
    }
  }

  /**
   Where every effect of a run comes from. A claim is released only after a Take
   of that release, in a state where the delivery was its task's entry and not
   fenced. A resolve publishes or settles a delivery only after it loaded it, found
   no fence, and found it again under the mutex; one that takes no mutex acks it
   only after the first two.
   */
  lemma EffectsComeFromChecks(actions: seq<Action>, s: Bridge, i: nat)
    requires Runs(INITIAL, actions, s) && i < |s.log|
    ensures EffectTraced(actions, s.log[i])
  {
    hide PcTraced, EffectTraced, Runs;
    RunTraced(actions, s);
  }

  /** A Take leaves the map alone exactly when the claim is gone, is another delivery, or is fenced. */
  lemma TakeLeavesIff(s: Bridge, p: nat)
    requires Enabled(s, Take(p))
    ensures var ref, s' := s.procs[p].ref, Do(s, Take(p));
            var left := ref.taskId !in s.entries || s.entries[ref.taskId].msg != ref.msg
                        || s.entries[ref.taskId].fenced;
            && (s'.entries == s.entries <==> left)
            && (!left ==> s'.entries == s.entries - {ref.taskId})
            && (if left then s'.procs[p].Freed? && !s'.procs[p].took else s'.procs[p].Taken?)
  {
    var ref := s.procs[p].ref;
    assert ref.taskId in s.entries ==> ref.taskId !in s.entries - {ref.taskId};
  }

  /** Why a step hands a polled task out. */
  ghost predicate HandsOut(actions: seq<Action>, s: Bridge, a: Action, p: nat, m: Identity) {
    match a
    case Poll(q, _, e, _) => q == p && e.msg == m && e.conn.None?
    case CheckClosed(q) => q == p && m in s.stored && s.stored[m].conn.Some? && s.stored[m].conn.value !in s.closed
    case CheckRelease(q) => q == p && m in s.stored && s.stored[m].conn.Some? && s.stored[m].conn.value !in s.releasing
    case FindClaim(q) =>
      && q == p && m in s.stored && s.stored[m].conn.Some?
      && var t := s.stored[m].taskId;
         t in s.entries ==> s.entries[t].conn != s.stored[m].conn
    case Unlock(q) => q == p && exists t, n :: LeftClaim(actions, p, t, n)
    case _ => false
  }

  /**
   A poll hands its task out only without a connection, or if it found the
   connection open, or closed without a release, or the claim no longer under it,
   or if its own release left the claim it found.
   */
  lemma HandedOnlyWhen(actions: seq<Action>, s': Bridge, j: nat) returns (k: nat, s: Bridge)
    requires Runs(INITIAL, actions, s') && j < |s'.log| && s'.log[j].Handed?
    ensures k < |actions| && Runs(INITIAL, actions[..k], s)
    ensures HandsOut(actions[..k], s, actions[k], s'.log[j].who, s'.log[j].msg)
  {
    hide Runs, Safe, Enabled, HandsOut, EffectOf;
    k, s := EffectStep(actions, s', j);
    assert Safe(s) by {
      InitiallySafe();
      RunKeepsSafe(INITIAL, actions[..k], s);
    }
    HandedStep(actions[..k], s, actions[k], s'.log[j].who, s'.log[j].msg);
  }

  lemma HandedStep(actions: seq<Action>, s: Bridge, a: Action, p: nat, m: Identity)
    requires Runs(INITIAL, actions, s) && Safe(s) && Enabled(s, a) && EffectOf(s, a) == Some(Handed(p, m))
    ensures HandsOut(actions, s, a, p, m)
  {
    hide Runs, Enabled, HandsOut, EffectOf, Origins, Mutexes, OnceEach, Closings, LogOk, Traced, Procs;
    if a.Unlock? {
      RunTraced(actions, s);
      HandedAfterRelease(actions, s, a, p, m);
    } else {
      HandedByPoll(actions, s, a, p, m);
    }
  }

  lemma HandedAfterRelease(actions: seq<Action>, s: Bridge, a: Action, p: nat, m: Identity)
    requires Traced(actions, s) && Enabled(s, a) && EffectOf(s, a) == Some(Handed(p, m)) && a.Unlock?
    ensures HandsOut(actions, s, a, p, m)
  {
    hide LeftClaim, TookClaim, Checks, FreeChecks, Reloaded, LoadedClaim, FreeLoadedClaim, EffectTraced, EffectOf,
      Enabled;
    EmptyHanded(s, a, p, m);
    assert PcTraced(actions, p, s.procs[p]);
    var ref := s.procs[p].ref;
    assert LeftClaim(actions, p, ref.taskId, ref.msg);
  }

  lemma EmptyHanded(s: Bridge, a: Action, p: nat, m: Identity)
    requires Enabled(s, a) && EffectOf(s, a) == Some(Handed(p, m)) && a.Unlock?
    ensures a.p == p && p in s.procs && s.procs[p].Freed? && !s.procs[p].took
  {
  }

  lemma HandedByPoll(actions: seq<Action>, s: Bridge, a: Action, p: nat, m: Identity)
    requires Procs(s) && Enabled(s, a) && EffectOf(s, a) == Some(Handed(p, m)) && !a.Unlock?
    ensures HandsOut(actions, s, a, p, m)
  {
    hide Settlements, TodoOk, InMap, LeftClaim;
    if !a.Poll? { assert PcOk(s, p, s.procs[p]); }
  }

  /**
   What changes an entry that is in the map: a poll replaces or drops it, a settled
   claim's handler forgets it, a release takes it, or the environment drops it; and
   it is fenced by its own handler's journal or amended by the environment.
   */
  lemma EntriesChangeOnlyBy(s: Bridge, a: Action, t: string)
    requires Enabled(s, a) && t in s.entries
    ensures var after := Do(s, a).entries;
            && (t !in after <==>
                || (a.Poll? && t in a.dropped && t != a.taskId) || a == Drop(t)
                || ((a.Forget? || a.FreeForget?) && s.procs[a.p].taskId == t)
                || (a.Take? && s.procs[a.p].ref.taskId == t && s.procs[a.p].ref.msg == s.entries[t].msg
                    && !s.entries[t].fenced))
            && (t in after && !(a.Poll? && a.taskId == t) && !(a.Amend? && a.taskId == t) ==>
                  after[t] == if a.FenceOwn? && s.procs[a.p].taskId == t then s.entries[t].(fenced := true)
                              else s.entries[t])
            && (t in after && a.Poll? && a.taskId == t ==> after[t] == a.entry)
            && (t in after && a.Amend? && a.taskId == t ==> after[t] == a.entry)
  {
    hide PcAfter, HolderAfter, EffectOf;
  }

  // ---------------------------------------------------------------- what goes through

  /** A poll without a connection, or under one that has not closed, or closed without a release, hands its task out. */
  lemma PollHandsOut(s: Bridge, p: nat, t: string, e: Entry, dropped: set<string>)
    requires Enabled(s, Poll(p, t, e, dropped))
    ensures var s1 := Do(s, Poll(p, t, e, dropped));
            && s1.entries == (s.entries - dropped)[t := e]
            && (e.conn.None? ==> s1.log == s.log + [Handed(p, e.msg)])
            && (e.conn.Some? ==>
                  && s1.log == s.log && Enabled(s1, CheckClosed(p))
                  && var s2 := Do(s1, CheckClosed(p));
                     if e.conn.value !in s.closed then s2.log == s.log + [Handed(p, e.msg)]
                     else
                       && s2.log == s.log && Enabled(s2, CheckRelease(p))
                       && (e.conn.value !in s.releasing ==>
                             Do(s2, CheckRelease(p)).log == s.log + [Handed(p, e.msg)]))
  {
    hide HolderAfter;
  }

  /** The steps of a resolve that completes, fails or continues. */
  function Resolving(p: nat, t: string): seq<Action> {
    [Load(p, t, false), CheckStop(p), GetLock(p), Lock(p), Reload(p), Publish(p), Settle(p), Forget(p), Unlock(p)]
  }

  /** The steps of one that pauses. */
  function Pausing(p: nat, t: string): seq<Action> {
    [Load(p, t, true), CheckStop(p), GetLock(p), Lock(p), Reload(p), Settle(p), Forget(p), Unlock(p)]
  }

  /** The steps of one whose run was cancelled. */
  function Withdrawing(p: nat, t: string, pauses: bool): seq<Action> {
    [Load(p, t, pauses), CheckStop(p), GetLock(p), Lock(p), Reload(p), Withdraw(p, true), Forget(p), Unlock(p)]
  }

  ghost predicate Step(s: Bridge, a: Action, s': Bridge) {
    Enabled(s, a) && Do(s, a) == s'
  }

  /** A claim nobody else is at: in the map, not fenced, its mutex free. */
  predicate Free(s: Bridge, p: nat, t: string) {
    p !in s.procs && t in s.entries && !s.entries[t].fenced && s.entries[t].lock !in s.holder
  }

  lemma ResolveLoads(s: Bridge, p: nat, t: string, pauses: bool)
    requires Free(s, p, t)
    ensures Step(s, Load(p, t, pauses), s.(procs := s.procs[p := Loaded(t, s.entries[t].msg, pauses)]))
  {
  }

  lemma ResolveChecks(s: Bridge, p: nat, t: string, pauses: bool)
    requires Free(s, p, t)
    ensures var m := s.entries[t].msg;
            Step(s.(procs := s.procs[p := Loaded(t, m, pauses)]), CheckStop(p),
                 s.(procs := s.procs[p := Checked(t, m, pauses)]))
  {
  }

  lemma ResolveAims(s: Bridge, p: nat, t: string, pauses: bool)
    requires Free(s, p, t)
    ensures var m, l := s.entries[t].msg, s.entries[t].lock;
            Step(s.(procs := s.procs[p := Checked(t, m, pauses)]), GetLock(p),
                 s.(procs := s.procs[p := Aiming(t, m, pauses, l)]))
  {
  }

  lemma ResolveLocks(s: Bridge, p: nat, t: string, pauses: bool)
    requires Free(s, p, t)
    ensures var m, l := s.entries[t].msg, s.entries[t].lock;
            Step(s.(procs := s.procs[p := Aiming(t, m, pauses, l)]), Lock(p),
                 s.(holder := s.holder[l := p], procs := s.procs[p := Locked(t, m, pauses, l)]))
  {
  }

  lemma ResolveReloads(s: Bridge, p: nat, t: string, pauses: bool)
    requires Free(s, p, t)
    ensures var m, l := s.entries[t].msg, s.entries[t].lock;
            var held := s.(holder := s.holder[l := p]);
            Step(held.(procs := s.procs[p := Locked(t, m, pauses, l)]), Reload(p),
                 held.(procs := s.procs[p := Passed(t, m, pauses, l)]))
  {
  }

  lemma ResolvePublishes(s: Bridge, p: nat, t: string)
    requires Free(s, p, t)
    ensures var m, l := s.entries[t].msg, s.entries[t].lock;
            var held := s.(holder := s.holder[l := p]);
            Step(held.(procs := s.procs[p := Passed(t, m, false, l)]), Publish(p),
                 held.(procs := s.procs[p := Announced(t, m, l)], log := s.log + [Published(p, m)]))
  {
  }

  lemma ResolveAcks(s: Bridge, p: nat, t: string)
    requires Free(s, p, t)
    ensures var m, l := s.entries[t].msg, s.entries[t].lock;
            var held := s.(holder := s.holder[l := p]);
            Step(held.(procs := s.procs[p := Announced(t, m, l)], log := s.log + [Published(p, m)]), Settle(p),
                 held.(procs := s.procs[p := Settling(t, m, l)], log := s.log + [Published(p, m), Acked(p, m)]))
  {
    var m := s.entries[t].msg;
    assert s.log + [Published(p, m)] + [Acked(p, m)] == s.log + [Published(p, m), Acked(p, m)];
  }

  lemma ResolvePauses(s: Bridge, p: nat, t: string)
    requires Free(s, p, t)
    ensures var m, l := s.entries[t].msg, s.entries[t].lock;
            var held := s.(holder := s.holder[l := p]);
            Step(held.(procs := s.procs[p := Passed(t, m, true, l)]), Settle(p),
                 held.(procs := s.procs[p := Settling(t, m, l)], log := s.log + [Paused(p, m)]))
  {
  }

  lemma ResolveWithdraws(s: Bridge, p: nat, t: string, pauses: bool)
    requires Free(s, p, t)
    ensures var m, l := s.entries[t].msg, s.entries[t].lock;
            var held := s.(holder := s.holder[l := p]);
            Step(held.(procs := s.procs[p := Passed(t, m, pauses, l)]), Withdraw(p, true),
                 held.(procs := s.procs[p := Settling(t, m, l)], log := s.log + [Withdrawn(p, m)]))
  {
  }

  lemma ResolveForgets(s: Bridge, p: nat, t: string, log: seq<Effect>)
    requires Free(s, p, t)
    ensures var m, l := s.entries[t].msg, s.entries[t].lock;
            var held := s.(holder := s.holder[l := p], log := log);
            Step(held.(procs := s.procs[p := Settling(t, m, l)]), Forget(p),
                 held.(procs := s.procs[p := Leaving(l)], entries := s.entries - {t}))
  {
  }

  lemma ResolveUnlocks(s: Bridge, p: nat, t: string, log: seq<Effect>)
    requires Free(s, p, t)
    ensures var l := s.entries[t].lock;
            var held := s.(holder := s.holder[l := p], log := log);
            Step(held.(procs := s.procs[p := Leaving(l)], entries := s.entries - {t}), Unlock(p),
                 s.(log := log, procs := s.procs[p := Done], entries := s.entries - {t}))
  {
    var l := s.entries[t].lock;
    assert s.holder[l := p] - {l} == s.holder;
  }

  lemma {:induction false} RunsFrom(s: Bridge, actions: seq<Action>, mid: Bridge, a: Action, s': Bridge)
    requires Runs(s, actions, mid) && Step(mid, a, s')
    ensures Runs(s, actions + [a], s')
    decreases |actions|
  {
    hide Do, Enabled;
    if actions == [] {
      assert (actions + [a])[1..] == [];
    } else {
      RunsFrom(Do(s, actions[0]), actions[1..], mid, a, s');
      assert (actions + [a])[1..] == actions[1..] + [a];
    }
  }

  /** Up to the check under the mutex. */
  lemma ResolvePasses(s: Bridge, p: nat, t: string, pauses: bool)
    requires Free(s, p, t)
    ensures var m, l := s.entries[t].msg, s.entries[t].lock;
            Runs(s, [Load(p, t, pauses), CheckStop(p), GetLock(p), Lock(p), Reload(p)],
                 s.(holder := s.holder[l := p], procs := s.procs[p := Passed(t, m, pauses, l)]))
  {
    hide Step;
    ResolveLoads(s, p, t, pauses);
    ResolveChecks(s, p, t, pauses);
    ResolveAims(s, p, t, pauses);
    ResolveLocks(s, p, t, pauses);
    ResolveReloads(s, p, t, pauses);
    var m, l := s.entries[t].msg, s.entries[t].lock;
    var held := s.holder[l := p];
    var s1 := s.(procs := s.procs[p := Loaded(t, m, pauses)]);
    var s2 := s.(procs := s.procs[p := Checked(t, m, pauses)]);
    var s3 := s.(procs := s.procs[p := Aiming(t, m, pauses, l)]);
    var s4 := s.(holder := held, procs := s.procs[p := Locked(t, m, pauses, l)]);
    assert Runs(s, [], s);
    hide Runs;
    RunsFrom(s, [], s, Load(p, t, pauses), s1);
    RunsFrom(s, [] + [Load(p, t, pauses)], s1, CheckStop(p), s2);
    RunsFrom(s, [] + [Load(p, t, pauses)] + [CheckStop(p)], s2, GetLock(p), s3);
    RunsFrom(s, [] + [Load(p, t, pauses)] + [CheckStop(p)] + [GetLock(p)], s3, Lock(p), s4);
    RunsFrom(s, [] + [Load(p, t, pauses)] + [CheckStop(p)] + [GetLock(p)] + [Lock(p)], s4, Reload(p),
             s.(holder := held, procs := s.procs[p := Passed(t, m, pauses, l)]));
    assert [] + [Load(p, t, pauses)] + [CheckStop(p)] + [GetLock(p)] + [Lock(p)] + [Reload(p)] ==
           [Load(p, t, pauses), CheckStop(p), GetLock(p), Lock(p), Reload(p)];
  }

  /**
   From every state, a claim nobody else is at can be resolved: its event goes out,
   its delivery is acked, Nak'd by a pause or withdrawn, and it leaves the map, with its mutex
   free again and all else as before.
   */
  lemma ResolveGoesThrough(s: Bridge, p: nat, t: string)
    requires Free(s, p, t)
    ensures var m, gone := s.entries[t].msg, s.(procs := s.procs[p := Done], entries := s.entries - {t});
            && Runs(s, Resolving(p, t), gone.(log := s.log + [Published(p, m), Acked(p, m)]))
            && Runs(s, Pausing(p, t), gone.(log := s.log + [Paused(p, m)]))
            && Runs(s, Withdrawing(p, t, false), gone.(log := s.log + [Withdrawn(p, m)]))
            && Runs(s, Withdrawing(p, t, true), gone.(log := s.log + [Withdrawn(p, m)]))
  {
    hide Step, Runs, Free;
    assert t in s.entries by { FreeClaim(s, p, t); }
    var m, l := s.entries[t].msg, s.entries[t].lock;
    var held, gone := s.(holder := s.holder[l := p]), s.(procs := s.procs[p := Done], entries := s.entries - {t});
    ResolvePublishes(s, p, t);
    ResolveAcks(s, p, t);
    ResolvePasses(s, p, t, false);
    var log := s.log + [Published(p, m), Acked(p, m)];
    ResolveForgets(s, p, t, log);
    ResolveUnlocks(s, p, t, log);
    var first := [Load(p, t, false), CheckStop(p), GetLock(p), Lock(p), Reload(p)];
    var s1 := held.(procs := s.procs[p := Passed(t, m, false, l)]);
    var s2 := held.(procs := s.procs[p := Announced(t, m, l)], log := s.log + [Published(p, m)]);
    var s3 := held.(procs := s.procs[p := Settling(t, m, l)], log := log);
    var s4 := held.(procs := s.procs[p := Leaving(l)], entries := s.entries - {t}, log := log);
    RunsFrom(s, first, s1, Publish(p), s2);
    RunsFrom(s, first + [Publish(p)], s2, Settle(p), s3);
    RunsFrom(s, first + [Publish(p)] + [Settle(p)], s3, Forget(p), s4);
    RunsFrom(s, first + [Publish(p)] + [Settle(p)] + [Forget(p)], s4, Unlock(p), gone.(log := log));
    assert first + [Publish(p)] + [Settle(p)] + [Forget(p)] + [Unlock(p)] == Resolving(p, t);
    PauseGoesThrough(s, p, t);
    WithdrawalGoesThrough(s, p, t, false);
    WithdrawalGoesThrough(s, p, t, true);
  }

  lemma FreeClaim(s: Bridge, p: nat, t: string)
    requires Free(s, p, t)
    ensures t in s.entries
  {
  }

  lemma WithdrawalGoesThrough(s: Bridge, p: nat, t: string, pauses: bool)
    requires Free(s, p, t) && t in s.entries
    ensures Runs(s, Withdrawing(p, t, pauses), s.(procs := s.procs[p := Done], entries := s.entries - {t},
                                                  log := s.log + [Withdrawn(p, s.entries[t].msg)]))
  {
    hide Step, Runs, Free;
    var m, l := s.entries[t].msg, s.entries[t].lock;
    var held, gone := s.(holder := s.holder[l := p]), s.(procs := s.procs[p := Done], entries := s.entries - {t});
    ResolveWithdraws(s, p, t, pauses);
    ResolvePasses(s, p, t, pauses);
    var log := s.log + [Withdrawn(p, m)];
    ResolveForgets(s, p, t, log);
    ResolveUnlocks(s, p, t, log);
    var first := [Load(p, t, pauses), CheckStop(p), GetLock(p), Lock(p), Reload(p)];
    var s1 := held.(procs := s.procs[p := Passed(t, m, pauses, l)]);
    var s3 := held.(procs := s.procs[p := Settling(t, m, l)], log := log);
    var s4 := held.(procs := s.procs[p := Leaving(l)], entries := s.entries - {t}, log := log);
    RunsFrom(s, first, s1, Withdraw(p, true), s3);
    RunsFrom(s, first + [Withdraw(p, true)], s3, Forget(p), s4);
    RunsFrom(s, first + [Withdraw(p, true)] + [Forget(p)], s4, Unlock(p), gone.(log := log));
    assert first + [Withdraw(p, true)] + [Forget(p)] + [Unlock(p)] == Withdrawing(p, t, pauses);
  }

  lemma PauseGoesThrough(s: Bridge, p: nat, t: string)
    requires Free(s, p, t) && t in s.entries
    ensures Runs(s, Pausing(p, t), s.(procs := s.procs[p := Done], entries := s.entries - {t},
                                      log := s.log + [Paused(p, s.entries[t].msg)]))
  {
    hide Step, Runs, Free;
    var m, l := s.entries[t].msg, s.entries[t].lock;
    var held, gone := s.(holder := s.holder[l := p]), s.(procs := s.procs[p := Done], entries := s.entries - {t});
    ResolvePauses(s, p, t);
    ResolvePasses(s, p, t, true);
    var log := s.log + [Paused(p, m)];
    ResolveForgets(s, p, t, log);
    ResolveUnlocks(s, p, t, log);
    var first := [Load(p, t, true), CheckStop(p), GetLock(p), Lock(p), Reload(p)];
    var s1 := held.(procs := s.procs[p := Passed(t, m, true, l)]);
    var s3 := held.(procs := s.procs[p := Settling(t, m, l)], log := log);
    var s4 := held.(procs := s.procs[p := Leaving(l)], entries := s.entries - {t}, log := log);
    RunsFrom(s, first, s1, Settle(p), s3);
    RunsFrom(s, first + [Settle(p)], s3, Forget(p), s4);
    RunsFrom(s, first + [Settle(p)] + [Forget(p)], s4, Unlock(p), gone.(log := log));
    assert first + [Settle(p)] + [Forget(p)] + [Unlock(p)] == Pausing(p, t);
  }

  // ---------------------------------------------------------------- settlements without the mutex

  predicate FreeAckBy(e: Effect, p: nat) {
    e.FreeAcked? && e.who == p
  }

  function FreeAcks(log: seq<Effect>, p: nat): nat {
    if log == [] then 0 else FreeAcks(log[..|log| - 1], p) + if FreeAckBy(log[|log| - 1], p) then 1 else 0
  }

  predicate AckedFree(s: Bridge, p: nat) {
    p in s.procs && (s.procs[p].FreeSettling? || s.procs[p].Done?)
  }

  /** A handler acks without the mutex at most once, and only on its way out. */
  ghost predicate FreeOnce(s: Bridge) {
    forall p :: FreeAcks(s.log, p) <= if AckedFree(s, p) then 1 else 0
  }

  lemma FreeAcksAfter(log: seq<Effect>, e: Effect, p: nat)
    ensures FreeAcks(log + [e], p) == FreeAcks(log, p) + if FreeAckBy(e, p) then 1 else 0
  {
    assert (log + [e])[..|log|] == log;
  }

  lemma FreeEffect(s: Bridge, a: Action)
    requires Enabled(s, a) && EffectOf(s, a).Some? && EffectOf(s, a).value.FreeAcked?
    ensures a.FreeAck? && a.p in s.procs && s.procs[a.p].FreeChecked? && PcAfter(s, a).FreeSettling?
    ensures EffectOf(s, a).value == FreeAcked(a.p, s.procs[a.p].msg)
  {
    hide HolderAfter, EntriesAfter, Allowed;
  }

  lemma AckedFreeStays(s: Bridge, a: Action, p: nat)
    requires Enabled(s, a) && AckedFree(s, p)
    ensures AckedFree(Do(s, a), p)
  {
    hide HolderAfter, EntriesAfter, EffectOf, Allowed;
  }

  lemma FreeOnceKept(s: Bridge, a: Action)
    requires FreeOnce(s) && Enabled(s, a)
    ensures FreeOnce(Do(s, a))
  {
    hide Do, Enabled, EffectOf, AckedFree, FreeAcks, PcAfter;
    var s' := Do(s, a);
    LogAfter(s, a);
    forall p ensures FreeAcks(s'.log, p) <= if AckedFree(s', p) then 1 else 0 {
      if AckedFree(s, p) { AckedFreeStays(s, a, p); }
      if EffectOf(s, a).Some? {
        FreeAcksAfter(s.log, EffectOf(s, a).value, p);
        if FreeAckBy(EffectOf(s, a).value, p) { FreeAckerMoves(s, a); }
      }
    }
  }

  lemma FreeAckerMoves(s: Bridge, a: Action)
    requires Enabled(s, a) && EffectOf(s, a).Some? && EffectOf(s, a).value.FreeAcked?
    ensures a.FreeAck? && EffectOf(s, a).value.who == a.p && !AckedFree(s, a.p) && AckedFree(Do(s, a), a.p)
  {
    hide Do, Enabled, EffectOf, PcAfter;
    FreeEffect(s, a);
    ActorMoves(s, a);
  }

  lemma {:induction false} RunFreeOnce(s: Bridge, actions: seq<Action>, s': Bridge)
    requires FreeOnce(s) && Runs(s, actions, s')
    ensures FreeOnce(s')
    decreases |actions|
  {
    hide FreeOnce, Do, Enabled;
    if actions != [] {
      FreeOnceKept(s, actions[0]);
      RunFreeOnce(Do(s, actions[0]), actions[1..], s');
    }
  }

  /** Every settlement of a delivery, with the mutex or without. */
  function AllSettlements(log: seq<Effect>, m: Identity): nat {
    if log == [] then 0
    else
      var e := log[|log| - 1];
      AllSettlements(log[..|log| - 1], m) + if Settles(e, m) || (e.FreeAcked? && e.msg == m) then 1 else 0
  }

  function FreeAckers(log: seq<Effect>, m: Identity): set<nat> {
    set e | e in log && e.FreeAcked? && e.msg == m :: e.who
  }

  lemma {:induction false} FreeAckCounted(log: seq<Effect>, p: nat, m: Identity)
    ensures FreeAcked(p, m) in log ==> FreeAcks(log, p) >= 1
  {
    if log != [] {
      var init := log[..|log| - 1];
      assert log == init + [log[|log| - 1]];
      FreeAckCounted(init, p, m);
    }
  }

  lemma {:induction false} AllCounted(log: seq<Effect>, m: Identity)
    requires forall p :: FreeAcks(log, p) <= 1
    ensures AllSettlements(log, m) == Settlements(log, m) + |FreeAckers(log, m)|
  {
    if log != [] {
      var init, e := log[..|log| - 1], log[|log| - 1];
      assert log == init + [e];
      forall p ensures FreeAcks(init, p) <= 1 { FreeAcksAfter(init, e, p); }
      AllCounted(init, m);
      if e.FreeAcked? && e.msg == m {
        FreeAcksAfter(init, e, e.who);
        FreeAckCounted(init, e.who, m);
        assert FreeAckers(log, m) == FreeAckers(init, m) + {e.who};
        assert e.who !in FreeAckers(init, m);
      } else {
        assert FreeAckers(log, m) == FreeAckers(init, m);
      }
    }
  }

  /** At step k the handler loaded m for a resolve that does not end the claim, and m was that task's claim. */
  ghost predicate LoadsFree(actions: seq<Action>, k: nat, s: Bridge, p: nat, m: Identity) {
    && k < |actions| && Runs(INITIAL, actions[..k], s)
    && actions[k].FreeLoad? && actions[k].p == p && Current(s, actions[k].taskId, m)
  }

  predicate HasLoaded(pc: Pc, m: Identity) {
    (pc.FreeLoaded? || pc.FreeChecked?) && pc.msg == m
  }

  lemma LoadedBefore(s: Bridge, a: Action, p: nat, m: Identity)
    requires Enabled(s, a) && p in Do(s, a).procs && HasLoaded(Do(s, a).procs[p], m)
    ensures (p in s.procs && HasLoaded(s.procs[p], m)) || (a.FreeLoad? && a.p == p && Current(s, a.taskId, m))
  {
    hide HolderAfter, EntriesAfter, EffectOf;
  }

  lemma {:induction false} LoadStep(actions: seq<Action>, s': Bridge, p: nat, m: Identity) returns (k: nat, s: Bridge)
    requires Runs(INITIAL, actions, s') && p in s'.procs && HasLoaded(s'.procs[p], m)
    ensures LoadsFree(actions, k, s, p, m)
    decreases |actions|
  {
    hide Do, Enabled, HasLoaded;
    var n := |actions| - 1;
    s := RunsLast(INITIAL, actions, s');
    LoadedBefore(s, actions[n], p, m);
    if p in s.procs && HasLoaded(s.procs[p], m) {
      var before := s;
      k, s := LoadStep(actions[..n], before, p, m);
      assert actions[..n][..k] == actions[..k] && actions[..n][k] == actions[k];
    } else {
      k := n;
    }
  }

  /**
   Settlements of every kind, over every run: at most one with the mutex, and
   one for each handler that acked without it. Each of those had loaded this
   delivery while it was that task's claim, and acks it once.
   */
  lemma SettledOnceButForLockFreeAcks(actions: seq<Action>, s: Bridge, m: Identity)
    requires Runs(INITIAL, actions, s)
    ensures AllSettlements(s.log, m) == Settlements(s.log, m) + |FreeAckers(s.log, m)| && Settlements(s.log, m) <= 1
    ensures forall p | p in FreeAckers(s.log, m) :: FreeAcks(s.log, p) == 1 && exists k, before ::
        LoadsFree(actions, k, before, p, m)
    ensures AllSettlements(s.log, m) > 1 ==> FreeAckers(s.log, m) != {}
  {
    hide Do, Enabled, EffectOf, Settlements, AllSettlements, FreeAcks, AckedFree;
    SettledAtMostOnce(actions, s, m);
    assert FreeOnce(INITIAL) by { NoFreeAcksYet(); }
    RunFreeOnce(INITIAL, actions, s);
    AllCounted(s.log, m);
    forall p | p in FreeAckers(s.log, m)
      ensures FreeAcks(s.log, p) == 1 && exists k, before :: LoadsFree(actions, k, before, p, m)
    {
      FreeAckCounted(s.log, p, m);
      var j :| 0 <= j < |s.log| && s.log[j] == FreeAcked(p, m);
      var k, mid := EffectStep(actions, s, j);
      FreeEffect(mid, actions[k]);
      var l, before := LoadStep(actions[..k], mid, p, m);
      assert actions[..k][..l] == actions[..l] && actions[..k][l] == actions[l];
      assert LoadsFree(actions, l, before, p, m);
    }
  }

  lemma NoFreeAcksYet()
    ensures FreeOnce(INITIAL)
  {
  }

  // ---------------------------------------------------------------- the ack map's steps are protocol steps

  lemma DroppedRest(entries: Entries, lastSweep: int, now: int, rest: Entries)
    requires AckMaps.MadeRoom(entries, lastSweep, now, rest)
    ensures entries - (entries.Keys - rest.Keys) == rest
  {
  }

  /** A store of the ack map is a poll's store that drops what the sweep and the cap dropped. */
  lemma StoreIsPoll(m: AckMaps.State, e: AckMaps.Event, m': AckMaps.State, s: Bridge, p: nat)
    returns (dropped: set<string>)
    requires e.Store? && AckMaps.Next(m, e, m') && s.entries == m.entries && p !in s.procs
    requires e.msg !in s.stored && forall n | n in s.stored :: s.stored[n].lock != e.lock
    ensures var a := Poll(p, e.taskId, Entry(e.msg, e.lock, e.now, e.tokenId, e.conn, LogIngest.FRESH, false), dropped);
            Enabled(s, a) && Do(s, a).entries == m'.entries
  {
    hide PcAfter, HolderAfter, EffectOf, EntriesAfter, AckMaps.MadeRoom;
    var entry := Entry(e.msg, e.lock, e.now, e.tokenId, e.conn, LogIngest.FRESH, false);
    var rest :| AckMaps.MadeRoom(m.entries, m.lastSweep, e.now, rest) && m'.entries == rest[e.taskId := entry];
    dropped := m.entries.Keys - rest.Keys;
    DroppedRest(m.entries, m.lastSweep, e.now, rest);
    PolledEntries(s, Poll(p, e.taskId, entry, dropped));
  }

  /** Its other events, fences included, are steps of the environment. */
  lemma OtherEventsAreEnvironment(m: AckMaps.State, e: AckMaps.Event, m': AckMaps.State, s: Bridge) returns (a: Action)
    requires (e.Remove? || e.Touch? || e.Rewrite?) && AckMaps.Next(m, e, m') && s.entries == m.entries &&
        e.taskId in m.entries
    requires e.Rewrite? && m.entries[e.taskId].fenced ==> e.fenced
    ensures Actor(a).None? && Enabled(s, a) && Do(s, a).entries == m'.entries
  {
    hide PcAfter, HolderAfter, EffectOf;
    a := if e.Remove? then Drop(e.taskId) else Amend(e.taskId, m'.entries[e.taskId]);
  }
}
