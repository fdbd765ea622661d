/**
 The bridge's in-flight claims (bridge/ackmap.go): entries by task, an index by
 worker connection, the throttled sweep, the capacity cap, and the markers of
 recently resolved tasks. Messages, mutexes and connections are identities;
 times are nanoseconds on the injected clock.
 */
module AckMaps {
  import opened Graphs
  import opened Dag
  import opened LogIngest

  type Identity = nat

  const SECOND := 1_000_000_000
  const ACK_WAIT := 300 * SECOND
  const REAP_AFTER := ACK_WAIT + 30 * SECOND
  const SWEEP_INTERVAL := 30 * SECOND
  const MAX_ENTRIES := 10000
  const RESOLVED_TTL := 300 * SECOND
  const RESOLVED_MAX := 10000

  /** One claim: fenced says whether another claim's journal has stopped this delivery. */
  datatype Entry = Entry(msg: Identity, lock: Identity, storedAt: int, tokenId: string, conn: Option<Identity>,
                         log: LogState, fenced: bool)

  datatype ClaimRef = ClaimRef(taskId: string, msg: Identity, lock: Identity)

  datatype Resolved = Resolved(at: int, tokenId: string)

  type Entries = map<string, Entry>

  // ---------------------------------------------------------------- specification

  function ClaimedUnder(entries: Entries, conn: Identity): set<string> {
    set t | t in entries && entries[t].conn == Some(conn)
  }

  predicate IsClaim(entries: Entries, conn: Identity, ref: ClaimRef) {
    ref.taskId in ClaimedUnder(entries, conn) && ref.msg == entries[ref.taskId].msg &&
      ref.lock == entries[ref.taskId].lock
  }

  function Connections(entries: Entries): set<Identity> {
    set t | t in entries && entries[t].conn.Some? :: entries[t].conn.value
  }

  /** What a scan of the whole map finds, connection by connection; a connection without claims has no key. */
  function ScanIndex(entries: Entries): map<Identity, set<string>> {
    map c | c in Connections(entries) :: ClaimedUnder(entries, c)
  }

  lemma ScanFinds(entries: Entries)
    ensures forall c | c in ScanIndex(entries) :: ScanIndex(entries)[c] != {}
    ensures forall c, t :: c in ScanIndex(entries) && t in ScanIndex(entries)[c] <==>
                           t in entries && entries[t].conn == Some(c)
  {
    forall c | c in Connections(entries) ensures ClaimedUnder(entries, c) != {} {
      var t :| t in entries && entries[t].conn.Some? && entries[t].conn.value == c;
      assert t in ClaimedUnder(entries, c);
    }
  }

  lemma IndexIsScan(entries: Entries, index: map<Identity, set<string>>)
    requires forall c | c in index :: index[c] != {}
    requires forall c, t :: c in index && t in index[c] <==> t in entries && entries[t].conn == Some(c)
    ensures index == ScanIndex(entries)
  {
    var scan := ScanIndex(entries);
    ScanFinds(entries);
    forall c | c in index ensures c in scan && index[c] == scan[c] {
      var t :| t in index[c];
      assert t in entries && entries[t].conn == Some(c);
      assert entries[t].conn.value in Connections(entries);
      assert index[c] == scan[c];
    }
    forall c | c in scan ensures c in index {
      var t :| t in scan[c];
      assert t in entries && entries[t].conn == Some(c);
    }
    assert index.Keys == scan.Keys;
  }

  predicate Expired(entry: Entry, now: int) {
    now - entry.storedAt >= REAP_AFTER
  }

  function SweepDue(lastSweep: int, now: int): bool {
    now - lastSweep >= SWEEP_INTERVAL
  }

  function Swept(entries: Entries, lastSweep: int, now: int): Entries {
    if SweepDue(lastSweep, now) then map t | t in entries && !Expired(entries[t], now) :: entries[t] else entries
  }

  ghost predicate Oldest(entries: Entries, taskId: string) {
    taskId in entries && forall t | t in entries :: entries[taskId].storedAt <= entries[t].storedAt
  }

  /** Every entry was claimed or touched less than a reap window before the last sweep, or since. */
  predicate Young(entries: Entries, lastSweep: int) {
    forall t | t in entries :: lastSweep - entries[t].storedAt < REAP_AFTER
  }

  /** No entry has gone longer than the reap window plus one sweep interval without a sign of life. */
  predicate SignsOfLife(entries: Entries, now: int) {
    forall t | t in entries :: now - entries[t].storedAt < REAP_AFTER + SWEEP_INTERVAL
  }

  datatype State = State(entries: Entries, lastSweep: int, resolved: map<string, Resolved>)

  ghost predicate Sound(s: State) {
    && "" !in s.entries && "" !in s.resolved
    && |s.entries| <= MAX_ENTRIES && |s.resolved| <= RESOLVED_MAX
  }

  /** The room a store makes: the sweep, then one eviction when the map is still full. */
  ghost predicate MadeRoom(entries: Entries, lastSweep: int, now: int, rest: Entries) {
    var swept := Swept(entries, lastSweep, now);
    if |swept| >= MAX_ENTRIES then exists t :: Oldest(swept, t) && rest == swept - {t} else rest == swept
  }

  ghost predicate OldestResolved(resolved: map<string, Resolved>, taskId: string) {
    taskId in resolved && forall t | t in resolved :: resolved[taskId].at <= resolved[t].at
  }

  ghost predicate MadeRoomToMark(resolved: map<string, Resolved>, rest: map<string, Resolved>) {
    if |resolved| >= RESOLVED_MAX then exists t :: OldestResolved(resolved, t) && rest == resolved - {t}
      else rest == resolved
  }

  datatype Event =
    | Store(now: int, taskId: string, msg: Identity, lock: Identity, tokenId: string, conn: Option<Identity>)
    | Remove(taskId: string)
    | Touch(now: int, taskId: string)
    | Rewrite(taskId: string, log: LogState, fenced: bool)
    | Mark(now: int, taskId: string, tokenId: string)
    | Probe(now: int, taskId: string)

  ghost predicate Stores(s: State, e: Event, s': State)
    requires e.Store?
  {
    && s'.resolved == s.resolved
    && s'.lastSweep == (if SweepDue(s.lastSweep, e.now) then e.now else s.lastSweep)
    && exists rest :: MadeRoom(s.entries, s.lastSweep, e.now, rest)
         && s'.entries == rest[e.taskId := Entry(e.msg, e.lock, e.now, e.tokenId, e.conn, FRESH, false)]
  }

  ghost predicate Marks(s: State, e: Event, s': State)
    requires e.Mark?
  {
    && s'.entries == s.entries && s'.lastSweep == s.lastSweep
    && exists rest :: MadeRoomToMark(s.resolved, rest) && s'.resolved == rest[e.taskId := Resolved(e.now, e.tokenId)]
  }

  ghost predicate Next(s: State, e: Event, s': State) {
    match e
    case Store(_, _, _, _, _, _) => Stores(s, e, s')
    case Remove(t) => s' == s.(entries := s.entries - {t})
    case Touch(now, t) => s' == if t in s.entries then s.(entries := s.entries[t := s.entries[t].(storedAt := now)])
      else s
    case Rewrite(t, log, fenced) =>
      s' == if t in s.entries then s.(entries := s.entries[t := s.entries[t].(log := log, fenced := fenced)]) else s
    case Mark(_, _, _) => Marks(s, e, s')
    case Probe(now, t) =>
      s' == if t in s.resolved && now - s.resolved[t].at >= RESOLVED_TTL then s.(resolved := s.resolved - {t}) else s
  }

  predicate Named(e: Event) {
    e.taskId != ""
  }

  predicate Timed(e: Event) {
    e.Store? || e.Touch? || e.Mark? || e.Probe?
  }

  // ---------------------------------------------------------------- every run

  lemma {:induction false} FewerKeys<K, V>(m: map<K, V>, k: K)
    requires k in m
    ensures |m - {k}| == |m| - 1
  {
    assert (m - {k}).Keys == m.Keys - {k};
  }

  lemma SweptSmaller(entries: Entries, lastSweep: int, now: int)
    ensures |Swept(entries, lastSweep, now)| <= |entries|
  {
    SubsetCount(Swept(entries, lastSweep, now).Keys, entries.Keys);
  }

  lemma RoomMade(entries: Entries, lastSweep: int, now: int, rest: Entries)
    requires |entries| <= MAX_ENTRIES && MadeRoom(entries, lastSweep, now, rest)
    ensures |rest| < MAX_ENTRIES
    ensures forall t | t in rest ::
        t in entries && rest[t] == entries[t] && (SweepDue(lastSweep, now) ==> !Expired(entries[t], now))
  {
    var swept := Swept(entries, lastSweep, now);
    SweptSmaller(entries, lastSweep, now);
    if |swept| >= MAX_ENTRIES {
      var t :| Oldest(swept, t) && rest == swept - {t};
      FewerKeys(swept, t);
    }
  }

  lemma OneMoreKey<K, V>(m: map<K, V>, k: K, v: V)
    ensures |m[k := v]| <= |m| + 1
  {
    assert m[k := v].Keys == m.Keys + {k};
  }

  lemma NextSound(s: State, e: Event, s': State)
    requires Sound(s) && Named(e) && Next(s, e, s')
    ensures Sound(s')
  {
    match e {
      case Store(now, t, _, _, _, _) =>
        var rest :| MadeRoom(s.entries, s.lastSweep, now, rest) && s'.entries == rest[t := s'.entries[t]];
        RoomMade(s.entries, s.lastSweep, now, rest);
        OneMoreKey(rest, t, s'.entries[t]);
      case Mark(_, t, _) => MarkBounded(s, e, s');
      case Remove(t) => SubsetCount(s'.entries.Keys, s.entries.Keys);
      case Touch(_, t) => assert t in s.entries ==> s'.entries.Keys == s.entries.Keys;
      case Rewrite(t, _, _) => assert t in s.entries ==> s'.entries.Keys == s.entries.Keys;
      case Probe(_, t) => SubsetCount(s'.resolved.Keys, s.resolved.Keys);
    }
  }

  lemma MarkBounded(s: State, e: Event, s': State)
    requires Sound(s) && Named(e) && e.Mark? && Marks(s, e, s')
    ensures Sound(s')
  {
    var rest :| MadeRoomToMark(s.resolved, rest) && s'.resolved == rest[e.taskId := Resolved(e.now, e.tokenId)];
    OneMoreKey(rest, e.taskId, Resolved(e.now, e.tokenId));
    if |s.resolved| >= RESOLVED_MAX {
      var t :| OldestResolved(s.resolved, t) && rest == s.resolved - {t};
      FewerKeys(s.resolved, t);
    }
  }

  /** With a clock that does not run backwards past the last sweep, entries stay young. */
  lemma NextYoung(s: State, e: Event, s': State)
    requires |s.entries| <= MAX_ENTRIES && Young(s.entries, s.lastSweep) && Next(s, e, s')
    requires Timed(e) ==> s.lastSweep <= e.now
    ensures Young(s'.entries, s'.lastSweep)
    ensures Timed(e) ==> s'.lastSweep <= e.now
    ensures e.Store? ==> SignsOfLife(s'.entries, e.now)
  {
    if e.Store? {
      var rest :| MadeRoom(s.entries, s.lastSweep, e.now, rest) && s'.entries == rest[e.taskId := s'.entries[e.taskId]];
      RoomMade(s.entries, s.lastSweep, e.now, rest);
    }
  }

  ghost predicate IsRun(states: seq<State>, events: seq<Event>) {
    && |states| == |events| + 1
    && states[0].entries == map[] && states[0].resolved == map[]
    && (forall i | 0 <= i < |events| :: Named(events[i]) && Next(states[i], events[i], states[i + 1]))
  }

  ghost predicate ClockRuns(start: int, events: seq<Event>) {
    && (forall i | 0 <= i < |events| && Timed(events[i]) :: start <= events[i].now)
    && (forall i, j | 0 <= i < j < |events| && Timed(events[i]) && Timed(events[j]) :: events[i].now <= events[j].now)
  }

  lemma {:induction false} RunStaysBounded(states: seq<State>, events: seq<Event>, n: nat)
    requires IsRun(states, events) && n < |states|
    ensures Sound(states[n])
  {
    if n > 0 {
      RunStaysBounded(states, events, n - 1);
      NextSound(states[n - 1], events[n - 1], states[n]);
    }
  }

  /** The last sweep never lies ahead of the clock. */
  lemma {:induction false} RunStaysYoung(states: seq<State>, events: seq<Event>, n: nat)
    requires IsRun(states, events) && n < |states| && ClockRuns(states[0].lastSweep, events)
    ensures Young(states[n].entries, states[n].lastSweep)
    ensures forall i | n <= i < |events| && Timed(events[i]) :: states[n].lastSweep <= events[i].now
  {
    if n > 0 {
      RunStaysYoung(states, events, n - 1);
      RunStaysBounded(states, events, n - 1);
      NextYoung(states[n - 1], events[n - 1], states[n]);
    }
  }

  /** In every run on a clock that does not run backwards. */
  lemma StoreLeavesOnlyYoung(states: seq<State>, events: seq<Event>, n: nat)
    requires IsRun(states, events) && n < |events| && ClockRuns(states[0].lastSweep, events) && events[n].Store?
    ensures SignsOfLife(states[n + 1].entries, events[n].now)
  {
    RunStaysYoung(states, events, n);
    RunStaysBounded(states, events, n);
    NextYoung(states[n], events[n], states[n + 1]);
  }

  /**
   What a store does to another task's entry: it leaves it as it is, or drops it
   because it has outlived the reap window, or because the map is full and it is
   the oldest. A due sweep drops every entry that has outlived the window.
   */
  lemma StoreDropsOnly(s: State, e: Event, s': State, t: string)
    requires Sound(s) && e.Store? && Next(s, e, s') && t in s.entries && t != e.taskId
    ensures t in s'.entries ==> s'.entries[t] == s.entries[t]
    ensures t !in s'.entries ==>
              || (e.now - s.lastSweep >= SWEEP_INTERVAL && e.now - s.entries[t].storedAt >= REAP_AFTER)
              || (|s.entries| == MAX_ENTRIES
                  && forall u | u in s.entries :: s.entries[t].storedAt <= s.entries[u].storedAt)
    ensures e.now - s.lastSweep >= SWEEP_INTERVAL && e.now - s.entries[t].storedAt >= REAP_AFTER ==> t !in s'.entries
  {
    SweptSmaller(s.entries, s.lastSweep, e.now);
    var swept := Swept(s.entries, s.lastSweep, e.now);
    var rest :| MadeRoom(s.entries, s.lastSweep, e.now, rest) && s'.entries == rest[e.taskId := s'.entries[e.taskId]];
    if |swept| >= MAX_ENTRIES { SameSize(swept, s.entries); }
  }

  lemma SameSize(part: Entries, whole: Entries)
    requires |part| >= |whole| && forall t | t in part :: t in whole && part[t] == whole[t]
    ensures part == whole
  {
    SubsetCount(part.Keys, whole.Keys);
    assert part.Keys == whole.Keys;
  }

  /** What a store records: this delivery, claimed now, with fresh counters and no fence. */
  lemma StoreRecords(s: State, e: Event, s': State)
    requires e.Store? && Next(s, e, s')
    ensures e.taskId in s'.entries
    ensures var entry := s'.entries[e.taskId];
            && entry.msg == e.msg && entry.lock == e.lock && entry.tokenId == e.tokenId && entry.conn == e.conn
            && entry.storedAt == e.now && entry.log == FRESH && !entry.fenced
  {
    var rest :| MadeRoom(s.entries, s.lastSweep, e.now, rest)
                && s'.entries == rest[e.taskId := Entry(e.msg, e.lock, e.now, e.tokenId, e.conn, FRESH, false)];
  }

  /** A claim or a sign of life of this task. */
  predicate Renews(s: State, e: Event, t: string) {
    e.taskId == t && (e.Store? || (e.Touch? && t in s.entries))
  }

  /** What ends a claim early: its removal, a new claim of the task, or an eviction from a full map. */
  ghost predicate EndsEarly(s: State, e: Event, t: string) {
    || ((e.Remove? || e.Store?) && e.taskId == t)
    || (e.Store? && |s.entries| == MAX_ENTRIES && t in s.entries
        && forall u | u in s.entries :: s.entries[t].storedAt <= s.entries[u].storedAt)
  }

  /** The claim is the one of before, and no older. */
  predicate SameClaim(before: Entry, after: Entry) {
    && after.msg == before.msg && after.lock == before.lock && after.tokenId == before.tokenId
    && after.conn == before.conn && after.storedAt >= before.storedAt
  }

  lemma RenewedNow(s: State, e: Event, s': State, t: string)
    requires Next(s, e, s') && Renews(s, e, t)
    ensures t in s'.entries && s'.entries[t].storedAt == e.now
  {
    if e.Store? { StoreRecords(s, e, s'); }
  }

  lemma ClaimStays(s: State, e: Event, s': State, t: string)
    requires Sound(s) && Next(s, e, s') && t in s.entries && !EndsEarly(s, e, t)
    requires e.Store? ==> e.now - s.entries[t].storedAt < REAP_AFTER
    requires e.Touch? ==> s.entries[t].storedAt <= e.now
    ensures t in s'.entries && SameClaim(s.entries[t], s'.entries[t])
  {
    if e.Store? { StoreDropsOnly(s, e, s', t); }
  }

  /**
   In every run on a clock that does not run backwards: a claim made or touched at
   some time is still in the map after anything that happens up to a reap window
   later, unless it was removed, claimed anew or evicted from a full map. The
   window is wider than the time after which the message is redelivered.
   */
  lemma {:induction false} LiveClaimStays(states: seq<State>, events: seq<Event>, i: nat, n: nat, t: string)
    requires IsRun(states, events) && ClockRuns(states[0].lastSweep, events)
    requires i < n < |states| && Renews(states[i], events[i], t)
    requires forall j | i < j < n :: !EndsEarly(states[j], events[j], t)
    requires forall j | i < j < n && events[j].Store? :: events[j].now - events[i].now < REAP_AFTER
    ensures t in states[i + 1].entries && t in states[n].entries
    ensures states[n].entries[t].storedAt >= events[i].now && SameClaim(states[i + 1].entries[t], states[n].entries[t])
    ensures REAP_AFTER > ACK_WAIT
    decreases n
  {
    hide Next, EndsEarly;
    RenewedNow(states[i], events[i], states[i + 1], t);
    if n > i + 1 {
      LiveClaimStays(states, events, i, n - 1, t);
      RunStaysBounded(states, events, n - 1);
      StampsPast(states, events, n - 1, t);
      ClaimStays(states[n - 1], events[n - 1], states[n], t);
    }
  }

  /** No stamp lies ahead of the clock. */
  lemma {:induction false} StampsPast(states: seq<State>, events: seq<Event>, n: nat, t: string)
    requires IsRun(states, events) && ClockRuns(states[0].lastSweep, events) && n < |states| && t in states[n].entries
    ensures forall j | n <= j < |events| && Timed(events[j]) :: states[n].entries[t].storedAt <= events[j].now
  {
    if n > 0 {
      var s, e := states[n - 1], events[n - 1];
      if Renews(s, e, t) {
        RenewedNow(s, e, states[n], t);
      } else {
        OldStamp(s, e, states[n], t);
        StampsPast(states, events, n - 1, t);
      }
    }
  }

  lemma OldStamp(s: State, e: Event, s': State, t: string)
    requires Next(s, e, s') && t in s'.entries && !Renews(s, e, t)
    ensures t in s.entries && s'.entries[t].storedAt == s.entries[t].storedAt
  {
  }

  // ---------------------------------------------------------------- markers of resolved tasks

  /** What ends a marker early: a new one for the task, or an eviction by a marker at the cap. */
  ghost predicate Unmarks(s: State, e: Event, t: string) {
    && e.Mark?
    && (|| e.taskId == t
        || (|s.resolved| == RESOLVED_MAX && t in s.resolved
            && forall u | u in s.resolved :: s.resolved[t].at <= s.resolved[u].at))
  }

  lemma MarkerStays(s: State, e: Event, s': State, t: string)
    requires Sound(s) && Next(s, e, s') && t in s.resolved && !Unmarks(s, e, t)
    requires e.Probe? && e.taskId == t ==> e.now - s.resolved[t].at < RESOLVED_TTL
    ensures t in s'.resolved && s'.resolved[t] == s.resolved[t]
  {
  }

  lemma MarkRecords(s: State, e: Event, s': State)
    requires e.Mark? && Next(s, e, s')
    ensures e.taskId in s'.resolved && s'.resolved[e.taskId] == Resolved(e.now, e.tokenId)
  {
  }

  /** A resolved task is remembered, with the token that resolved it, for the marker's whole lifetime. */
  lemma {:induction false} ResolvedRemembered(states: seq<State>, events: seq<Event>, i: nat, n: nat, t: string)
    requires IsRun(states, events) && i < n < |states| && events[i].Mark? && events[i].taskId == t
    requires forall j | i < j < n :: !Unmarks(states[j], events[j], t)
    requires forall j | i < j < n && events[j].Probe? && events[j].taskId == t ::
               events[j].now - events[i].now < RESOLVED_TTL
    ensures t in states[n].resolved && states[n].resolved[t] == Resolved(events[i].now, events[i].tokenId)
    decreases n
  {
    hide Unmarks, Next;
    if n == i + 1 {
      MarkRecords(states[i], events[i], states[n]);
    } else {
      ResolvedRemembered(states, events, i, n - 1, t);
      RunStaysBounded(states, events, n - 1);
      MarkerStays(states[n - 1], events[n - 1], states[n], t);
    }
  }

  // ---------------------------------------------------------------- the map itself

  lemma IndexAfterRemove(entries: Entries, index: map<Identity, set<string>>, taskId: string)
    requires index == ScanIndex(entries) && taskId in entries
    ensures ScanIndex(entries - {taskId}) ==
            match entries[taskId].conn
            case None => index
            case Some(c) => Without(index, c, taskId)
    ensures entries[taskId].conn.Some? ==> entries[taskId].conn.value in index
  {
    ScanFinds(entries);
    match entries[taskId].conn {
      case None => IndexUnchanged(entries, entries - {taskId});
      case Some(c) => IndexIsScan(entries - {taskId}, Without(index, c, taskId));
    }
  }

  /** The index without one claim of a connection; a connection without claims has no key. */
  function Without(index: map<Identity, set<string>>, c: Identity, taskId: string): map<Identity, set<string>> {
    var claims := (if c in index then index[c] else {}) - {taskId};
    if claims == {} then index - {c} else index[c := claims]
  }

  lemma IndexUnchanged(entries: Entries, entries': Entries)
    requires forall t, c :: t in entries && entries[t].conn == Some(c) <==> t in entries' && entries'[t].conn == Some(c)
    ensures ScanIndex(entries) == ScanIndex(entries')
  {
    ScanFinds(entries);
    IndexIsScan(entries', ScanIndex(entries));
  }

  lemma IndexAfterStore(entries: Entries, index: map<Identity, set<string>>, taskId: string, entry: Entry)
    requires index == ScanIndex(entries) && taskId !in entries
    ensures entry.conn.None? ==> ScanIndex(entries[taskId := entry]) == index
    ensures entry.conn.Some? ==>
              var c := entry.conn.value;
              ScanIndex(entries[taskId := entry]) == index[c := (if c in index then index[c] else {}) + {taskId}]
  {
    ScanFinds(entries);
    if entry.conn.None? {
      IndexUnchanged(entries, entries[taskId := entry]);
    } else {
      var c := entry.conn.value;
      IndexIsScan(entries[taskId := entry], index[c := (if c in index then index[c] else {}) + {taskId}]);
    }
  }

  lemma InsertSound(s: State, taskId: string, entry: Entry)
    requires Sound(s) && taskId != "" && |s.entries| < MAX_ENTRIES
    ensures Sound(s.(entries := s.entries[taskId := entry]))
  {
    OneMoreKey(s.entries, taskId, entry);
  }

  lemma RemoveSound(s: State, taskId: string)
    requires Sound(s)
    ensures Sound(s.(entries := s.entries - {taskId}))
    ensures taskId !in s.entries ==> s.entries - {taskId} == s.entries
  {
    SubsetCount((s.entries - {taskId}).Keys, s.entries.Keys);
  }

  class AckMap {
    var entries: Entries
    var byConn: map<Identity, set<string>>
    var lastSweep: int
    var resolvedTasks: map<string, Resolved>

    function Snapshot(): State reads this {
      State(entries, lastSweep, resolvedTasks)
    }

    ghost predicate Valid() reads this {
      byConn == ScanIndex(entries) && Sound(Snapshot())
    }

    constructor (now: int)
      ensures Valid() && Snapshot() == State(map[], now, map[])
    {
      entries, byConn, lastSweep, resolvedTasks := map[], map[], now, map[];
    }

    method DeleteLocked(taskId: string)
      requires Valid()
      modifies this`entries, this`byConn
      ensures Valid() && entries == old(entries) - {taskId}
    {
      hide ScanIndex, Sound, Without;
      RemoveSound(Snapshot(), taskId);
      if taskId !in entries {
        return;
      }
      var conn := entries[taskId].conn;
      IndexAfterRemove(entries, byConn, taskId);
      entries := entries - {taskId};
      if conn.Some? {
        byConn := Without(byConn, conn.value, taskId);
      }
    }

    method SweepLocked(now: int)
      requires Valid()
      modifies this`entries, this`byConn, this`lastSweep
      ensures Valid() && entries == Swept(old(entries), old(lastSweep), now)
      ensures lastSweep == if now - old(lastSweep) >= SWEEP_INTERVAL then now else old(lastSweep)
      ensures forall t :: t in entries <==>
                t in old(entries)
                && (now - old(lastSweep) < SWEEP_INTERVAL || now - old(entries)[t].storedAt < REAP_AFTER)
      ensures forall t | t in entries :: entries[t] == old(entries)[t]
    {
      if now - lastSweep < SWEEP_INTERVAL {
        return;
      }
      lastSweep := now;
      var rest := entries.Keys;
      while rest != {}
        invariant Valid() && lastSweep == now && rest <= old(entries).Keys
        invariant entries == map t | t in old(entries) && (t in rest || !Expired(old(entries)[t], now)) ::
            old(entries)[t]
      {
        var taskId :| taskId in rest;
        rest := rest - {taskId};
        if now - entries[taskId].storedAt >= REAP_AFTER {
          DeleteLocked(taskId);
        }
      }
    }

    method EvictOldestLocked() returns (oldest: string)
      requires Valid() && entries != map[]
      modifies this`entries, this`byConn
      ensures Valid() && Oldest(old(entries), oldest) && entries == old(entries) - {oldest}
      ensures oldest in old(entries)
      ensures forall t | t in old(entries) :: old(entries)[oldest].storedAt <= old(entries)[t].storedAt
    {
      oldest := "";
      var oldestAt := 0;
      var rest := entries.Keys;
      while rest != {}
        invariant rest <= entries.Keys
        invariant oldest == "" ==> rest == entries.Keys
        invariant oldest != "" ==> oldest in entries && oldestAt == entries[oldest].storedAt
        invariant oldest != "" ==> forall t | t in entries && t !in rest :: oldestAt <= entries[t].storedAt
      {
        var taskId :| taskId in rest;
        rest := rest - {taskId};
        if oldest == "" || entries[taskId].storedAt < oldestAt {
          oldest, oldestAt := taskId, entries[taskId].storedAt;
        }
      }
      DeleteLocked(oldest);
    }

    /** The sweep, then an eviction if the map is still full. */
    method MakeRoom(now: int)
      requires Valid()
      modifies this`entries, this`byConn, this`lastSweep
      ensures Valid() && MadeRoom(old(entries), old(lastSweep), now, entries)
      ensures lastSweep == if SweepDue(old(lastSweep), now) then now else old(lastSweep)
    {
      hide ScanIndex, Swept, Sound;
      SweepLocked(now);
      if |entries| >= MAX_ENTRIES {
        var oldest := EvictOldestLocked();
      }
    }

    method Insert(taskId: string, entry: Entry)
      requires Valid() && taskId != "" && |entries| < MAX_ENTRIES
      modifies this`entries, this`byConn
      ensures Valid() && entries == old(entries)[taskId := entry]
    {
      hide ScanIndex, Sound;
      DeleteLocked(taskId);
      InsertSound(old(Snapshot()), taskId, entry);
      IndexAfterStore(entries, byConn, taskId, entry);
      assert entries[taskId := entry] == old(entries)[taskId := entry];
      entries := entries[taskId := entry];
      if entry.conn.Some? {
        var c := entry.conn.value;
        var claims := if c in byConn then byConn[c] else {};
        byConn := byConn[c := claims + {taskId}];
      }
    }

    method StoreForConn(now: int, taskId: string, msg: Identity, lock: Identity, tokenId: string,
                        conn: Option<Identity>)
      requires Valid() && taskId != ""
      modifies this`entries, this`byConn, this`lastSweep
      ensures Valid()
      ensures Next(old(Snapshot()), Store(now, taskId, msg, lock, tokenId, conn), Snapshot())
      ensures taskId in entries && entries[taskId] == Entry(msg, lock, now, tokenId, conn, FRESH, false)
    {
      hide ScanIndex, MadeRoom;
      MakeRoom(now);
      RoomMade(old(entries), old(lastSweep), now, entries);
      Insert(taskId, Entry(msg, lock, now, tokenId, conn, FRESH, false));
    }

    /** The claims polled under a connection: all of them, each once, found through the index. */
    method ConnClaims(conn: Identity) returns (refs: seq<ClaimRef>)
      requires Valid()
      ensures forall r :: r in refs <==> IsClaim(entries, conn, r)
      ensures forall i, j | 0 <= i < j < |refs| :: refs[i].taskId != refs[j].taskId
    {
      refs := [];
      ScanFinds(entries);
      var rest := if conn in byConn then byConn[conn] else {};
      assert rest == ClaimedUnder(entries, conn);
      while rest != {}
        invariant rest <= ClaimedUnder(entries, conn)
        invariant forall r :: r in refs <==> IsClaim(entries, conn, r) && r.taskId !in rest
        invariant forall i, j | 0 <= i < j < |refs| :: refs[i].taskId != refs[j].taskId
      {
        var taskId :| taskId in rest;
        forall i | 0 <= i < |refs| ensures refs[i].taskId != taskId { assert refs[i] in refs; }
        rest, refs := rest - {taskId}, refs + [ClaimRef(taskId, entries[taskId].msg, entries[taskId].lock)];
      }
    }

    method ConnClaim(conn: Identity, taskId: string) returns (r: Option<ClaimRef>)
      requires Valid()
      ensures r.Some? <==> taskId in ClaimedUnder(entries, conn)
      ensures r.Some? ==> r.value == ClaimRef(taskId, entries[taskId].msg, entries[taskId].lock)
    {
      if taskId !in entries || entries[taskId].conn != Some(conn) {
        return None;
      }
      r := Some(ClaimRef(taskId, entries[taskId].msg, entries[taskId].lock));
    }

    method TakeUnresolved(ref: ClaimRef) returns (taken: bool)
      requires Valid() && ref.taskId != ""
      modifies this`entries, this`byConn
      ensures Valid()
      ensures taken <==>
              ref.taskId in old(entries) && old(entries)[ref.taskId].msg == ref.msg && !old(entries)[ref.taskId].fenced
      ensures entries == if taken then old(entries) - {ref.taskId} else old(entries)
      ensures if taken then Next(old(Snapshot()), Remove(ref.taskId), Snapshot()) else Snapshot() == old(Snapshot())
    {
      if ref.taskId !in entries || entries[ref.taskId].msg != ref.msg || entries[ref.taskId].fenced {
        return false;
      }
      DeleteLocked(ref.taskId);
      taken := true;
    }

    method Touch(now: int, taskId: string) returns (found: bool)
      requires Valid() && taskId != ""
      modifies this`entries
      ensures Valid() && found == (taskId in old(entries)) &&
          Next(old(Snapshot()), Event.Touch(now, taskId), Snapshot())
      ensures found ==> entries == old(entries)[taskId := old(entries)[taskId].(storedAt := now)]
    {
      if taskId !in entries {
        return false;
      }
      NextSound(Snapshot(), Event.Touch(now, taskId),
        Snapshot().(entries := entries[taskId := entries[taskId].(storedAt := now)]));
      IndexUnchanged(entries, entries[taskId := entries[taskId].(storedAt := now)]);
      entries := entries[taskId := entries[taskId].(storedAt := now)];
      found := true;
    }

    method Delete(taskId: string)
      requires Valid() && taskId != ""
      modifies this`entries, this`byConn
      ensures Valid() && Next(old(Snapshot()), Remove(taskId), Snapshot()) && entries == old(entries) - {taskId}
    {
      DeleteLocked(taskId);
    }

    /** Reads and updates the log counters as one step. */
    method WithLogState(taskId: string, f: LogState -> LogState) returns (found: bool)
      requires Valid() && taskId != ""
      modifies this`entries
      ensures Valid() && found == (taskId in old(entries))
      ensures if found then Next(old(Snapshot()),
          Rewrite(taskId, f(old(entries)[taskId].log), old(entries)[taskId].fenced), Snapshot())
              else Snapshot() == old(Snapshot())
      ensures found ==> entries == old(entries)[taskId := old(entries)[taskId].(log := f(old(entries)[taskId].log))]
    {
      if taskId !in entries {
        return false;
      }
      var entry := entries[taskId].(log := f(entries[taskId].log));
      NextSound(Snapshot(), Rewrite(taskId, entry.log, entry.fenced), Snapshot().(entries := entries[taskId := entry]));
      IndexUnchanged(entries, entries[taskId := entry]);
      entries := entries[taskId := entry];
      found := true;
    }

    method SetJournalStop(taskId: string) returns (found: bool)
      requires Valid() && taskId != ""
      modifies this`entries
      ensures Valid() && found == (taskId in old(entries))
      ensures if found then Next(old(Snapshot()), Rewrite(taskId, old(entries)[taskId].log, true), Snapshot())
              else Snapshot() == old(Snapshot())
      ensures found ==> entries == old(entries)[taskId := old(entries)[taskId].(fenced := true)]
    {
      if taskId !in entries {
        return false;
      }
      var entry := entries[taskId].(fenced := true);
      NextSound(Snapshot(), Rewrite(taskId, entry.log, true), Snapshot().(entries := entries[taskId := entry]));
      IndexUnchanged(entries, entries[taskId := entry]);
      entries := entries[taskId := entry];
      found := true;
    }

    method MarkResolved(now: int, taskId: string, tokenId: string)
      requires Valid() && taskId != ""
      modifies this`resolvedTasks
      ensures Valid() && Next(old(Snapshot()), Mark(now, taskId, tokenId), Snapshot())
      ensures taskId in resolvedTasks && resolvedTasks[taskId] == Resolved(now, tokenId)
    {
      ghost var before := Snapshot();
      if |resolvedTasks| >= RESOLVED_MAX {
        var oldest := "";
        var oldestAt := 0;
        var rest := resolvedTasks.Keys;
        while rest != {}
          invariant rest <= resolvedTasks.Keys
          invariant oldest == "" ==> rest == resolvedTasks.Keys
          invariant oldest != "" ==> oldest in resolvedTasks && oldestAt == resolvedTasks[oldest].at
          invariant oldest != "" ==> forall t | t in resolvedTasks && t !in rest :: oldestAt <= resolvedTasks[t].at
        {
          var id :| id in rest;
          rest := rest - {id};
          if oldest == "" || resolvedTasks[id].at < oldestAt {
            oldest, oldestAt := id, resolvedTasks[id].at;
          }
        }
        assert OldestResolved(resolvedTasks, oldest);
        resolvedTasks := resolvedTasks - {oldest};
      }
      assert MadeRoomToMark(before.resolved, resolvedTasks);
      resolvedTasks := resolvedTasks[taskId := Resolved(now, tokenId)];
      NextSound(before, Mark(now, taskId, tokenId), Snapshot());
    }

    method WasResolvedBy(now: int, taskId: string, admin: bool, tokenId: string) returns (r: bool)
      requires Valid() && taskId != ""
      modifies this`resolvedTasks
      ensures Valid() && Next(old(Snapshot()), Probe(now, taskId), Snapshot())
      ensures resolvedTasks == old(resolvedTasks) || resolvedTasks == old(resolvedTasks) - {taskId}
      ensures r ==> resolvedTasks == old(resolvedTasks)
      ensures r ==> taskId in old(resolvedTasks)
      ensures taskId in old(resolvedTasks) ==>
                (r <==> now - old(resolvedTasks)[taskId].at < RESOLVED_TTL
                        && (admin || (tokenId != "" && tokenId == old(resolvedTasks)[taskId].tokenId)))
    {
      if taskId !in resolvedTasks {
        return false;
      }
      if now - resolvedTasks[taskId].at >= RESOLVED_TTL {
        SubsetCount((resolvedTasks - {taskId}).Keys, resolvedTasks.Keys);
        resolvedTasks := resolvedTasks - {taskId};
        return false;
      }
      r := admin || (tokenId != "" && tokenId == resolvedTasks[taskId].tokenId);
    }
  }
}
