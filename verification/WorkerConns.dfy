/**
 The registry of worker connections and the release of a closed connection's
 claims (bridge/workerconn.go), one call at a time; ClaimProtocol has the
 interleavings.
 */
module WorkerConns {
  import opened Dag
  import opened AckMaps

  datatype Change = Opened(id: string, conn: Identity) | Closed(conn: Identity, release: bool)

  /** The newest connection opened for an id, unless it has closed since. */
  function CurrentOf(history: seq<Change>, id: string): Option<Identity> {
    if history == [] then None
    else
      var last, before := history[|history| - 1], CurrentOf(history[..|history| - 1], id);
      match last
      case Opened(i, c) => if i == id then Some(c) else before
      case Closed(c, _) => if before == Some(c) then None else before
  }

  function OpenedConns(history: seq<Change>): set<Identity> {
    if history == [] then {}
    else
      var last := history[|history| - 1];
      OpenedConns(history[..|history| - 1]) + if last.Opened? then {last.conn} else {}
  }

  /** Change i opened this connection for the id; since then nothing was opened for the id, and it was not closed. */
  ghost predicate LastOpened(history: seq<Change>, id: string, conn: Identity, i: nat) {
    && i < |history| && history[i] == Opened(id, conn)
    && (forall j | i < j < |history| && history[j].Opened? :: history[j].id != id)
    && (forall j | i < j < |history| && history[j].Closed? :: history[j].conn != conn)
  }

  lemma StillOpened(before: seq<Change>, last: Change, id: string, conn: Identity, i: nat)
    requires LastOpened(before, id, conn, i) && !(last.Opened? && last.id == id) && !(last.Closed? && last.conn == conn)
    ensures LastOpened(before + [last], id, conn, i)
  {
  }

  lemma OpenedBefore(history: seq<Change>, id: string, conn: Identity, i: nat)
    requires LastOpened(history, id, conn, i) && i < |history| - 1
    ensures LastOpened(history[..|history| - 1], id, conn, i)
  {
    var before := history[..|history| - 1];
    assert forall j | i < j < |before| :: before[j] == history[j];
  }

  lemma {:induction false} CurrentIsLast(history: seq<Change>, id: string) returns (i: nat)
    requires CurrentOf(history, id).Some?
    ensures LastOpened(history, id, CurrentOf(history, id).value, i)
  {
    hide LastOpened;
    var n := |history| - 1;
    if history[n].Opened? && history[n].id == id {
      i := n;
      JustOpened(history, id);
    } else {
      i := CurrentIsLast(history[..n], id);
      StillOpened(history[..n], history[n], id, CurrentOf(history, id).value, i);
      assert history == history[..n] + [history[n]];
    }
  }

  lemma JustOpened(history: seq<Change>, id: string)
    requires history != [] && history[|history| - 1].Opened? && history[|history| - 1].id == id
    ensures LastOpened(history, id, history[|history| - 1].conn, |history| - 1)
  {
  }

  lemma {:induction false} LastIsCurrent(history: seq<Change>, id: string, conn: Identity, i: nat)
    requires LastOpened(history, id, conn, i)
    ensures CurrentOf(history, id) == Some(conn)
  {
    if i < |history| - 1 {
      OpenedBefore(history, id, conn, i);
      LastIsCurrent(history[..|history| - 1], id, conn, i);
    }
  }

  /** Over any history, which connection is current: the last one opened for the id, if it was not closed since. */
  lemma CurrentIff(history: seq<Change>, id: string, conn: Identity)
    ensures CurrentOf(history, id) == Some(conn) <==> exists i :: LastOpened(history, id, conn, i)
  {
    hide CurrentOf, LastOpened;
    if CurrentOf(history, id) == Some(conn) {
      var i := CurrentIsLast(history, id);
    }
    if i: nat :| LastOpened(history, id, conn, i) {
      LastIsCurrent(history, id, conn, i);
    }
  }

  /** Whatever replaced connections close later, and whatever opens for other ids, the successor stays current. */
  lemma LateCloseKeepsSuccessor(history: seq<Change>, rest: seq<Change>, id: string, conn: Identity)
    requires CurrentOf(history, id) == Some(conn)
    requires forall r | r in rest :: if r.Opened? then r.id != id else r.conn != conn
    ensures CurrentOf(history + rest, id) == Some(conn)
  {
    hide CurrentOf;
    CurrentIff(history, id, conn);
    var i :| LastOpened(history, id, conn, i);
    forall j | |history| <= j < |history + rest| ensures (history + rest)[j] in rest {}
    assert LastOpened(history + rest, id, conn, i);
    CurrentIff(history + rest, id, conn);
  }

  lemma AfterChange(history: seq<Change>, last: Change)
    ensures forall id :: CurrentOf(history + [last], id) ==
                         (match last
                          case Opened(i, c) => if i == id then Some(c) else CurrentOf(history, id)
                          case Closed(c, _) => if CurrentOf(history, id) == Some(c) then None
                            else CurrentOf(history, id))
    ensures OpenedConns(history + [last]) == OpenedConns(history) + if last.Opened? then {last.conn} else {}
  {
    assert (history + [last])[..|history|] == history;
  }

  class Registry {
    var byId: map<string, Identity>
    var idOf: map<Identity, string>
    var releasing: set<Identity>
    var closed: set<Identity>
    ghost var history: seq<Change>

    ghost predicate Valid() reads this {
      && idOf.Keys == OpenedConns(history)
      && (forall id :: (if id in byId then Some(byId[id]) else None) == CurrentOf(history, id))
      && (forall id | id in byId :: byId[id] in idOf && idOf[byId[id]] == id)
    }

    constructor ()
      ensures Valid() && history == []
    {
      byId, idOf, releasing, closed, history := map[], map[], {}, {}, [];
    }

    method Open(id: string, conn: Identity)
      requires Valid() && id != "" && conn !in idOf
      modifies this`byId, this`idOf, this`history
      ensures Valid() && history == old(history) + [Opened(id, conn)]
    {
      hide CurrentOf, OpenedConns;
      AfterChange(history, Opened(id, conn));
      byId, idOf := byId[id := conn], idOf[conn := id];
      history := history + [Opened(id, conn)];
    }

    /** The release flag is set before the closed flag. */
    method Close(conn: Identity, release: bool)
      requires Valid() && conn in idOf
      modifies this`byId, this`releasing, this`closed, this`history
      ensures Valid() && history == old(history) + [Closed(conn, release)]
      ensures closed == old(closed) + {conn} && (conn in releasing <==> release)
      ensures forall c | c != conn :: c in releasing <==> c in old(releasing)
    {
      hide CurrentOf, OpenedConns;
      AfterChange(history, Closed(conn, release));
      releasing := if release then releasing + {conn} else releasing - {conn};
      closed := closed + {conn};
      if idOf[conn] in byId && byId[idOf[conn]] == conn {
        byId := byId - {idOf[conn]};
      }
      history := history + [Closed(conn, release)];
    }

    method Current(id: string) returns (conn: Option<Identity>)
      requires Valid()
      ensures conn == CurrentOf(history, id)
    {
      conn := if id in byId then Some(byId[id]) else None;
    }
  }

  /** The claims a release of the connection takes. */
  function Unfenced(entries: Entries, conn: Identity): set<string> {
    set t | t in entries && entries[t].conn == Some(conn) && !entries[t].fenced
  }

  /**
   Releases every unfenced claim of the connection, and nothing else. A Nak that
   fails, as nakOk says, leaves the claim released all the same.
   */
  method ReleaseWorkerClaims(am: AckMap, conn: Identity, nakOk: ClaimRef -> bool)
    returns (released: seq<ClaimRef>, nakd: seq<ClaimRef>)
    requires am.Valid()
    modifies am
    ensures am.Valid() && am.entries == old(am.entries) - Unfenced(old(am.entries), conn)
    ensures forall r :: r in released <==>
        IsClaim(old(am.entries), conn, r) && r.taskId in Unfenced(old(am.entries), conn)
    ensures forall r :: r in nakd <==> r in released && nakOk(r)
    ensures am.lastSweep == old(am.lastSweep) && am.resolvedTasks == old(am.resolvedTasks)
  {
    hide AckMap.Valid, Unfenced, IsClaim, Tasks, Kept;
    ghost var before, unfenced := am.entries, Unfenced(am.entries, conn);
    ClaimsFacts(am, conn);
    var refs := am.ConnClaims(conn);
    forall i | 0 <= i < |refs| ensures RefOf(before, unfenced, refs[i]) { assert refs[i] in refs; }
    released, nakd := ReleaseRefs(am, refs, unfenced, nakOk);
    AllTaken(before, conn, refs);
    KeptMembers(refs, unfenced);
  }

  /** A ref of an entry of the map, releasable or fenced as the set says. */
  ghost predicate RefOf(entries: Entries, unfenced: set<string>, ref: ClaimRef) {
    && ref.taskId != "" && ref.taskId in entries && entries[ref.taskId].msg == ref.msg
    && (ref.taskId in unfenced <==> !entries[ref.taskId].fenced)
  }

  /** Takes each claim in turn that is not fenced. */
  method ReleaseRefs(am: AckMap, refs: seq<ClaimRef>, ghost unfenced: set<string>, nakOk: ClaimRef -> bool)
    returns (released: seq<ClaimRef>, nakd: seq<ClaimRef>)
    requires am.Valid() && forall i, j | 0 <= i < j < |refs| :: refs[i].taskId != refs[j].taskId
    requires forall i | 0 <= i < |refs| :: RefOf(am.entries, unfenced, refs[i])
    modifies am
    ensures am.Valid() && am.entries == old(am.entries) - (unfenced * Tasks(refs)) && released == Kept(refs, unfenced)
    ensures forall r :: r in nakd <==> r in released && nakOk(r)
    ensures am.lastSweep == old(am.lastSweep) && am.resolvedTasks == old(am.resolvedTasks)
  {
    hide AckMap.Valid, Tasks, Next, AckMap.Snapshot;
    ghost var before := am.entries;
    NoneTaken(before, unfenced);
    released, nakd := [], [];
    for i := 0 to |refs|
      invariant am.Valid() && am.entries == before - (unfenced * Tasks(refs[..i]))
      invariant released == Kept(refs[..i], unfenced)
      invariant forall r :: r in nakd <==> r in released && nakOk(r)
      invariant am.lastSweep == old(am.lastSweep) && am.resolvedTasks == old(am.resolvedTasks)
    {
      var ref := refs[i];
      assert RefOf(before, unfenced, ref);
      TasksNext(refs, i);
      OneMoreTaken(before, unfenced, Tasks(refs[..i]), ref.taskId);
      assert refs[..i + 1][..i] == refs[..i];
      var ok := am.TakeUnresolved(ref);
      if ok {
        released := released + [ref];
        if nakOk(ref) {
          nakd := nakd + [ref];
        }
      }
    }
    assert refs[..|refs|] == refs;
  }

  function Kept(refs: seq<ClaimRef>, tasks: set<string>): seq<ClaimRef> {
    if refs == [] then []
    else
      var last := refs[|refs| - 1];
      Kept(refs[..|refs| - 1], tasks) + if last.taskId in tasks then [last] else []
  }

  lemma {:induction false} KeptMembers(refs: seq<ClaimRef>, tasks: set<string>)
    ensures forall r :: r in Kept(refs, tasks) <==> r in refs && r.taskId in tasks
  {
    if refs != [] {
      KeptMembers(refs[..|refs| - 1], tasks);
      assert refs == refs[..|refs| - 1] + [refs[|refs| - 1]];
    }
  }

  lemma NoneTaken(entries: Entries, unfenced: set<string>)
    ensures entries - (unfenced * Tasks([])) == entries
  {
  }

  lemma OneMoreTaken(entries: Entries, unfenced: set<string>, tasks: set<string>, t: string)
    ensures entries - (unfenced * (tasks + {t})) ==
            if t in unfenced then (entries - (unfenced * tasks)) - {t} else entries - (unfenced * tasks)
  {
    if t in unfenced {
      assert unfenced * (tasks + {t}) == unfenced * tasks + {t};
    } else {
      assert unfenced * (tasks + {t}) == unfenced * tasks;
    }
  }

  function Tasks(refs: seq<ClaimRef>): set<string> {
    set r | r in refs :: r.taskId
  }

  lemma TasksNext(refs: seq<ClaimRef>, i: nat)
    requires i < |refs| && forall i, j | 0 <= i < j < |refs| :: refs[i].taskId != refs[j].taskId
    ensures Tasks(refs[..i + 1]) == Tasks(refs[..i]) + {refs[i].taskId} && refs[i].taskId !in Tasks(refs[..i])
  {
    assert refs[..i + 1] == refs[..i] + [refs[i]];
  }

  lemma AllTaken(entries: Entries, conn: Identity, refs: seq<ClaimRef>)
    requires forall r :: r in refs <==> IsClaim(entries, conn, r)
    ensures Unfenced(entries, conn) * Tasks(refs) == Unfenced(entries, conn)
  {
    forall t | t in Unfenced(entries, conn) ensures t in Tasks(refs) {
      var ref := ClaimRef(t, entries[t].msg, entries[t].lock);
      assert IsClaim(entries, conn, ref);
      assert ref in refs;
    }
  }

  lemma ClaimsFacts(am: AckMap, conn: Identity)
    requires am.Valid()
    ensures forall r :: IsClaim(am.entries, conn, r) ==> RefOf(am.entries, Unfenced(am.entries, conn), r)
  {
  }
}
