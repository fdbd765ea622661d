/**
 Log ingestion of the bridge (bridge/logs.go): planning the chunks of one
 request, and what a task's whole history of requests publishes.
 */
module LogIngest {

  const CHUNK_BYTES_MAX: nat := 64 * 1024
  const STEP_BYTES_MAX: nat := 64 * 1024 * 1024
  const TRUNCATED := "truncated"

  newtype byte = x | 0 <= x < 256

  datatype Stream = Out | Err

  datatype Chunk = Chunk(stream: Stream, data: seq<byte>)

  datatype Step = Data(stream: Stream, data: seq<byte>) | Marker(text: string)

  /** The counters the ack map keeps for a claimed task. */
  datatype LogState = LogState(next: nat, total: nat, truncated: bool)

  datatype Planned = Planned(state: LogState, steps: seq<Step>)

  function Min(a: nat, b: nat): nat {
    if a < b then a else b
  }

  function Cut(s: LogState): LogState {
    LogState(s.next + 1, s.total, true)
  }

  function Taken(s: LogState, data: seq<byte>): nat
    requires s.total < STEP_BYTES_MAX
  {
    Min(Min(|data|, CHUNK_BYTES_MAX), STEP_BYTES_MAX - s.total)
  }

  function PlanChunk(s: LogState, stream: Stream, data: seq<byte>): Planned
    decreases |data|
  {
    if s.truncated || data == [] then Planned(s, [])
    else if s.total >= STEP_BYTES_MAX then Planned(Cut(s), [Marker(TRUNCATED)])
    else
      var take := Taken(s, data);
      var s' := LogState(s.next + 1, s.total + take, false);
      if s'.total >= STEP_BYTES_MAX then Planned(Cut(s'), [Data(stream, data[..take]), Marker(TRUNCATED)])
      else
        var rest := PlanChunk(s', stream, data[take..]);
        Planned(rest.state, [Data(stream, data[..take])] + rest.steps)
  }

  /** The plan for a request, chunk after chunk. */
  function Plan(s: LogState, chunks: seq<Chunk>): Planned {
    if chunks == [] then Planned(s, [])
    else
      var first := Plan(s, chunks[..|chunks| - 1]);
      var last := chunks[|chunks| - 1];
      var more := PlanChunk(first.state, last.stream, last.data);
      Planned(more.state, first.steps + more.steps)
  }

  /** Once cut, nothing more is planned. */
  lemma {:induction false} CutStaysCut(s: LogState, chunks: seq<Chunk>, i: nat)
    requires i <= |chunks| && Plan(s, chunks[..i]).state.truncated
    ensures Plan(s, chunks) == Plan(s, chunks[..i])
    decreases |chunks|
  {
    if i < |chunks| {
      var init := chunks[..|chunks| - 1];
      assert init[..i] == chunks[..i];
      CutStaysCut(s, init, i);
    } else {
      assert chunks[..i] == chunks;
    }
  }

  method PlanLogIngest(s: LogState, chunks: seq<Chunk>) returns (r: Planned)
    ensures r == Plan(s, chunks)
  {
    if s.truncated {
      CutStaysCut(s, chunks, 0);
      return Planned(s, []);
    }
    r := Planned(s, []);
    var i := 0;
    while i < |chunks|
      invariant i <= |chunks|
      invariant r == Plan(s, chunks[..i]) && !r.state.truncated
    {
      var c := chunks[i];
      var remaining := c.data;
      ghost var first, whole := r, Plan(s, chunks[..i + 1]);
      assert chunks[..i + 1][..i] == chunks[..i];
      while |remaining| > 0
        invariant !r.state.truncated
        invariant Continues(r, PlanChunk(r.state, c.stream, remaining), whole)
      {
        var more;
        more, remaining := PlanPiece(r.state, c.stream, remaining);
        assert r.steps + (more.steps + PlanChunk(more.state, c.stream, remaining).steps)
            == (r.steps + more.steps) + PlanChunk(more.state, c.stream, remaining).steps;
        r := Planned(more.state, r.steps + more.steps);
        if r.state.truncated {
          assert r == whole;
          CutStaysCut(s, chunks, i + 1);
          return;
        }
      }
      assert r == whole;
      i := i + 1;
    }
    assert chunks[..i] == chunks;
  }

  ghost predicate Continues(sofar: Planned, rest: Planned, whole: Planned) {
    whole == Planned(rest.state, sofar.steps + rest.steps)
  }

  /** One turn of the inner loop: a piece, the marker, or both. */
  method PlanPiece(s: LogState, stream: Stream, data: seq<byte>) returns (r: Planned, remaining: seq<byte>)
    requires !s.truncated && data != []
    ensures r.state.truncated || |remaining| < |data|
    ensures PlanChunk(s, stream, data) ==
            Planned(PlanChunk(r.state, stream, remaining).state, r.steps + PlanChunk(r.state, stream, remaining).steps)
  {
    var budget := STEP_BYTES_MAX - s.total;
    if budget <= 0 {
      return Planned(Cut(s), [Marker(TRUNCATED)]), data;
    }
    var take := |data|;
    if take > CHUNK_BYTES_MAX { take := CHUNK_BYTES_MAX; }
    if take > budget { take := budget; }
    r := Planned(LogState(s.next + 1, s.total + take, false), [Data(stream, data[..take])]);
    remaining := data[take..];
    if r.state.total >= STEP_BYTES_MAX {
      r := Planned(Cut(r.state), r.steps + [Marker(TRUNCATED)]);
    }
  }

  /** Splitting one request into two changes nothing. */
  lemma {:induction false} PlanSplits(s: LogState, xs: seq<Chunk>, ys: seq<Chunk>)
    ensures Plan(s, xs + ys) ==
            Planned(Plan(Plan(s, xs).state, ys).state, Plan(s, xs).steps + Plan(Plan(s, xs).state, ys).steps)
  {
    if ys == [] {
      assert xs + ys == xs;
    } else {
      PlanSplits(s, xs, ys[..|ys| - 1]);
      assert (xs + ys)[..|xs + ys| - 1] == xs + ys[..|ys| - 1];
    }
  }

  // ---------------------------------------------------------------- what a plan publishes

  datatype Tagged = Tagged(stream: Stream, value: byte)

  function Tag(stream: Stream, data: seq<byte>): (r: seq<Tagged>)
    ensures |r| == |data|
  {
    seq(|data|, i requires 0 <= i < |data| => Tagged(stream, data[i]))
  }

  /** The bytes a worker sent, each with its stream. */
  function Sent(chunks: seq<Chunk>): seq<Tagged> {
    if chunks == [] then []
    else Sent(chunks[..|chunks| - 1]) + Tag(chunks[|chunks| - 1].stream, chunks[|chunks| - 1].data)
  }

  function StepContent(step: Step): seq<Tagged> {
    match step case Data(stream, data) => Tag(stream, data) case Marker(_) => []
  }

  /** The bytes published steps carry; markers carry none. */
  function Content(steps: seq<Step>): seq<Tagged> {
    if steps == [] then []
    else Content(steps[..|steps| - 1]) + StepContent(steps[|steps| - 1])
  }

  function Cuts(steps: seq<Step>): nat {
    if steps == [] then 0
    else Cuts(steps[..|steps| - 1]) + if steps[|steps| - 1] == Marker(TRUNCATED) then 1 else 0
  }

  lemma {:induction false} ContentConcat(a: seq<Step>, b: seq<Step>)
    ensures Content(a + b) == Content(a) + Content(b)
    ensures Cuts(a + b) == Cuts(a) + Cuts(b)
  {
    hide StepContent;
    if b == [] {
      assert a + b == a;
    } else {
      var init, last := b[..|b| - 1], b[|b| - 1];
      ContentConcat(a, init);
      assert (a + b)[..|a + b| - 1] == a + init && (a + b)[|a + b| - 1] == last;
      assert Content(a) + (Content(init) + StepContent(last)) == (Content(a) + Content(init)) + StepContent(last);
    }
  }

  lemma SingleStep(step: Step)
    ensures Content([step]) == StepContent(step)
    ensures Cuts([step]) == if step == Marker(TRUNCATED) then 1 else 0
  {
    assert [step][..0] == [];
  }

  /** How many of these bytes the step's budget still admits. */
  function Admitted(s: LogState, count: nat): nat {
    if s.truncated || s.total >= STEP_BYTES_MAX then 0 else Min(count, STEP_BYTES_MAX - s.total)
  }

  predicate Overruns(s: LogState, count: nat) {
    count > 0 && s.total + count >= STEP_BYTES_MAX
  }

  predicate PieceOk(step: Step) {
    step.Data? ==> 0 < |step.data| <= CHUNK_BYTES_MAX
  }

  /** A plan publishes the admitted prefix of the bytes in order, in bounded pieces, and marks the cut once. */
  ghost predicate Delivers(s: LogState, bytes: seq<Tagged>, p: Planned) {
    && Content(p.steps) == bytes[..Admitted(s, |bytes|)]
    && p.state.total == s.total + Admitted(s, |bytes|)
    && p.state.next == s.next + |p.steps|
    && (p.state.truncated <==> s.truncated || Overruns(s, |bytes|))
    && Cuts(p.steps) == (if !s.truncated && p.state.truncated then 1 else 0)
    && (s.truncated ==> p.steps == [])
    && (!s.truncated && p.state.truncated ==> p.steps != [] && p.steps[|p.steps| - 1] == Marker(TRUNCATED))
    && (forall i | 0 <= i < |p.steps| :: PieceOk(p.steps[i]))
  }

  lemma TagSplits(stream: Stream, data: seq<byte>, k: nat)
    requires k <= |data|
    ensures Tag(stream, data) == Tag(stream, data[..k]) + Tag(stream, data[k..])
    ensures Tag(stream, data)[..k] == Tag(stream, data[..k])
  {
  }

  /** Delivering one stretch of bytes and then another delivers them together. */
  lemma DeliversThen(s: LogState, a: seq<Tagged>, p: Planned, b: seq<Tagged>, q: Planned)
    requires Delivers(s, a, p) && Delivers(p.state, b, q)
    ensures Delivers(s, a + b, Planned(q.state, p.steps + q.steps))
  {
    hide Content, Cuts, PieceOk;
    ContentConcat(p.steps, q.steps);
    var k, m := Admitted(s, |a|), Admitted(p.state, |b|);
    assert Admitted(s, |a + b|) == k + m;
    assert m > 0 ==> k == |a|;
    assert (a + b)[..k + m] == a[..k] + b[..m];
  }

  /** A single piece within the budget. */
  lemma PieceDelivers(s: LogState, stream: Stream, data: seq<byte>)
    requires !s.truncated && s.total + |data| < STEP_BYTES_MAX && 0 < |data| <= CHUNK_BYTES_MAX
    ensures Delivers(s, Tag(stream, data), Planned(LogState(s.next + 1, s.total + |data|, false), [Data(stream, data)]))
  {
    SingleStep(Data(stream, data));
  }

  /** The cut: the last admitted piece, if any, and the marker. */
  lemma CutDelivers(s: LogState, stream: Stream, data: seq<byte>)
    requires !s.truncated && s.total < STEP_BYTES_MAX && data != [] && s.total + Taken(s, data) == STEP_BYTES_MAX
    ensures var take := Taken(s, data);
            Delivers(s, Tag(stream, data),
                     Planned(LogState(s.next + 2, s.total + take, true),
                       [Data(stream, data[..take]), Marker(TRUNCATED)]))
  {
    hide Content, Cuts;
    var take := Taken(s, data);
    SingleStep(Data(stream, data[..take]));
    SingleStep(Marker(TRUNCATED));
    ContentConcat([Data(stream, data[..take])], [Marker(TRUNCATED)]);
    assert [Data(stream, data[..take])] + [Marker(TRUNCATED)] == [Data(stream, data[..take]), Marker(TRUNCATED)];
    TagSplits(stream, data, take);
  }

  lemma {:induction false} ChunkDelivers(s: LogState, stream: Stream, data: seq<byte>)
    ensures Delivers(s, Tag(stream, data), PlanChunk(s, stream, data))
    decreases |data|
  {
    hide Delivers;
    if s.truncated || data == [] {
      NothingPlanned(s, Tag(stream, data));
    } else if s.total >= STEP_BYTES_MAX {
      MarkerAlone(s, Tag(stream, data));
    } else {
      var take := Taken(s, data);
      var s' := LogState(s.next + 1, s.total + take, false);
      TagSplits(stream, data, take);
      if s'.total >= STEP_BYTES_MAX {
        CutDelivers(s, stream, data);
      } else {
        PieceDelivers(s, stream, data[..take]);
        ChunkDelivers(s', stream, data[take..]);
        DeliversThen(s, Tag(stream, data[..take]), Planned(s', [Data(stream, data[..take])]),
                     Tag(stream, data[take..]), PlanChunk(s', stream, data[take..]));
      }
    }
  }

  lemma NothingPlanned(s: LogState, bytes: seq<Tagged>)
    requires s.truncated || bytes == []
    ensures Delivers(s, bytes, Planned(s, []))
  {
  }

  lemma MarkerAlone(s: LogState, bytes: seq<Tagged>)
    requires !s.truncated && s.total >= STEP_BYTES_MAX && bytes != []
    ensures Delivers(s, bytes, Planned(Cut(s), [Marker(TRUNCATED)]))
  {
    SingleStep(Marker(TRUNCATED));
  }

  lemma {:induction false} PlanDelivers(s: LogState, chunks: seq<Chunk>)
    ensures Delivers(s, Sent(chunks), Plan(s, chunks))
  {
    hide Delivers;
    if chunks == [] {
      NothingPlanned(s, []);
    } else {
      var init, last := chunks[..|chunks| - 1], chunks[|chunks| - 1];
      PlanDelivers(s, init);
      var first := Plan(s, init);
      ChunkDelivers(first.state, last.stream, last.data);
      DeliversThen(s, Sent(init), first, Tag(last.stream, last.data), PlanChunk(first.state, last.stream, last.data));
    }
  }

  // ---------------------------------------------------------------- whole histories

  /** What touches a claimed task's log counters, each atomically under the ack map's lock. */
  datatype Request = Post(chunks: seq<Chunk>) | End(marker: string)

  /** A published chunk with the sequence number its message id is made from. */
  datatype Message = Message(number: nat, step: Step)

  const FRESH := LogState(0, 0, false)

  function Answer(s: LogState, request: Request): Planned {
    match request
    case Post(chunks) => Plan(s, chunks)
    case End(marker) => Planned(LogState(s.next + 1, s.total, s.truncated), [Marker(marker)])
  }

  function Numbered(start: nat, steps: seq<Step>): seq<Message> {
    seq(|steps|, i requires 0 <= i < |steps| => Message(start + i, steps[i]))
  }

  datatype History = History(state: LogState, messages: seq<Message>)

  function Serve(requests: seq<Request>): History {
    if requests == [] then History(FRESH, [])
    else
      var before := Serve(requests[..|requests| - 1]);
      var answer := Answer(before.state, requests[|requests| - 1]);
      History(answer.state, before.messages + Numbered(before.state.next, answer.steps))
  }

  function RequestBytes(request: Request): seq<Tagged> {
    if request.Post? then Sent(request.chunks) else []
  }

  function AllSent(requests: seq<Request>): seq<Tagged> {
    if requests == [] then []
    else AllSent(requests[..|requests| - 1]) + RequestBytes(requests[|requests| - 1])
  }

  function Steps(messages: seq<Message>): (r: seq<Step>)
    ensures |r| == |messages|
    ensures forall i | 0 <= i < |messages| :: r[i] == messages[i].step
  {
    seq(|messages|, i requires 0 <= i < |messages| => messages[i].step)
  }

  /** Attempt-ending markers are never the truncation marker. */
  predicate EndsNamed(requests: seq<Request>) {
    forall r | r in requests && r.End? :: r.marker != TRUNCATED
  }

  /**
   Messages are numbered 0, 1, 2, ... without gap or repetition, and their bytes
   are exactly the first STEP_BYTES_MAX bytes sent, in order and in bounded
   pieces; the cut is marked once if the budget was reached and never otherwise.
   */
  ghost predicate Delivered(h: History, sent: seq<Tagged>) {
    && h.state.next == |h.messages|
    && (forall i | 0 <= i < |h.messages| :: h.messages[i].number == i)
    && Content(Steps(h.messages)) == sent[..Min(|sent|, STEP_BYTES_MAX)]
    && h.state.total == Min(|sent|, STEP_BYTES_MAX)
    && (h.state.truncated <==> |sent| >= STEP_BYTES_MAX)
    && Cuts(Steps(h.messages)) == (if |sent| >= STEP_BYTES_MAX then 1 else 0)
    && (forall i | 0 <= i < |h.messages| :: PieceOk(h.messages[i].step))
  }

  /** The markers of these steps other than the cut. */
  function Endings(steps: seq<Step>): seq<string> {
    if steps == [] then []
    else
      var last := steps[|steps| - 1];
      Endings(steps[..|steps| - 1]) + if last.Marker? && last.text != TRUNCATED then [last.text] else []
  }

  /** The markers these requests end an attempt with. */
  function Ended(requests: seq<Request>): seq<string> {
    if requests == [] then []
    else
      var last := requests[|requests| - 1];
      Ended(requests[..|requests| - 1]) + if last.End? then [last.marker] else []
  }

  lemma {:induction false} EndingsConcat(a: seq<Step>, b: seq<Step>)
    ensures Endings(a + b) == Endings(a) + Endings(b)
  {
    if b == [] {
      assert a + b == a;
    } else {
      EndingsConcat(a, b[..|b| - 1]);
      assert (a + b)[..|a + b| - 1] == a + b[..|b| - 1];
    }
  }

  lemma {:induction false} ChunkHasNoEnding(s: LogState, stream: Stream, data: seq<byte>)
    ensures Endings(PlanChunk(s, stream, data).steps) == []
    decreases |data|
  {
    if !s.truncated && data != [] && s.total < STEP_BYTES_MAX {
      var take := Taken(s, data);
      var s' := LogState(s.next + 1, s.total + take, false);
      var first := [Data(stream, data[..take])];
      assert first[..0] == [];
      if s'.total >= STEP_BYTES_MAX {
        assert [Data(stream, data[..take]), Marker(TRUNCATED)][..1] == first;
      } else {
        ChunkHasNoEnding(s', stream, data[take..]);
        EndingsConcat(first, PlanChunk(s', stream, data[take..]).steps);
      }
    } else if !s.truncated && data != [] {
      assert [Marker(TRUNCATED)][..0] == [];
    }
  }

  lemma {:induction false} PlanHasNoEnding(s: LogState, chunks: seq<Chunk>)
    ensures Endings(Plan(s, chunks).steps) == []
  {
    if chunks != [] {
      var init, last := chunks[..|chunks| - 1], chunks[|chunks| - 1];
      PlanHasNoEnding(s, init);
      var first := Plan(s, init);
      ChunkHasNoEnding(first.state, last.stream, last.data);
      EndingsConcat(first.steps, PlanChunk(first.state, last.stream, last.data).steps);
    }
  }

  /** Every attempt-ending marker is published, under its own text and in order. */
  lemma {:induction false} HistoryMarksEndings(requests: seq<Request>)
    requires EndsNamed(requests)
    ensures Endings(Steps(Serve(requests).messages)) == Ended(requests)
  {
    hide Plan;
    if requests != [] {
      var init, last := requests[..|requests| - 1], requests[|requests| - 1];
      assert last in requests && forall r | r in init :: r in requests;
      HistoryMarksEndings(init);
      var before := Serve(init);
      var answer := Answer(before.state, last);
      assert Steps(Serve(requests).messages) == Steps(before.messages) + answer.steps;
      EndingsConcat(Steps(before.messages), answer.steps);
      match last {
        case Post(chunks) => PlanHasNoEnding(before.state, chunks);
        case End(marker) => assert [Marker(marker)][..0] == [];
      }
    }
  }

  /** Over any history of requests, whatever their boundaries. */
  lemma {:induction false} HistoryDelivers(requests: seq<Request>)
    requires EndsNamed(requests)
    ensures Delivered(Serve(requests), AllSent(requests))
  {
    hide Delivered, Answer, RequestBytes;
    if requests == [] {
      NothingServed();
    } else {
      var init, last := requests[..|requests| - 1], requests[|requests| - 1];
      assert last in requests && forall r | r in init :: r in requests;
      HistoryDelivers(init);
      HistoryStep(Serve(init), AllSent(init), last);
    }
  }

  lemma NothingServed()
    ensures Delivered(History(FRESH, []), [])
  {
  }

  lemma HistoryStep(h: History, sent: seq<Tagged>, request: Request)
    requires Delivered(h, sent) && (request.End? ==> request.marker != TRUNCATED)
    ensures var answer := Answer(h.state, request);
            Delivered(History(answer.state, h.messages + Numbered(h.state.next, answer.steps)),
              sent + RequestBytes(request))
  {
    hide Content, Cuts, Plan, Sent, PieceOk;
    var answer := Answer(h.state, request);
    var messages := h.messages + Numbered(h.state.next, answer.steps);
    assert Steps(messages) == Steps(h.messages) + answer.steps;
    ContentConcat(Steps(h.messages), answer.steps);
    match request {
      case Post(chunks) =>
        PlanDelivers(h.state, chunks);
        var bytes := Sent(chunks);
        var k, m := Min(|sent|, STEP_BYTES_MAX), Admitted(h.state, |bytes|);
        assert Min(|sent + bytes|, STEP_BYTES_MAX) == k + m;
        assert (sent + bytes)[..k + m] == sent[..k] + bytes[..m];
      case End(marker) =>
        SingleStep(Marker(marker));
        MarkerOk(marker);
        assert sent + [] == sent;
    }
  }

  lemma MarkerOk(marker: string)
    ensures PieceOk(Marker(marker))
  {
  }

  // ---------------------------------------------------------------- failed publishes

  /** What the stream holds when the publishes of these numbers failed: a dropped chunk is not sent again. */
  function Held(messages: seq<Message>, failed: set<nat>): seq<Message> {
    if messages == [] then []
    else
      var last := messages[|messages| - 1];
      Held(messages[..|messages| - 1], failed) + if last.number in failed then [] else [last]
  }

  lemma {:induction false} HeldMembers(messages: seq<Message>, failed: set<nat>)
    ensures forall m :: m in Held(messages, failed) <==> m in messages && m.number !in failed
  {
    if messages != [] {
      HeldMembers(messages[..|messages| - 1], failed);
      assert messages == messages[..|messages| - 1] + [messages[|messages| - 1]];
    }
  }

  predicate CarriesBytes(m: Message) {
    m.step.Data? && m.step.data != []
  }

  /** No failed message carried bytes. */
  ghost predicate NoneMissed(messages: seq<Message>, failed: set<nat>) {
    forall m | m in messages && m.number in failed :: !CarriesBytes(m)
  }

  lemma NoneMissedNext(messages: seq<Message>, last: Message, failed: set<nat>)
    ensures NoneMissed(messages + [last], failed) <==>
            NoneMissed(messages, failed) && (last.number in failed ==> !CarriesBytes(last))
  {
    assert forall m :: m in messages + [last] <==> m in messages || m == last;
  }

  lemma ContentNext(messages: seq<Message>, last: Message)
    ensures Content(Steps(messages + [last])) == Content(Steps(messages)) + StepContent(last.step)
    ensures |StepContent(last.step)| == 0 <==> !CarriesBytes(last)
  {
    var steps := Steps(messages + [last]);
    assert steps[..|messages|] == Steps(messages);
  }

  /** A subsequence of contents is the whole exactly when it is as long. */
  lemma {:induction false} HeldContent(messages: seq<Message>, failed: set<nat>)
    ensures var all, held := Content(Steps(messages)), Content(Steps(Held(messages, failed)));
            && |held| <= |all|
            && (|held| == |all| ==> held == all)
            && (|held| == |all| <==> NoneMissed(messages, failed))
  {
    hide Content, Steps, StepContent, NoneMissed, CarriesBytes;
    if messages == [] {
      NothingMissed(failed);
    } else {
      var init, last := messages[..|messages| - 1], messages[|messages| - 1];
      HeldContent(init, failed);
      assert messages == init + [last];
      ContentNext(init, last);
      NoneMissedNext(init, last, failed);
      if last.number !in failed {
        ContentNext(Held(init, failed), last);
      } else {
        assert Held(messages, failed) == Held(init, failed);
      }
    }
  }

  lemma NothingMissed(failed: set<nat>)
    ensures NoneMissed([], failed)
  {
  }

  /**
   Whatever publishes fail, the stream holds the other messages under their own
   numbers, so a failure shows as a gap; and it holds the admitted bytes whole
   exactly when no failed message carried any.
   */
  lemma HistoryHeldIff(requests: seq<Request>, failed: set<nat>)
    requires EndsNamed(requests)
    ensures var messages, sent := Serve(requests).messages, AllSent(requests);
            && (forall m :: m in Held(messages, failed) <==> m in messages && m.number !in failed)
            && (forall i | 0 <= i < |messages| :: messages[i].number == i)
            && (Content(Steps(Held(messages, failed))) == sent[..Min(|sent|, STEP_BYTES_MAX)] <==>
                NoneMissed(messages, failed))
  {
    hide Content, Cuts, PieceOk, NoneMissed, Held;
    HistoryDelivers(requests);
    HeldMembers(Serve(requests).messages, failed);
    HeldContent(Serve(requests).messages, failed);
  }

  /** The budget is never found spent without the cut: that branch of the planner only repeats the guard. */
  lemma SpentMeansCut(requests: seq<Request>)
    requires EndsNamed(requests)
    ensures Serve(requests).state.total >= STEP_BYTES_MAX <==> Serve(requests).state.truncated
  {
    HistoryDelivers(requests);
  }
}
