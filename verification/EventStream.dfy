/** What one subscriber of the event bus receives, whatever is emitted between its steps.

    Every point where the stream suspends is a step boundary, and any number of emits may happen
    there. The full log exists only here: the bus itself keeps a bounded ring. */
module EventStream {
  import opened Arith

  datatype Event = Event(number: int, payload: int)

  /** The bus as a stream sees it: a ring of the newest events and the next sequence number. */
  datatype BusState = BusState(ring: seq<Event>, limit: nat, next: int)

  /** A subscriber's queue; a limit of 0 means unbounded, as in `asyncio.Queue`. */
  datatype SubState = SubState(queue: seq<Event>, limit: nat, dropped: nat)

  datatype Frame = Opener(id: int) | Log(event: Event) | Heartbeat(id: int)

  datatype Phase = Opened | Replaying(rest: seq<Event>) | Live

  datatype StreamState = StreamState(phase: Phase, replayFrom: int, replayed: int, sub: SubState, out: seq<Frame>)

  // ----- The steps of the code -----

  /** `deque.append` with a maximal length. */
  function Appended(ring: seq<Event>, limit: nat, e: Event): seq<Event> {
    var r := ring + [e];
    if |r| > limit then r[|r| - limit..] else r
  }

  function Offered(s: SubState, e: Event): SubState {
    if s.limit > 0 && |s.queue| >= s.limit then s.(dropped := s.dropped + 1) else s.(queue := s.queue + [e])
  }

  function OfferedAll(s: SubState, es: seq<Event>): SubState {
    if es == [] then s else Offered(OfferedAll(s, es[..|es| - 1]), es[|es| - 1])
  }

  /** A queue keeps what came first, up to its limit, and everything without one; what it does not keep
      it counts. */
  lemma {:induction false} QueueKeepsOldest(s: SubState, es: seq<Event>)
    requires s.limit > 0 ==> |s.queue| <= s.limit
    ensures var t, all := OfferedAll(s, es), s.queue + es;
      && t.queue == (if s.limit > 0 && |all| > s.limit then all[..s.limit] else all)
      && t.dropped - s.dropped == |all| - |t.queue| && t.limit == s.limit
  {
    hide Offered;
    if es == [] {
      assert s.queue + es == s.queue;
    } else {
      var n := |es| - 1;
      QueueKeepsOldest(s, es[..n]);
      assert s.queue + es == s.queue + es[..n] + [es[n]];
      OfferedKeepsOldest(OfferedAll(s, es[..n]), es[n], s.queue + es[..n]);
    }
  }

  lemma OfferedKeepsOldest(s: SubState, e: Event, all: seq<Event>)
    requires s.queue == if s.limit > 0 && |all| > s.limit then all[..s.limit] else all
    ensures var t, more := Offered(s, e), all + [e];
      && t.queue == (if s.limit > 0 && |more| > s.limit then more[..s.limit] else more)
      && t.dropped - s.dropped == 1 - (|t.queue| - |s.queue|) && t.limit == s.limit
  {
  }

  function Emitted(b: BusState, payload: int): BusState {
    b.(ring := Appended(b.ring, b.limit, Event(b.next, payload)), next := b.next + 1)
  }

  /** `EventBus.history`. */
  function Since(ring: seq<Event>, since: int): seq<Event> {
    if ring == [] then []
    else
      var n := |ring| - 1;
      Since(ring[..n], since) + if ring[n].number >= since then [ring[n]] else []
  }

  function Subscribed(replayFrom: int, queueLimit: nat): StreamState {
    StreamState(Opened, replayFrom, -1, SubState([], queueLimit, 0), [Opener(Max(replayFrom, 0))])
  }

  function ReplayNext(s: StreamState, rest: seq<Event>): StreamState
    requires rest != []
  {
    s.(phase := Replaying(rest[1..]), replayed := rest[0].number, out := s.out + [Log(rest[0])])
  }

  /** One resumption of the stream: the snapshot, one replayed event, or one event off the queue.
      A live stream with an empty queue waits, or times out into a heartbeat. */
  function Resumed(s: StreamState, b: BusState, timeout: bool): StreamState {
    match s.phase
    case Opened =>
      var snapshot := Since(b.ring, s.replayFrom);
      if snapshot == [] then s.(phase := Live) else ReplayNext(s, snapshot)
    case Replaying(rest) =>
      if rest == [] then s.(phase := Live) else ReplayNext(s, rest)
    case Live =>
      var q := s.sub.queue;
      if q == [] then
        if timeout then s.(out := s.out + [Heartbeat(Max(b.next - 1, 0))]) else s
      else
        var t := s.(sub := s.sub.(queue := q[1..]));
        if q[0].number <= s.replayed then t else t.(out := s.out + [Log(q[0])])
  }

  /** The log events among the frames. */
  function Delivered(out: seq<Frame>): seq<Event> {
    if out == [] then []
    else
      var n := |out| - 1;
      Delivered(out[..n]) + if out[n].Log? then [out[n].event] else []
  }

  // ----- The bus against the full log -----

  ghost predicate Numbered(log: seq<Event>) {
    forall i :: 0 <= i < |log| ==> log[i].number == i
  }

  ghost predicate BusInv(b: BusState, log: seq<Event>) {
    && b.next == |log| && Numbered(log)
    && |b.ring| == Min(b.limit, |log|)
    && b.ring == log[|log| - |b.ring|..]
  }

  /** The oldest sequence number the ring still holds. */
  function Oldest(b: BusState): int {
    b.next - |b.ring|
  }

  lemma EmittedKeepsBus(b: BusState, log: seq<Event>, payload: int)
    requires BusInv(b, log)
    ensures BusInv(Emitted(b, payload), log + [Event(b.next, payload)]) && Emitted(b, payload).limit == b.limit
  {
    var e := Event(b.next, payload);
    var full, r := log + [e], b.ring + [e];
    assert r == full[|log| - |b.ring|..];
  }

  lemma {:induction false} SinceIs(ring: seq<Event>, from: int, since: int)
    requires forall i :: 0 <= i < |ring| ==> ring[i].number == from + i
    ensures Since(ring, since) == ring[Min(Max(since - from, 0), |ring|)..]
  {
    if ring != [] {
      var n := |ring| - 1;
      SinceIs(ring[..n], from, since);
      SinceSnoc(ring, from, since);
    }
  }

  lemma SinceSnoc(ring: seq<Event>, from: int, since: int)
    requires ring != [] && ring[|ring| - 1].number == from + |ring| - 1
    ensures var n := |ring| - 1;
      ring[..n][Min(Max(since - from, 0), n)..] + (if ring[n].number >= since then [ring[n]] else [])
        == ring[Min(Max(since - from, 0), |ring|)..]
  {
  }

  // ----- One stream against the full log -----

  /** A stream together with what only the analysis remembers: the bus's next number when it
      subscribed; and, once the snapshot is taken, where its delivered run starts, and the oldest number
      the ring held and the next one of the bus at that moment. */
  datatype Watch = Watch(stream: StreamState, joined: int, start: int, oldest: int, reached: int)

  function Watched(b: BusState, replayFrom: int, queueLimit: nat): Watch {
    Watch(Subscribed(replayFrom, queueLimit), b.next, 0, 0, 0)
  }

  function WatchResumed(w: Watch, b: BusState, timeout: bool): Watch {
    var snapshot := Since(b.ring, w.stream.replayFrom);
    w.(stream := Resumed(w.stream, b, timeout),
       start := if !w.stream.phase.Opened? then w.start else if snapshot == [] then w.joined else snapshot[0].number,
       oldest := if w.stream.phase.Opened? then Oldest(b) else w.oldest,
       reached := if w.stream.phase.Opened? then b.next else w.reached)
  }

  function WatchEmitted(w: Watch, e: Event): Watch {
    w.(stream := w.stream.(sub := Offered(w.stream.sub, e)))
  }

  /** Where the stream stands, by phase. */
  ghost predicate PhaseInv(w: Watch, log: seq<Event>) {
    var s := w.stream;
    && 0 <= w.joined <= |log| && -1 <= s.replayed < |log|
    && match s.phase
       case Opened => Delivered(s.out) == [] && s.replayed == -1
       case Replaying(rest) =>
         s.replayed + 1 + |rest| <= |log| && rest == log[s.replayed + 1..s.replayed + 1 + |rest|]
       case Live => true
  }

  lemma SubscribedPhase(b: BusState, log: seq<Event>, replayFrom: int, queueLimit: nat)
    requires BusInv(b, log)
    ensures PhaseInv(Watched(b, replayFrom, queueLimit), log)
    ensures Delivered(Watched(b, replayFrom, queueLimit).stream.out) == []
  {
    var out := [Opener(Max(replayFrom, 0))];
    assert out[..0] == [];
  }

  lemma DeliveredSnoc(out: seq<Frame>, f: Frame)
    ensures Delivered(out + [f]) == Delivered(out) + if f.Log? then [f.event] else []
  {
    assert (out + [f])[..|out|] == out;
  }

  lemma SnapshotIs(b: BusState, log: seq<Event>, since: int)
    requires BusInv(b, log)
    ensures var from := Min(Max(since, Oldest(b)), |log|);
      0 <= from && Since(b.ring, since) == log[from..]
  {
    hide Since;
    var o := Oldest(b);
    SinceIs(b.ring, o, since);
    var k := Min(Max(since - o, 0), |b.ring|);
    assert b.ring[k..] == log[o + k..];
  }

  lemma EmitKeepsPhase(w: Watch, log: seq<Event>, e: Event)
    requires PhaseInv(w, log)
    ensures PhaseInv(WatchEmitted(w, e), log + [e])
  {
  }

  lemma ResumeKeepsPhase(w: Watch, b: BusState, log: seq<Event>, timeout: bool)
    requires BusInv(b, log) && PhaseInv(w, log)
    ensures PhaseInv(WatchResumed(w, b, timeout), log)
  {
    hide Since, Delivered;
    var s := w.stream;
    match s.phase {
      case Opened =>
        SnapshotPhase(w, b, log, timeout);
      case Replaying(rest) =>
        if rest != [] {
          assert rest[0] == log[s.replayed + 1];
          assert rest[1..] == log[s.replayed + 2..s.replayed + 1 + |rest|];
        }
      case Live =>
    }
  }

  lemma SnapshotPhase(w: Watch, b: BusState, log: seq<Event>, timeout: bool)
    requires BusInv(b, log) && PhaseInv(w, log) && w.stream.phase.Opened?
    ensures PhaseInv(WatchResumed(w, b, timeout), log)
  {
    hide Since, Delivered;
    var s := w.stream;
    SnapshotIs(b, log, s.replayFrom);
    var from := Min(Max(s.replayFrom, Oldest(b)), |log|);
    if from < |log| {
      var snapshot := log[from..];
      assert snapshot[1..] == log[from + 1..from + 1 + |snapshot[1..]|];
    }
  }

  // ----- The contiguous run, while nothing is dropped -----

  /** What is delivered and what is still to come join up. */
  ghost predicate RunInv(w: Watch, log: seq<Event>) {
    var s := w.stream;
    var d, q := Delivered(s.out), |log| - |s.sub.queue|;
    s.sub.dropped == 0 ==>
      && 0 <= q && s.sub.queue == log[q..]
      && 0 <= w.start && w.start + |d| <= |log| && d == (if s.phase.Opened? then [] else log[w.start..w.start + |d|])
      && match s.phase
         case Opened => q == w.joined
         case Replaying(rest) =>
           q == w.joined <= s.replayed + 1 + |rest| && w.start + |d| == s.replayed + 1
         case Live => w.start + |d| == Max(q, s.replayed + 1)
  }

  lemma SubscribedRun(b: BusState, log: seq<Event>, replayFrom: int, queueLimit: nat)
    requires BusInv(b, log)
    ensures RunInv(Watched(b, replayFrom, queueLimit), log)
  {
    SubscribedPhase(b, log, replayFrom, queueLimit);
  }

  /** An emit between two steps. */
  lemma EmitKeepsRun(w: Watch, log: seq<Event>, e: Event)
    requires PhaseInv(w, log) && RunInv(w, log)
    ensures RunInv(WatchEmitted(w, e), log + [e])
  {
    hide Delivered;
    var full, v := log + [e], WatchEmitted(w, e).stream;
    if v.sub.dropped == 0 {
      var q := |log| - |w.stream.sub.queue|;
      assert v.sub.queue == full[q..];
      var d := Delivered(v.out);
      assert full[w.start..w.start + |d|] == log[w.start..w.start + |d|];
    }
  }

  lemma ResumeKeepsRun(w: Watch, b: BusState, log: seq<Event>, timeout: bool)
    requires BusInv(b, log) && PhaseInv(w, log) && RunInv(w, log)
    ensures RunInv(WatchResumed(w, b, timeout), log)
  {
    hide Delivered, Since;
    var s := w.stream;
    if s.sub.dropped == 0 {
      match s.phase {
        case Opened =>
          SnapshotKeepsRun(w, b, log, timeout);
        case Replaying(rest) =>
          ReplayKeepsRun(w, b, log, timeout);
        case Live =>
          LiveKeepsRun(w, b, log, timeout);
      }
    }
  }

  lemma SnapshotKeepsRun(w: Watch, b: BusState, log: seq<Event>, timeout: bool)
    requires BusInv(b, log) && PhaseInv(w, log) && RunInv(w, log)
    requires w.stream.phase.Opened? && w.stream.sub.dropped == 0
    ensures RunInv(WatchResumed(w, b, timeout), log)
  {
    hide Delivered, Since;
    var s := w.stream;
    SnapshotIs(b, log, s.replayFrom);
    var from := Min(Max(s.replayFrom, Oldest(b)), |log|);
    if from < |log| {
      DeliveredSnoc(s.out, Log(log[from]));
      assert [log[from]] == log[from..from + 1];
    }
  }

  lemma ReplayKeepsRun(w: Watch, b: BusState, log: seq<Event>, timeout: bool)
    requires BusInv(b, log) && PhaseInv(w, log) && RunInv(w, log)
    requires w.stream.phase.Replaying? && w.stream.sub.dropped == 0
    ensures RunInv(WatchResumed(w, b, timeout), log)
  {
    hide Delivered, Since;
    var s := w.stream;
    var rest := s.phase.rest;
    if rest != [] {
      assert rest[0] == log[s.replayed + 1];
      DeliveredSnoc(s.out, Log(rest[0]));
    }
  }

  lemma LiveKeepsRun(w: Watch, b: BusState, log: seq<Event>, timeout: bool)
    requires BusInv(b, log) && PhaseInv(w, log) && RunInv(w, log)
    requires w.stream.phase.Live? && w.stream.sub.dropped == 0
    ensures RunInv(WatchResumed(w, b, timeout), log)
  {
    hide Delivered, Since;
    var s := w.stream;
    var queue := s.sub.queue;
    if queue == [] {
      DeliveredSnoc(s.out, Heartbeat(Max(b.next - 1, 0)));
    } else {
      var q := |log| - |queue|;
      assert queue[0] == log[q] && queue[1..] == log[q + 1..];
      DeliveredSnoc(s.out, Log(queue[0]));
      if q > s.replayed {
      }
    }
  }

  // ----- The order of what is delivered, dropped or not -----

  /** Events of the log in the order of the log, possibly with gaps. */
  ghost predicate SubLog(es: seq<Event>, log: seq<Event>) {
    && (forall i :: 0 <= i < |es| ==> 0 <= es[i].number < |log| && es[i] == log[es[i].number])
    && (forall i, j :: 0 <= i < j < |es| ==> es[i].number < es[j].number)
  }

  /** The delivered events, followed by the pending ones. */
  ghost predicate OrderInv(w: Watch, log: seq<Event>) {
    SubLog(w.stream.sub.queue, log) && SubLog(Delivered(w.stream.out), log)
    && Below(Delivered(w.stream.out), w.stream)
  }

  ghost predicate Below(d: seq<Event>, s: StreamState) {
    forall i :: 0 <= i < |d| ==>
      if s.phase.Live? then
        d[i].number <= s.replayed
        || forall j :: 0 <= j < |s.sub.queue| ==> d[i].number < s.sub.queue[j].number
      else d[i].number <= s.replayed
  }

  lemma SubscribedOrder(b: BusState, log: seq<Event>, replayFrom: int, queueLimit: nat)
    requires BusInv(b, log)
    ensures OrderInv(Watched(b, replayFrom, queueLimit), log)
  {
    SubscribedPhase(b, log, replayFrom, queueLimit);
  }

  lemma EmitKeepsOrder(w: Watch, log: seq<Event>, e: Event)
    requires Numbered(log) && e.number == |log| && OrderInv(w, log)
    ensures OrderInv(WatchEmitted(w, e), log + [e])
  {
    hide Delivered;
    assert SubLog(w.stream.sub.queue, log + [e]) && SubLog(Delivered(w.stream.out), log + [e]);
  }

  lemma ReplayKeepsOrder(w: Watch, v: Watch, log: seq<Event>, rest: seq<Event>)
    requires Numbered(log) && OrderInv(w, log) && !w.stream.phase.Live?
    requires rest != [] && -1 <= w.stream.replayed < rest[0].number < |log| && rest[0] == log[rest[0].number]
    requires v.stream == ReplayNext(w.stream, rest)
    ensures OrderInv(v, log)
  {
    hide Delivered;
    DeliveredSnoc(w.stream.out, Log(rest[0]));
  }

  lemma ResumeKeepsOrder(w: Watch, b: BusState, log: seq<Event>, timeout: bool)
    requires BusInv(b, log) && PhaseInv(w, log) && OrderInv(w, log)
    ensures OrderInv(WatchResumed(w, b, timeout), log)
  {
    hide Delivered, Since, SubLog;
    var s := w.stream;
    match s.phase {
      case Opened =>
        SnapshotIs(b, log, s.replayFrom);
        var snapshot := Since(b.ring, s.replayFrom);
        if snapshot != [] {
          ReplayKeepsOrder(w, WatchResumed(w, b, timeout), log, snapshot);
        }
      case Replaying(rest) =>
        if rest != [] {
          assert rest[0] == log[s.replayed + 1];
          ReplayKeepsOrder(w, WatchResumed(w, b, timeout), log, rest);
        }
      case Live =>
        LiveKeepsOrder(w, b, log, timeout);
    }
  }

  lemma LiveKeepsOrder(w: Watch, b: BusState, log: seq<Event>, timeout: bool)
    requires OrderInv(w, log) && w.stream.phase.Live?
    ensures OrderInv(WatchResumed(w, b, timeout), log)
  {
    hide Delivered, Since;
    var s := w.stream;
    var queue, d := s.sub.queue, Delivered(s.out);
    if queue == [] {
      DeliveredSnoc(s.out, Heartbeat(Max(b.next - 1, 0)));
    } else {
      var tail := queue[1..];
      assert forall j :: 0 <= j < |tail| ==> tail[j] == queue[j + 1];
      assert SubLog(tail, log);
      DeliveredSnoc(s.out, Log(queue[0]));
      if queue[0].number > s.replayed {
      }
    }
  }

  // ----- What a subscriber is promised -----

  /** The events still to be yielded: the rest of the replay, then what the queue adds to it. */
  function Pending(s: StreamState): seq<Event> {
    var rest := if s.phase.Replaying? then s.phase.rest else [];
    rest + Since(s.sub.queue, s.replayed + |rest| + 1)
  }

  /** Past the snapshot and with nothing dropped, delivered and pending events are together the log
      from the start: no gap and no duplicate, though an event may sit in both ring and queue. */
  lemma NoGapNoDuplicate(w: Watch, log: seq<Event>)
    requires Numbered(log) && PhaseInv(w, log) && RunInv(w, log)
    requires w.stream.sub.dropped == 0 && !w.stream.phase.Opened?
    ensures 0 <= w.start <= |log|
    ensures Delivered(w.stream.out) + Pending(w.stream) == log[w.start..]
  {
    hide Delivered, Since;
    var s := w.stream;
    var d := Delivered(s.out);
    match s.phase {
      case Replaying(rest) =>
        QueuePart(s.sub.queue, log, s.replayed + |rest| + 1);
        Joined(log, w.start, s.replayed + 1, rest, s.replayed + |rest| + 1);
      case Live =>
        QueuePart(s.sub.queue, log, s.replayed + 1);
        Joined(log, w.start, w.start + |d|, [], w.start + |d|);
    }
  }

  lemma QueuePart(queue: seq<Event>, log: seq<Event>, cut: int)
    requires Numbered(log) && |queue| <= |log| && queue == log[|log| - |queue|..] && cut <= |log|
    ensures Since(queue, cut) == log[Max(|log| - |queue|, cut)..]
  {
    hide Since;
    SinceIs(queue, |log| - |queue|, cut);
  }

  lemma Joined(log: seq<Event>, i: int, j: int, middle: seq<Event>, k: int)
    requires 0 <= i <= j <= k <= |log| && middle == log[j..k]
    ensures log[i..j] + (middle + log[k..]) == log[i..]
  {
  }

  /** Where the delivered run starts: at the number asked for or the oldest one held at the snapshot,
      whichever is later; or, if the bus had not got that far by then, where the stream joined. */
  ghost predicate StartInv(w: Watch, log: seq<Event>, limit: nat) {
    var first := Max(w.stream.replayFrom, w.oldest);
    !w.stream.phase.Opened? ==>
      && 0 <= w.joined <= w.reached <= |log|
      && w.oldest == Max(w.reached - limit, 0)
      && w.start == if first < w.reached then first else w.joined
  }

  lemma SubscribedStart(b: BusState, log: seq<Event>, replayFrom: int, queueLimit: nat)
    ensures StartInv(Watched(b, replayFrom, queueLimit), log, b.limit)
  {
  }

  lemma ResumeKeepsStart(w: Watch, b: BusState, log: seq<Event>, timeout: bool)
    requires BusInv(b, log) && PhaseInv(w, log) && StartInv(w, log, b.limit)
    ensures StartInv(WatchResumed(w, b, timeout), log, b.limit)
  {
    hide Since, Delivered;
    SnapshotIs(b, log, w.stream.replayFrom);
  }

  lemma EmitKeepsStart(w: Watch, log: seq<Event>, e: Event, limit: nat)
    requires StartInv(w, log, limit)
    ensures StartInv(WatchEmitted(w, e), log + [e], limit)
  {
    hide Offered;
  }

  /** Where the run starts, decided at the snapshot. Asking for a number the bus had reached when
      the stream subscribed gives the later of that number and the oldest event still held. Asking
      ahead of the bus gives it only if the bus has caught up by the snapshot. */
  lemma StartsWhereAsked(w: Watch, b: BusState, log: seq<Event>)
    requires BusInv(b, log) && PhaseInv(w, log) && w.stream.phase.Opened?
    requires b.limit >= 1 && 0 <= w.stream.replayFrom
    ensures var asked := w.stream.replayFrom;
      WatchResumed(w, b, false).start == Max(asked, Oldest(b)) <==> asked <= w.joined || asked < b.next
  {
    hide Since, Delivered;
    SnapshotIs(b, log, w.stream.replayFrom);
  }
}
