/** Whole runs: a bus, one client that connects, is cut off and connects again, and emits anywhere
    in between. */
module Reconnect {
  import opened Arith
  import opened EventStream
  import opened Results

  /** The client keeps what it received and resumes at the number after the last one. */
  datatype Client = Client(log: seq<Event>, bus: BusState, conn: Option<Watch>, received: seq<Event>, from: int)

  datatype Step = Emit(payload: int) | Connect(queueLimit: nat) | Resume(timeout: bool)

  function Start(historyLimit: nat, from: int): Client {
    Client([], BusState([], historyLimit, 0), None, [], from)
  }

  /** `Last-Event-ID` + 1 in terms of log events, or the number first asked for. */
  function Cursor(c: Client): int {
    if c.received == [] then c.from else c.received[|c.received| - 1].number + 1
  }

  function Gained(w: Watch, v: Watch): seq<Event> {
    var d, e := Delivered(w.stream.out), Delivered(v.stream.out);
    if |d| <= |e| then e[|d|..] else []
  }

  function After(c: Client, step: Step): Client {
    match step
    case Emit(payload) =>
      var e := Event(c.bus.next, payload);
      c.(log := c.log + [e], bus := Emitted(c.bus, payload),
         conn := if c.conn.Some? then Some(WatchEmitted(c.conn.value, e)) else None)
    case Connect(queueLimit) =>
      c.(conn := Some(Watched(c.bus, Cursor(c), queueLimit)))
    case Resume(timeout) =>
      if c.conn.None? then c
      else
        var v := WatchResumed(c.conn.value, c.bus, timeout);
        c.(conn := Some(v), received := c.received + Gained(c.conn.value, v))
  }

  function Run(c: Client, steps: seq<Step>): Client {
    if steps == [] then c else After(Run(c, steps[..|steps| - 1]), steps[|steps| - 1])
  }

  // ----- Every run -----

  ghost predicate Inv(c: Client) {
    && BusInv(c.bus, c.log)
    && (c.conn.Some? ==>
      && PhaseInv(c.conn.value, c.log) && RunInv(c.conn.value, c.log) && OrderInv(c.conn.value, c.log)
      && FrameInv(c.conn.value) && StartInv(c.conn.value, c.log, c.bus.limit))
  }

  lemma AfterKeepsInv(c: Client, step: Step)
    requires Inv(c)
    ensures Inv(After(c, step))
  {
    hide BusInv, PhaseInv, RunInv, OrderInv, FrameInv, StartInv, Watched, WatchResumed, WatchEmitted, Emitted, Cursor;
    hide Gained;
    match step {
      case Emit(payload) =>
        var e := Event(c.bus.next, payload);
        BusIsNumbered(c.bus, c.log);
        EmittedKeepsBus(c.bus, c.log, payload);
        if c.conn.Some? {
          var w := c.conn.value;
          EmitKeepsPhase(w, c.log, e);
          EmitKeepsRun(w, c.log, e);
          EmitKeepsOrder(w, c.log, e);
          EmitKeepsFrames(w, e);
          EmitKeepsStart(w, c.log, e, c.bus.limit);
        }
      case Connect(queueLimit) =>
        SubscribedPhase(c.bus, c.log, Cursor(c), queueLimit);
        SubscribedRun(c.bus, c.log, Cursor(c), queueLimit);
        SubscribedOrder(c.bus, c.log, Cursor(c), queueLimit);
        SubscribedFrames(c.bus, Cursor(c), queueLimit);
        SubscribedStart(c.bus, c.log, Cursor(c), queueLimit);
      case Resume(timeout) =>
        if c.conn.Some? {
          var w := c.conn.value;
          ResumeKeepsPhase(w, c.bus, c.log, timeout);
          ResumeKeepsRun(w, c.bus, c.log, timeout);
          ResumeKeepsOrder(w, c.bus, c.log, timeout);
          ResumeKeepsFrames(w, c.bus, c.log, timeout);
          ResumeKeepsStart(w, c.bus, c.log, timeout);
        }
    }
  }

  lemma BusIsNumbered(b: BusState, log: seq<Event>)
    requires BusInv(b, log)
    ensures Numbered(log) && b.next == |log|
  {
  }

  lemma {:induction false} RunKeepsInv(historyLimit: nat, from: int, steps: seq<Step>)
    ensures Inv(Run(Start(historyLimit, from), steps)) && Run(Start(historyLimit, from), steps).bus.limit == historyLimit
  {
    if steps != [] {
      RunKeepsInv(historyLimit, from, steps[..|steps| - 1]);
      AfterKeepsInv(Run(Start(historyLimit, from), steps[..|steps| - 1]), steps[|steps| - 1]);
    }
  }

  /** Over every run: what the current connection has delivered is strictly increasing and true to
      the log; and unless its queue overflowed, it is one stretch of the log with no gap, and with
      what is pending it reaches to the end. The stretch starts at the later of the number asked for
      and the oldest one held at the snapshot, if the bus had reached the number asked for. */
  lemma EveryRunDelivers(historyLimit: nat, from: int, steps: seq<Step>)
    ensures var c := Run(Start(historyLimit, from), steps);
      c.conn.Some? ==>
        var w := c.conn.value;
        var d := Delivered(w.stream.out);
        && SubLog(d, c.log)
        && (w.stream.sub.dropped == 0 && !w.stream.phase.Opened? ==>
          && 0 <= w.start && w.start + |d| <= |c.log| && d == c.log[w.start..w.start + |d|]
          && d + Pending(w.stream) == c.log[w.start..])
        && (!w.stream.phase.Opened? ==>
          var first := Max(w.stream.replayFrom, w.oldest);
          && w.oldest == Max(w.reached - historyLimit, 0) && w.joined <= w.reached
          && w.start == (if first < w.reached then first else w.joined)
          && (historyLimit >= 1 && 0 <= w.stream.replayFrom <= w.joined ==> w.start == first))
  {
    hide Run, PhaseInv, Delivered, Pending, SubLog, FrameInv;
    RunKeepsInv(historyLimit, from, steps);
    var c := Run(Start(historyLimit, from), steps);
    if c.conn.Some? {
      var w := c.conn.value;
      if w.stream.sub.dropped == 0 && !w.stream.phase.Opened? {
        NoGapNoDuplicate(w, c.log);
      }
    }
  }

  // ----- A chain of connections -----

  /** Nothing overflows, and when a snapshot is taken the number asked for is one the bus had
      reached at subscription and has not yet lost from its ring. */
  ghost predicate Clean(c: Client, step: Step) {
    && (After(c, step).conn.Some? ==> After(c, step).conn.value.stream.sub.dropped == 0)
    && (step.Resume? && c.conn.Some? && c.conn.value.stream.phase.Opened? ==>
      Oldest(c.bus) <= c.conn.value.stream.replayFrom <= c.conn.value.joined)
  }

  ghost predicate CleanRun(c: Client, steps: seq<Step>) {
    steps != [] ==> CleanRun(c, steps[..|steps| - 1]) && Clean(Run(c, steps[..|steps| - 1]), steps[|steps| - 1])
  }

  /** The client holds the log from the number it first asked for up to its cursor. */
  ghost predicate Contiguous(c: Client) {
    c.received != [] ==>
      && 0 <= c.from && Cursor(c) == c.from + |c.received| <= |c.log|
      && c.received == c.log[c.from..Cursor(c)]
  }

  ghost predicate ChainInv(c: Client) {
    && Inv(c) && Contiguous(c)
    && (c.conn.Some? ==>
      var w := c.conn.value;
      && w.stream.sub.dropped == 0
      && if w.stream.phase.Opened? then w.stream.replayFrom == Cursor(c)
         else 0 <= c.from && w.start + |Delivered(w.stream.out)| == Cursor(c) && w.start == w.stream.replayFrom)
  }

  lemma EmitKeepsChain(c: Client, payload: int)
    requires ChainInv(c) && Clean(c, Emit(payload))
    ensures ChainInv(After(c, Emit(payload)))
  {
    hide Delivered, Inv;
    AfterKeepsInv(c, Emit(payload));
    if c.received != [] {
      var full := After(c, Emit(payload)).log;
      assert full[c.from..Cursor(c)] == c.log[c.from..Cursor(c)];
    }
  }

  lemma ConnectKeepsChain(c: Client, queueLimit: nat)
    requires ChainInv(c)
    ensures ChainInv(After(c, Connect(queueLimit)))
  {
    hide Inv, Delivered;
    AfterKeepsInv(c, Connect(queueLimit));
  }

  /** One resumption adds at most one event, the next one of the run. */
  lemma GainedIs(w: Watch, b: BusState, log: seq<Event>, timeout: bool)
    requires BusInv(b, log) && PhaseInv(w, log) && RunInv(w, log) && w.stream.sub.dropped == 0
    ensures var v := WatchResumed(w, b, timeout);
      var e := Delivered(v.stream.out);
      && v.stream.sub.dropped == 0 && v.stream.replayFrom == w.stream.replayFrom && !v.stream.phase.Opened?
      && RunInv(v, log)
      && e == Delivered(w.stream.out) + Gained(w, v) && |Gained(w, v)| <= 1
      && (!w.stream.phase.Opened? ==> v.start == w.start)
      && (Gained(w, v) != [] ==>
        v.start + |e| <= |log| && Gained(w, v) == log[v.start + |e| - 1..v.start + |e|])
  {
    hide Since, BusInv, PhaseInv, Delivered, RunInv;
    var v := WatchResumed(w, b, timeout);
    ResumeKeepsRun(w, b, log, timeout);
    FramesGrow(w, b, timeout);
    var d, e := Delivered(w.stream.out), Delivered(v.stream.out);
    assert Gained(w, v) == e[|d|..];
    if |e| > |d| {
      LastOfRun(v, log);
    }
  }

  lemma LastOfRun(v: Watch, log: seq<Event>)
    requires RunInv(v, log) && v.stream.sub.dropped == 0 && !v.stream.phase.Opened?
    requires Delivered(v.stream.out) != []
    ensures var e := Delivered(v.stream.out);
      0 <= v.start && v.start + |e| <= |log| && e[|e| - 1..] == log[v.start + |e| - 1..v.start + |e|]
  {
    hide Delivered;
  }

  lemma FramesGrow(w: Watch, b: BusState, timeout: bool)
    ensures var v := WatchResumed(w, b, timeout).stream;
      var d, e := Delivered(w.stream.out), Delivered(v.out);
      && !v.phase.Opened? && v.replayFrom == w.stream.replayFrom && v.sub.dropped == w.stream.sub.dropped
      && (e == d || (|e| == |d| + 1 && e[..|d|] == d))
  {
    hide Delivered, Since;
    var v := WatchResumed(w, b, timeout).stream;
    if v.out != w.stream.out {
      DeliveredSnoc(w.stream.out, v.out[|v.out| - 1]);
    }
  }

  lemma ResumeKeepsChain(c: Client, timeout: bool)
    requires ChainInv(c) && Clean(c, Resume(timeout)) && c.bus.limit >= 1
    ensures ChainInv(After(c, Resume(timeout)))
  {
    hide Delivered, BusInv, PhaseInv, RunInv, OrderInv, FrameInv, WatchResumed, Gained, Oldest;
    AfterKeepsInv(c, Resume(timeout));
    if c.conn.Some? {
      var w := c.conn.value;
      var v := WatchResumed(w, c.bus, timeout);
      GainedIs(w, c.bus, c.log, timeout);
      if w.stream.phase.Opened? {
        OpenedIs(w, c.bus, c.log, timeout);
      }
      BusIsNumbered(c.bus, c.log);
      assert 0 <= c.from && 0 <= Cursor(c);
      ExtendReceived(c, v, Gained(w, v));
    }
  }

  /** From an opened stream the first event, if any, is the one asked for. */
  lemma OpenedIs(w: Watch, b: BusState, log: seq<Event>, timeout: bool)
    requires BusInv(b, log) && PhaseInv(w, log) && w.stream.phase.Opened? && b.limit >= 1
    requires Oldest(b) <= w.stream.replayFrom <= w.joined
    ensures Delivered(w.stream.out) == [] && 0 <= w.stream.replayFrom
    ensures WatchResumed(w, b, timeout).start == w.stream.replayFrom
  {
    hide Delivered, Since;
    StartsWhereAsked(w, b, log);
  }

  lemma ExtendReceived(c: Client, v: Watch, gained: seq<Event>)
    requires Contiguous(c) && Numbered(c.log) && |gained| <= 1
    requires gained != [] ==>
      0 <= c.from && Cursor(c) < |c.log| && 0 <= Cursor(c) && gained == c.log[Cursor(c)..Cursor(c) + 1]
    ensures var d := c.(conn := Some(v), received := c.received + gained);
      Contiguous(d) && Cursor(d) == Cursor(c) + |gained|
  {
    if gained != [] {
      var n := Cursor(c);
      assert gained[0] == c.log[n];
      if c.received != [] {
        assert c.received + gained == c.log[c.from..n + 1];
      }
    }
  }

  lemma {:induction false} CleanRunKeepsChain(historyLimit: nat, from: nat, steps: seq<Step>)
    requires historyLimit >= 1 && CleanRun(Start(historyLimit, from), steps)
    ensures var c := Run(Start(historyLimit, from), steps);
      ChainInv(c) && c.bus.limit == historyLimit && c.from == from
  {
    hide Inv, Delivered, Contiguous;
    if steps == [] {
      EmptyChain(historyLimit, from);
    } else {
      var prefix, last := steps[..|steps| - 1], steps[|steps| - 1];
      CleanRunKeepsChain(historyLimit, from, prefix);
      var c := Run(Start(historyLimit, from), prefix);
      match last {
        case Emit(payload) => EmitKeepsChain(c, payload);
        case Connect(queueLimit) => ConnectKeepsChain(c, queueLimit);
        case Resume(timeout) => ResumeKeepsChain(c, timeout);
      }
    }
  }

  lemma EmptyChain(historyLimit: nat, from: int)
    ensures ChainInv(Start(historyLimit, from))
  {
  }

  /** After any chain of disconnects and reconnects with nothing overflowed and every cursor still
      held, all that was received is one stretch of the log, and a client that has caught up holds
      everything from the number it first asked for. */
  lemma ReconnectsMissNothing(historyLimit: nat, from: nat, steps: seq<Step>)
    requires historyLimit >= 1 && CleanRun(Start(historyLimit, from), steps)
    ensures var c := Run(Start(historyLimit, from), steps);
      && (c.received != [] ==>
        from + |c.received| <= |c.log| && c.received == c.log[from..from + |c.received|])
      && (c.conn.Some? && !c.conn.value.stream.phase.Opened? && Pending(c.conn.value.stream) == [] ==>
        from <= |c.log| && c.received == c.log[from..])
  {
    hide Run, CleanRun, Delivered, Pending, OrderInv, FrameInv;
    CleanRunKeepsChain(historyLimit, from, steps);
    var c := Run(Start(historyLimit, from), steps);
    if c.conn.Some? && !c.conn.value.stream.phase.Opened? && Pending(c.conn.value.stream) == [] {
      NoGapNoDuplicate(c.conn.value, c.log);
    }
  }

  // ----- Resuming from the `id:` of the last frame -----

  function FrameId(f: Frame): int {
    match f
    case Opener(id) => id
    case Log(e) => e.number
    case Heartbeat(id) => id
  }

  /** The number of the next event this stream owes its reader. */
  function Owed(w: Watch): int {
    if w.stream.phase.Opened? then w.stream.replayFrom else w.start + |Delivered(w.stream.out)|
  }

  ghost predicate FrameInv(w: Watch) {
    var s := w.stream;
    var d := Delivered(s.out);
    && s.out != []
    && (s.phase.Opened? ==> s.out == [Opener(Max(s.replayFrom, 0))])
    && match s.out[|s.out| - 1]
       case Opener(id) => d == [] && id == Max(s.replayFrom, 0)
       case Log(e) => d != [] && e == d[|d| - 1]
       case Heartbeat(id) => s.phase.Live? && (s.sub.dropped == 0 ==> id == Max(w.start + |d| - 1, 0))
  }

  lemma SubscribedFrames(b: BusState, replayFrom: int, queueLimit: nat)
    ensures FrameInv(Watched(b, replayFrom, queueLimit))
  {
    var out := [Opener(Max(replayFrom, 0))];
    assert out[..0] == [];
  }

  lemma EmitKeepsFrames(w: Watch, e: Event)
    requires FrameInv(w)
    ensures FrameInv(WatchEmitted(w, e))
  {
    hide Delivered;
  }

  lemma ResumeKeepsFrames(w: Watch, b: BusState, log: seq<Event>, timeout: bool)
    requires BusInv(b, log) && PhaseInv(w, log) && RunInv(w, log) && FrameInv(w)
    ensures FrameInv(WatchResumed(w, b, timeout))
  {
    hide Delivered, Since;
    var s, v := w.stream, WatchResumed(w, b, timeout).stream;
    if v.out != s.out {
      DeliveredSnoc(s.out, v.out[|v.out| - 1]);
    }
  }

  /** A browser resumes after the `id:` of the last frame of any kind. That is the next event owed
      exactly when the last frame was a log event, or a heartbeat of a bus that has emitted. After
      the opener, whose id is the number asked for, that event is skipped. */
  lemma LastIdIsNextIff(w: Watch, log: seq<Event>)
    requires PhaseInv(w, log) && RunInv(w, log) && OrderInv(w, log) && FrameInv(w) && Numbered(log)
    requires w.stream.sub.dropped == 0 && 0 <= w.stream.replayFrom
    requires w.stream.phase.Opened? || w.start == w.stream.replayFrom
    ensures var last := w.stream.out[|w.stream.out| - 1];
      FrameId(last) + 1 == Owed(w) <==> last.Log? || (last.Heartbeat? && Owed(w) > 0)
  {
    hide Delivered, OrderInv, PhaseInv;
  }

  /** The same over every run in which nothing overflows and every number asked for is still held. */
  lemma LastIdResumesIff(historyLimit: nat, from: nat, steps: seq<Step>)
    requires historyLimit >= 1 && CleanRun(Start(historyLimit, from), steps)
    ensures var c := Run(Start(historyLimit, from), steps);
      c.conn.Some? ==>
        var w := c.conn.value;
        && w.stream.out != []
        && var last := w.stream.out[|w.stream.out| - 1];
        FrameId(last) + 1 == Owed(w) <==> last.Log? || (last.Heartbeat? && Owed(w) > 0)
  {
    hide Run, CleanRun, PhaseInv, RunInv, OrderInv, StartInv, BusInv, Delivered, FrameId, Owed;
    CleanRunKeepsChain(historyLimit, from, steps);
    var c := Run(Start(historyLimit, from), steps);
    if c.conn.Some? {
      BusIsNumbered(c.bus, c.log);
      CursorNonNegative(c);
      LastIdIsNextIff(c.conn.value, c.log);
    }
  }

  lemma CursorNonNegative(c: Client)
    requires ChainInv(c) && 0 <= c.from
    ensures 0 <= Cursor(c)
    ensures c.conn.Some? && !c.conn.value.stream.phase.Opened? ==> 0 <= c.conn.value.start
  {
    hide PhaseInv, OrderInv, FrameInv, StartInv, BusInv, Delivered;
  }

  /** One event, a stream opened at its number, and the connection lost right after the opener: resuming
      after the opener's id asks for number 1, and event 0 is never received. */
  lemma OpenerSkipsAnEvent(historyLimit: nat)
    requires historyLimit >= 1
    ensures var c := Run(Start(historyLimit, 0), [Emit(7), Connect(0)]);
      && c.conn.Some? && c.conn.value.stream.out == [Opener(0)]
      && Owed(c.conn.value) == 0 < |c.log| && FrameId(c.conn.value.stream.out[0]) + 1 == 1
    ensures Run(Start(historyLimit, 1), [Emit(7), Connect(0), Resume(false)]).received == []
  {
    var steps := [Emit(7), Connect(0), Resume(false)];
    assert steps[..2] == [Emit(7), Connect(0)] && steps[..2][..1] == [Emit(7)] && [Emit(7)][..0] == [];
    assert [Emit(7), Connect(0)][..1] == [Emit(7)];
    var asked0, asked1 := Start(historyLimit, 0), Start(historyLimit, 1);
    assert Run(asked0, [Emit(7)]) == After(asked0, Emit(7)) && Run(asked1, [Emit(7)]) == After(asked1, Emit(7));
    var ring := [Event(0, 7)];
    assert ring[..0] == [] && Since(ring, 1) == [];
    var out := [Opener(1)];
    assert out[..0] == [] && Delivered(out) == [];
  }
}
