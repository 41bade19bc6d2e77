/** The event bus as objects: a producer that fans out to bounded queues, and the stream that
    replays the ring and then drains its queue. Every method is proved against the step functions
    of EventStream, whose runs are studied in Reconnect. */
module EventBus {
  import opened Arith
  import opened EventStream
  import opened Results

  const HISTORY_LIMIT := 2000
  const SUBSCRIBER_QUEUE_LIMIT := 256

  class Subscriber {
    const limit: nat
    var queue: seq<Event>
    var dropped: nat

    constructor (limit: nat)
      ensures this.limit == limit && View() == SubState([], limit, 0)
    {
      this.limit := limit;
      queue, dropped := [], 0;
    }

    ghost function View(): SubState
      reads this
    {
      SubState(queue, limit, dropped)
    }

    /** A full queue loses the event instead of holding up the producer. */
    method Offer(event: Event)
      modifies this
      ensures View() == Offered(old(View()), event)
    {
      if limit > 0 && |queue| >= limit {
        dropped := dropped + 1;
      } else {
        queue := queue + [event];
      }
    }
  }

  class Bus {
    const historyLimit: nat
    var nextSeq: int
    var history: seq<Event>
    var subscribers: set<Subscriber>

    constructor (historyLimit: nat := HISTORY_LIMIT)
      ensures View() == BusState([], historyLimit, 0) && subscribers == {}
    {
      this.historyLimit := historyLimit;
      nextSeq, history, subscribers := 0, [], {};
    }

    ghost function View(): BusState
      reads this
    {
      BusState(history, historyLimit, nextSeq)
    }

    /** Stamp, keep, fan out. */
    method Emit(payload: int) returns (event: Event)
      modifies this`nextSeq, this`history, subscribers
      ensures event == Event(old(nextSeq), payload)
      ensures View() == Emitted(old(View()), payload)
      ensures forall s :: s in subscribers ==> s.View() == Offered(old(s.View()), event)
    {
      event := Event(nextSeq, payload);
      nextSeq := nextSeq + 1;
      history := history + [event];
      if |history| > historyLimit {
        history := history[|history| - historyLimit..];
      }
      var todo := subscribers;
      while todo != {}
        invariant todo <= subscribers
        invariant forall s :: s in subscribers ==>
          s.View() == if s in todo then old(s.View()) else Offered(old(s.View()), event)
        modifies subscribers
        decreases todo
      {
        var s :| s in todo;
        s.Offer(event);
        todo := todo - {s};
      }
    }

    method History(since: int) returns (events: seq<Event>)
      ensures events == Since(history, since)
    {
      events := [];
      for i := 0 to |history|
        invariant events == Since(history[..i], since)
      {
        assert history[..i + 1][..i] == history[..i];
        if history[i].number >= since {
          events := events + [history[i]];
        }
      }
      assert history[..|history|] == history;
    }

    method Subscribe(limit: nat) returns (s: Subscriber)
      modifies this`subscribers
      ensures fresh(s) && s.View() == SubState([], limit, 0)
      ensures subscribers == old(subscribers) + {s}
    {
      s := new Subscriber(limit);
      subscribers := subscribers + {s};
    }

    method Unsubscribe(s: Subscriber)
      modifies this`subscribers
      ensures subscribers == old(subscribers) - {s}
    {
      subscribers := subscribers - {s};
    }
  }

  /** The coroutine `EventBus.stream`, with its local variables as fields and its suspension points
      as the ends of `Open` and `Resume`. */
  class Stream {
    const bus: Bus
    const replayFrom: int
    var subscriber: Subscriber
    var phase: Phase
    var replayed: int
    ghost var out: seq<Frame>

    ghost function View(): StreamState
      reads this, subscriber
    {
      StreamState(phase, replayFrom, replayed, subscriber.View(), out)
    }

    /** Up to the first `yield`: subscribe, then hand out the opener. */
    constructor Open(bus: Bus, replayFrom: int)
      modifies bus`subscribers
      ensures this.bus == bus && this.replayFrom == replayFrom && fresh(subscriber)
      ensures bus.subscribers == old(bus.subscribers) + {subscriber}
      ensures View() == Subscribed(replayFrom, SUBSCRIBER_QUEUE_LIMIT)
    {
      this.bus, this.replayFrom := bus, replayFrom;
      var s := bus.Subscribe(SUBSCRIBER_QUEUE_LIMIT);
      subscriber := s;
      phase, replayed := Opened, -1;
      out := [Opener(Max(replayFrom, 0))];
    }

    /** On to the next suspension. `timeout` tells whether waiting on an empty queue runs out. */
    method Resume(timeout: bool) returns (frame: Option<Frame>)
      modifies this`phase, this`replayed, this`out, subscriber
      ensures View() == Resumed(old(View()), old(bus.View()), timeout)
      ensures out == old(out) + if frame.Some? then [frame.value] else []
    {
      frame := None;
      match phase {
        case Opened =>
          var snapshot := bus.History(replayFrom);
          if snapshot == [] {
            phase := Live;
          } else {
            replayed := snapshot[0].number;
            phase := Replaying(snapshot[1..]);
            frame := Some(Log(snapshot[0]));
          }
        case Replaying(rest) =>
          if rest == [] {
            phase := Live;
          } else {
            replayed := rest[0].number;
            phase := Replaying(rest[1..]);
            frame := Some(Log(rest[0]));
          }
        case Live =>
          if subscriber.queue == [] {
            if timeout {
              frame := Some(Heartbeat(Max(bus.nextSeq - 1, 0)));
            }
          } else {
            var event := subscriber.queue[0];
            subscriber.queue := subscriber.queue[1..];
            if event.number > replayed {
              frame := Some(Log(event));
            }
          }
      }
      out := out + if frame.Some? then [frame.value] else [];
    }

    /** The `finally` clause: from here on nothing reaches this stream. */
    method Close()
      modifies bus`subscribers
      ensures bus.subscribers == old(bus.subscribers) - {subscriber}
    {
      bus.Unsubscribe(subscriber);
    }
  }

  /** An emit reaches an open stream exactly as the analysis says, and no closed one. */
  method EmitReaches(bus: Bus, stream: Stream, payload: int, ghost w: Watch) returns (event: Event)
    requires stream.bus == bus && stream.View() == w.stream
    modifies bus`nextSeq, bus`history, bus.subscribers
    ensures event == Event(old(bus.nextSeq), payload) && bus.View() == Emitted(old(bus.View()), payload)
    ensures stream.View() == if stream.subscriber in bus.subscribers then WatchEmitted(w, event).stream else w.stream
  {
    event := bus.Emit(payload);
  }
}
