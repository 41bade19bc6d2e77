/** One tenant's Monday as a state machine: cycle, publish, policy check, war room, cards, decisions,
    execution. Each public method of the session is one step; what an awaited call returns (or that
    it raises) is part of the step. */
module SessionRuns {
  import opened Approvals
  import opened Results
  import opened Text

  datatype CycleResult = CycleResult(versionId: string, weekEnding: int)

  datatype Published = Published(versionId: string, weekEnding: int, publishedBy: string, role: Role)

  datatype PolicyCheck = PolicyCheck(escalate: bool, versionId: string)

  datatype Investigation = Investigation(recommendation: Option<seq<Item>>)

  /** An accounting period, both ends included, and whether the controller has shut it. */
  datatype Period = Period(starts: int, ends: int, closed: bool)

  datatype Session = Session(hasSource: bool, preparedBy: string, routes: seq<Route>, periods: seq<Period>,
                             cycle: Option<CycleResult>, published: Option<Published>, policy: Option<PolicyCheck>,
                             investigation: Option<Investigation>, pack: Option<Pack>, ledger: Ledger,
                             executed: seq<Item>, nextId: int)

  datatype Step =
    | RunCycle(result: Option<CycleResult>)
    | Publish(publishedBy: string, role: Role)
    | CheckPolicy(escalates: Option<bool>)
    | OpenWarRoom(outcome: Option<Investigation>)
    | PreparePack(candidates: Option<seq<Candidate>>)
    | DecideCard(decision: Decision)
    | Execute(row: int)

  datatype Problem =
    | NoSource | NoCycle | AlreadyPublished | NotPublished | NoPolicyCheck | NothingToEscalate | NoRecommendation
    | NoPack | NoRow | PublisherPrepared | RoleMayNotPublish | PeriodClosed | CallFailed | Refused(error: Error)

  function NewSession(hasSource: bool, preparedBy: string, routes: seq<Route>, periods: seq<Period>): Session {
    Session(hasSource, preparedBy, routes, periods, None, None, None, None, None, EMPTY_LEDGER, [], 0)
  }

  /** `CloseCalendar.is_closed`: the first period that contains the day decides, and a day in none is open. */
  predicate IsClosed(periods: seq<Period>, day: int) {
    periods != [] && if periods[0].starts <= day <= periods[0].ends then periods[0].closed else IsClosed(periods[1..], day)
  }

  /** The first period that contains a day. */
  ghost predicate DecidesFor(periods: seq<Period>, i: int, day: int) {
    && 0 <= i < |periods| && periods[i].starts <= day <= periods[i].ends
    && forall j :: 0 <= j < i ==> !(periods[j].starts <= day <= periods[j].ends)
  }

  lemma {:induction false} IsClosedIff(periods: seq<Period>, day: int)
    ensures IsClosed(periods, day) <==> exists i :: DecidesFor(periods, i, day) && periods[i].closed
  {
    if periods != [] {
      var rest := periods[1..];
      IsClosedIff(rest, day);
      if periods[0].starts <= day <= periods[0].ends {
        assert DecidesFor(periods, 0, day);
      } else {
        forall i
          ensures DecidesFor(rest, i, day) <==> DecidesFor(periods, i + 1, day)
        {
          assert forall j :: 0 <= j < |rest| ==> rest[j] == periods[j + 1];
        }
        if i :| DecidesFor(periods, i, day) && periods[i].closed {
          assert DecidesFor(rest, i - 1, day);
        }
      }
    }
  }

  /** The first worklist row with a number. */
  function FindRow(rows: seq<Item>, number: int): (r: Option<Item>)
    ensures r.Some? ==> r.value.number == number
    ensures r.Some? ==>
      exists i :: 0 <= i < |rows| && rows[i] == r.value && (forall j :: 0 <= j < i ==> rows[j].number != number)
    ensures r.None? ==> forall i :: 0 <= i < |rows| ==> rows[i].number != number
  {
    if rows == [] then None
    else if rows[0].number == number then Some(rows[0])
    else FindRow(rows[1..], number)
  }

  function DeskOf(s: Session, candidates: seq<Candidate>): Desk {
    Desk(candidates, s.routes, s.preparedBy, if s.published.Some? then Some(s.published.value.versionId) else None,
         s.nextId)
  }

  predicate HasRecommendation(s: Session) {
    s.investigation.Some? && s.investigation.value.recommendation.Some?
  }

  /** Why a step raises. */
  ghost function ProblemWith(s: Session, step: Step): Option<Problem> {
    match step
    case RunCycle(result) =>
      if !s.hasSource then Some(NoSource)
      else if s.published.Some? then Some(AlreadyPublished)
      else if result.None? then Some(CallFailed)
      else None
    case Publish(publishedBy, role) =>
      if s.cycle.None? then Some(NoCycle)
      else if s.published.Some? then Some(AlreadyPublished)
      else if Normalised(publishedBy) == Normalised(s.preparedBy) then Some(PublisherPrepared)
      else if role != TREASURER && role != CFO then Some(RoleMayNotPublish)
      else if IsClosed(s.periods, s.cycle.value.weekEnding) then Some(PeriodClosed)
      else None
    case CheckPolicy(escalates) =>
      if s.cycle.None? then Some(NoCycle)
      else if s.published.None? then Some(NotPublished)
      else if escalates.None? then Some(CallFailed)
      else None
    case OpenWarRoom(outcome) =>
      if s.policy.None? then Some(NoPolicyCheck)
      else if !s.policy.value.escalate then Some(NothingToEscalate)
      else if outcome.None? then Some(CallFailed)
      else None
    case PreparePack(candidates) =>
      if s.pack.Some? then None
      else if !HasRecommendation(s) then Some(NoRecommendation)
      else if candidates.None? then Some(CallFailed)
      else
        (match Prepared(s.investigation.value.recommendation.value, DeskOf(s, candidates.value))
         case Ok(_) => None
         case Err(e) => Some(Refused(e)))
    case DecideCard(d) =>
      if s.pack.None? then Some(NoPack)
      else if Refusal(s.ledger, d).Some? then Some(Refused(Refusal(s.ledger, d).value))
      else None
    case Execute(row) =>
      if s.pack.None? then Some(NoPack)
      else if FindRow(s.pack.value.worklist, row).None? then Some(NoRow)
      else if Barred(s.ledger, FindRow(s.pack.value.worklist, row).value).Some?
      then Some(Refused(Barred(s.ledger, FindRow(s.pack.value.worklist, row).value).value))
      else None
  }

  ghost predicate Accepted(s: Session, step: Step) {
    ProblemWith(s, step).None?
  }

  /** A step that raises leaves the session as it was. */
  ghost function After(s: Session, step: Step): Session {
    if !Accepted(s, step) then s
    else
      match step
      case RunCycle(result) => s.(cycle := result)
      case Publish(publishedBy, role) =>
        s.(published := Some(Published(s.cycle.value.versionId, s.cycle.value.weekEnding, publishedBy, role)))
      case CheckPolicy(escalates) =>
        s.(policy := Some(PolicyCheck(escalates.value, s.published.value.versionId)))
      case OpenWarRoom(outcome) => s.(investigation := outcome, pack := None)
      case PreparePack(candidates) =>
        if s.pack.Some? then s
        else
          var items := s.investigation.value.recommendation.value;
          var pack := Prepared(items, DeskOf(s, candidates.value)).value;
          s.(pack := Some(pack), ledger := Registered(s.ledger, pack.requests), nextId := s.nextId + |items|)
      case DecideCard(d) => s.(ledger := Decided(s.ledger, d))
      case Execute(row) => s.(executed := s.executed + [FindRow(s.pack.value.worklist, row).value])
  }

  ghost function Run(s: Session, steps: seq<Step>): Session {
    if steps == [] then s else After(Run(s, steps[..|steps| - 1]), steps[|steps| - 1])
  }

  // ----- What a run remembers -----

  /** When the current war room was opened, when its cards were made and from what, and when each
      card was decided: positions in the list of steps. */
  datatype History = History(openedAt: int, preparedAt: int, items: seq<Item>, desk: Desk, decidedAt: map<int, int>)

  const NO_HISTORY := History(-1, -1, [], Desk([], [], "", None, 0), map[])

  ghost function HistoryAfter(h: History, s: Session, step: Step, now: int): History {
    if !Accepted(s, step) then h
    else
      match step
      case OpenWarRoom(_) => h.(openedAt := now)
      case PreparePack(candidates) =>
        if s.pack.Some? then h
        else h.(preparedAt := now, items := s.investigation.value.recommendation.value, desk := DeskOf(s, candidates.value))
      case DecideCard(d) => h.(decidedAt := h.decidedAt[d.id := now])
      case _ => h
  }

  ghost function HistoryOf(s: Session, steps: seq<Step>): History {
    if steps == [] then NO_HISTORY
    else
      var n := |steps| - 1;
      HistoryAfter(HistoryOf(s, steps[..n]), Run(s, steps[..n]), steps[n], n)
  }

  ghost predicate Took(s: Session, steps: seq<Step>, i: int) {
    0 <= i < |steps| && Accepted(Run(s, steps[..i]), steps[i])
  }

  // ----- What every step keeps -----

  /** The gates in order: a check is of a published version of a run cycle, cards of an investigation. */
  ghost predicate GatesInv(s: Session) {
    && LedgerInv(s.ledger)
    && (forall id :: id in s.ledger.requests ==> id < s.nextId)
    && (s.published.Some? ==> s.cycle.Some? && s.published.value.versionId == s.cycle.value.versionId && WellPublished(s))
    && (s.policy.Some? ==> s.published.Some? && s.policy.value.versionId == s.published.value.versionId)
    && (s.investigation.Some? ==> s.policy.Some?)
    && (s.pack.Some? ==> HasRecommendation(s))
  }

  /** Signed by someone who did not prepare it, in a role that may, for a week in an open period. */
  ghost predicate WellPublished(s: Session)
    requires s.published.Some?
  {
    var p := s.published.value;
    && Lower(Strip(p.publishedBy)) != Lower(Strip(s.preparedBy))
    && (p.role == TREASURER || p.role == CFO)
    && !(exists i :: DecidesFor(s.periods, i, p.weekEnding) && s.periods[i].closed)
  }

  /** The cards of the current pack, and that no decision on them is older than they are. */
  ghost predicate PackInv(s: Session, h: History) {
    && h.decidedAt.Keys == s.ledger.decisions.Keys
    && (s.pack.Some? ==>
      var pack := s.pack.value;
      && s.investigation == Some(Investigation(Some(h.items)))
      && WellPrepared(h.items, h.desk, pack)
      && h.desk.routes == s.routes && h.desk.preparedBy == s.preparedBy
      && s.published.Some? && h.desk.snapshot == Some(s.published.value.versionId)
      && (forall j :: 0 <= j < |pack.requests| ==>
        var q := pack.requests[j];
        q.id in s.ledger.requests && s.ledger.requests[q.id] == q)
      && (forall id :: id in h.decidedAt && h.desk.firstId <= id ==> h.preparedAt < h.decidedAt[id]))
  }

  /** The remembered positions are those of the steps themselves. */
  ghost predicate TimeInv(s0: Session, steps: seq<Step>, s: Session, h: History) {
    && (forall id :: id in h.decidedAt ==>
      && Took(s0, steps, h.decidedAt[id])
      && id in s.ledger.decisions && steps[h.decidedAt[id]] == DecideCard(s.ledger.decisions[id]))
    && (s.investigation.Some? ==>
      && Took(s0, steps, h.openedAt) && steps[h.openedAt] == OpenWarRoom(s.investigation)
      && NoLaterRoom(s0, steps, h.openedAt))
    && (s.pack.Some? ==>
      h.openedAt < h.preparedAt && Took(s0, steps, h.preparedAt) && steps[h.preparedAt].PreparePack?)
  }

  ghost predicate NoLaterRoom(s0: Session, steps: seq<Step>, at: int) {
    forall i :: at < i < |steps| && Took(s0, steps, i) ==> !steps[i].OpenWarRoom?
  }

  lemma GatesKept(s: Session, step: Step)
    requires GatesInv(s)
    ensures GatesInv(After(s, step))
  {
    hide LedgerInv, Prepared, Registered, Refusal, Decided, Barred, FindRow, Lower, Strip, WellPrepared;
    if Accepted(s, step) {
      match step {
        case Publish(_, _) =>
          IsClosedIff(s.periods, s.cycle.value.weekEnding);
        case PreparePack(candidates) =>
          if s.pack.None? {
            var items, desk := s.investigation.value.recommendation.value, DeskOf(s, candidates.value);
            PreparedIsWell(items, desk);
            PackIsFresh(s.ledger, items, desk, Prepared(items, desk).value);
          }
        case DecideCard(d) =>
          DecidedKeeps(s.ledger, d);
        case _ =>
      }
    }
  }

  /** Cards with numbers above every registered one are fresh. */
  lemma PackIsFresh(l: Ledger, items: seq<Item>, desk: Desk, pack: Pack)
    requires LedgerInv(l) && WellPrepared(items, desk, pack) && forall id :: id in l.requests ==> id < desk.firstId
    ensures Fresh(l, Register(pack.requests))
    ensures var m := Registered(l, pack.requests);
      && LedgerInv(m) && m.decisions == l.decisions
      && (forall id :: id in m.requests ==> id < desk.firstId + |items|)
      && (forall j :: 0 <= j < |pack.requests| ==>
        pack.requests[j].id in m.requests && m.requests[pack.requests[j].id] == pack.requests[j])
  {
    hide LedgerInv, Registered;
    assert Fresh(l, Register(pack.requests));
    StepKeepsLedger(l, Register(pack.requests));
    FreshKeepsCards(l, pack.requests);
  }

  lemma DecidedKeeps(l: Ledger, d: Decision)
    requires LedgerInv(l)
    ensures var m := Decided(l, d);
      && LedgerInv(m) && m.requests == l.requests
      && (Refusal(l, d).None? ==> m.decisions == l.decisions[d.id := d] && d.id !in l.decisions)
  {
    hide LedgerInv, Lower, Strip;
    DecideKeepsLedger(l, d);
  }

  lemma PackKept(s: Session, h: History, step: Step, now: int)
    requires GatesInv(s) && PackInv(s, h) && h.preparedAt < now
    ensures PackInv(After(s, step), HistoryAfter(h, s, step, now))
  {
    hide LedgerInv, Prepared, Registered, Refusal, Decided, Barred, FindRow, Lower, Strip, WellPrepared;
    if Accepted(s, step) {
      match step {
        case PreparePack(candidates) =>
          if s.pack.None? {
            var items, desk := s.investigation.value.recommendation.value, DeskOf(s, candidates.value);
            PreparedIsWell(items, desk);
            PackIsFresh(s.ledger, items, desk, Prepared(items, desk).value);
            DecidedAreRegistered(s.ledger);
          }
        case DecideCard(d) =>
          DecidedKeeps(s.ledger, d);
        case _ =>
      }
    }
  }

  lemma DecidedAreRegistered(l: Ledger)
    requires LedgerInv(l)
    ensures forall id :: id in l.decisions ==> id in l.requests
  {
  }

  lemma TookEarlier(s0: Session, steps: seq<Step>, i: int)
    requires steps != [] && i < |steps| - 1
    ensures Took(s0, steps, i) <==> Took(s0, steps[..|steps| - 1], i)
  {
    hide Run, Accepted;
    if 0 <= i {
      assert steps[..|steps| - 1][..i] == steps[..i];
    }
  }

  lemma TimeKept(s0: Session, steps: seq<Step>, s: Session, h: History)
    requires steps != [] && s == Run(s0, steps[..|steps| - 1]) && GatesInv(s)
    requires PackInv(s, h) && TimeInv(s0, steps[..|steps| - 1], s, h)
    ensures var n := |steps| - 1;
      TimeInv(s0, steps, After(s, steps[n]), HistoryAfter(h, s, steps[n], n))
  {
    hide LedgerInv, Prepared, Registered, Refusal, Decided, Barred, FindRow, Lower, Strip, WellPrepared, Run, Took, DeskOf;
    var n, step := |steps| - 1, steps[|steps| - 1];
    var before := steps[..n];
    forall i | i < n
      ensures Took(s0, steps, i) <==> Took(s0, before, i)
    {
      TookEarlier(s0, steps, i);
    }
    TookLast(s0, steps);
    TookWithin(s0, before);
    if Accepted(s, step) {
      match step {
        case PreparePack(candidates) =>
          if s.pack.None? {
            var items, desk := s.investigation.value.recommendation.value, DeskOf(s, candidates.value);
            SameDecisions(s.ledger, Prepared(items, desk).value.requests);
          }
        case DecideCard(d) =>
          DecidedKeeps(s.ledger, d);
        case _ =>
      }
    }
  }

  lemma SameDecisions(l: Ledger, requests: seq<Request>)
    ensures Registered(l, requests).decisions == l.decisions
  {
    hide Registered;
    RegisteredIs(l, requests);
  }

  lemma TookLast(s0: Session, steps: seq<Step>)
    requires steps != []
    ensures Took(s0, steps, |steps| - 1) <==> Accepted(Run(s0, steps[..|steps| - 1]), steps[|steps| - 1])
  {
    hide Run, Accepted;
  }

  lemma TookWithin(s0: Session, steps: seq<Step>)
    ensures forall i :: Took(s0, steps, i) ==> 0 <= i < |steps|
  {
    hide Run, Accepted;
  }

  lemma {:induction false} RunKeepsAll(s0: Session, steps: seq<Step>)
    requires s0 == NewSession(s0.hasSource, s0.preparedBy, s0.routes, s0.periods)
    ensures var s, h := Run(s0, steps), HistoryOf(s0, steps);
      && GatesInv(s) && PackInv(s, h) && TimeInv(s0, steps, s, h) && h.preparedAt < |steps|
      && s.routes == s0.routes && s.preparedBy == s0.preparedBy
  {
    hide GatesInv, PackInv, TimeInv, After, HistoryAfter;
    if steps == [] {
      Beginning(s0, steps);
    } else {
      var n := |steps| - 1;
      RunKeepsAll(s0, steps[..n]);
      var s, h := Run(s0, steps[..n]), HistoryOf(s0, steps[..n]);
      GatesKept(s, steps[n]);
      PackKept(s, h, steps[n], n);
      TimeKept(s0, steps, s, h);
      ConstantsKept(s, h, steps[n], n);
    }
  }

  lemma Beginning(s0: Session, steps: seq<Step>)
    requires s0 == NewSession(s0.hasSource, s0.preparedBy, s0.routes, s0.periods) && steps == []
    ensures GatesInv(s0) && PackInv(s0, NO_HISTORY) && TimeInv(s0, steps, s0, NO_HISTORY)
  {
  }

  lemma ConstantsKept(s: Session, h: History, step: Step, now: int)
    ensures After(s, step).routes == s.routes && After(s, step).preparedBy == s.preparedBy
    ensures HistoryAfter(h, s, step, now).preparedAt <= if h.preparedAt < now then now else h.preparedAt
  {
    hide Prepared, Registered, Decided, FindRow, Accepted;
  }

  // ----- What no step takes back -----

  /** A publication is final, and with it the cycle it is of; executed rows and audit entries are only
      added; and cards stay the same until the next war room opens. */
  lemma StepTakesNothingBack(s: Session, step: Step)
    requires GatesInv(s)
    ensures var t := After(s, step);
      && (s.published.Some? ==> t.published == s.published && t.cycle == s.cycle)
      && s.executed <= t.executed && s.ledger.audit <= t.ledger.audit
      && (s.pack.Some? && !(step.OpenWarRoom? && Accepted(s, step)) ==> t.pack == s.pack)
  {
    hide LedgerInv, Prepared, Registered, Refusal, Barred, FindRow, Lower, Strip, WellPrepared;
    if Accepted(s, step) {
      match step {
        case PreparePack(candidates) =>
          if s.pack.None? {
            var items := s.investigation.value.recommendation.value;
            RegisteredIs(s.ledger, Prepared(items, DeskOf(s, candidates.value)).value.requests);
          }
        case _ =>
      }
    }
  }

  /** Over every run and from any point of it. */
  lemma {:induction false} RunTakesNothingBack(s0: Session, steps: seq<Step>, k: nat)
    requires s0 == NewSession(s0.hasSource, s0.preparedBy, s0.routes, s0.periods) && k <= |steps|
    ensures var s, t := Run(s0, steps[..k]), Run(s0, steps);
      && (s.published.Some? ==> t.published == s.published && t.cycle == s.cycle)
      && s.executed <= t.executed && s.ledger.audit <= t.ledger.audit
    decreases |steps|
  {
    hide GatesInv, PackInv, TimeInv, After, HistoryOf;
    if k < |steps| {
      var n := |steps| - 1;
      RunTakesNothingBack(s0, steps[..n], k);
      assert steps[..n][..k] == steps[..k];
      RunKeepsAll(s0, steps[..n]);
      StepTakesNothingBack(Run(s0, steps[..n]), steps[n]);
    } else {
      assert steps[..k] == steps;
    }
  }

  // ----- What executing a row rests on -----

  /** The decision that lets a row through. */
  ghost predicate Authorised(s: Session, h: History, row: Item)
    requires s.pack.Some?
  {
    && row.id.Some?
    && var id := row.id.value;
    && id in s.ledger.requests && id in s.ledger.decisions && id in h.decidedAt
    && s.ledger.requests[id] in s.pack.value.requests
    && CardFor(s.ledger.requests[id], row, h.desk, id)
    && s.ledger.decisions[id].approved && Lawful(s.ledger.requests[id], s.ledger.decisions[id])
    && h.openedAt < h.preparedAt < h.decidedAt[id]
  }

  /** In any such state: no row on a protected document is executed, and one that is executed without
      an approval of its own card has a text that may go out unsigned. */
  lemma ExecutedIsAuthorised(s: Session, h: History, number: int)
    requires GatesInv(s) && PackInv(s, h) && Accepted(s, Execute(number))
    requires s.pack.Some? ==> h.openedAt < h.preparedAt
    ensures s.pack.Some? && FindRow(s.pack.value.worklist, number).Some?
    ensures var row := FindRow(s.pack.value.worklist, number).value;
      && (forall c :: c in h.desk.candidates && c.isProtected ==> row.document != Some(c.document))
      && (MayGoUnsigned(row.action) || Authorised(s, h, row))
  {
    hide LedgerInv, CardFor, Lawful, FindRow, MayGoUnsigned, StateOf, WellPrepared;
    var row := FindRow(s.pack.value.worklist, number).value;
    var k := RowOrigin(s, h, number);
    if !NeedsNoCard(row, h.desk.candidates) {
      var id := h.desk.firstId + k;
      var j :| 0 <= j < |s.pack.value.requests| && CardFor(s.pack.value.requests[j], row, h.desk, id);
      CardId(s.pack.value.requests[j], row, h.desk, id);
      ApprovedIsLawful(s.ledger, id);
    }
  }

  /** Where a row of the pack comes from. */
  lemma RowOrigin(s: Session, h: History, number: int) returns (k: nat)
    requires PackInv(s, h) && s.pack.Some? && FindRow(s.pack.value.worklist, number).Some?
    ensures var row := FindRow(s.pack.value.worklist, number).value;
      && k < |h.items|
      && (if NeedsNoCard(row, h.desk.candidates) then row == h.items[k].(status := QUEUED)
          else Gated(row, row, s.pack.value, h.desk, h.desk.firstId + k))
  {
    hide LedgerInv, CardFor, FindRow, NeedsNoCard, Untouchable;
    var pack := s.pack.value;
    var row := FindRow(pack.worklist, number).value;
    k :| 0 <= k < |pack.worklist| && pack.worklist[k] == row;
    SameNeed(row, h.items[k], h.desk.candidates);
  }

  lemma SameNeed(row: Item, item: Item, candidates: seq<Candidate>)
    ensures SameRow(row, item) || row == item.(status := QUEUED) ==>
      && (NeedsNoCard(row, candidates) <==> NeedsNoCard(item, candidates))
      && (Untouchable(row.document, candidates) <==> Untouchable(item.document, candidates))
  {
    hide MayGoUnsigned, Untouchable;
  }

  lemma CardId(q: Request, row: Item, desk: Desk, id: int)
    requires CardFor(q, row, desk, id)
    ensures q.id == id
  {
  }

  /** Exactly which rows execute in such a state: those on no protected document whose card, where the
      row has one, is approved. A row without a card has a text that may go out unsigned. */
  lemma RowExecutesIff(s: Session, h: History, number: int)
    requires GatesInv(s) && PackInv(s, h) && s.pack.Some? && FindRow(s.pack.value.worklist, number).Some?
    ensures var row := FindRow(s.pack.value.worklist, number).value;
      && (row.id.None? ==> MayGoUnsigned(row.action))
      && (Accepted(s, Execute(number)) <==>
        && (forall c :: c in h.desk.candidates && c.isProtected ==> row.document != Some(c.document))
        && (row.id.Some? ==> Signed(s.ledger, row.id.value)))
  {
    hide LedgerInv, CardFor, FindRow, MayGoUnsigned, KindOf, WellPrepared;
    var row := FindRow(s.pack.value.worklist, number).value;
    var k := RowOrigin(s, h, number);
    ClassifyByText(row, h.desk.candidates);
    if NeedsNoCard(row, h.desk.candidates) {
      NeverGated(row, h.desk.candidates);
    }
  }

  lemma NeverGated(row: Item, candidates: seq<Candidate>)
    requires NeedsNoCard(row, candidates)
    ensures KindOf(row.action) !in ALWAYS_GATED
  {
    hide KindOf, IsProtected, MayGoUnsigned, Untouchable;
    ClassifyByText(row, candidates);
  }

  /** Over every run: no row on a protected document is ever executed. A row whose text opens with
      "draw", "defer", "pay", "resolve the dispute" or "offer early-pay", in whatever case, and any
      other that is no call and mentions neither dunning nor a retry, is executed only after a decision
      on its own card of the current pack, taken by someone who did not prepare it, in the accountable
      role of the one band that holds its amount.
      The card was made after, and the decision taken after that, in the war room that is open now;
      and that room was opened on an escalating check of a run cycle's version, published by someone who
      did not prepare it, in a role that may, in an open period. */
  lemma NothingRunsUnsigned(s0: Session, steps: seq<Step>, number: int)
    requires s0 == NewSession(s0.hasSource, s0.preparedBy, s0.routes, s0.periods)
    requires Accepted(Run(s0, steps), Execute(number))
    ensures var s, h := Run(s0, steps), HistoryOf(s0, steps);
      && s.pack.Some? && FindRow(s.pack.value.worklist, number).Some?
      && var row := FindRow(s.pack.value.worklist, number).value;
      && After(s, Execute(number)).executed == s.executed + [row]
      && (forall c :: c in h.desk.candidates && c.isProtected ==> row.document != Some(c.document))
      && (MayGoUnsigned(row.action) || SignedOff(s0, steps, s, h, row))
      && RoomIsLegitimate(s0, steps, h.openedAt) && NoLaterRoom(s0, steps, h.openedAt)
  {
    hide GatesInv, PackInv, TimeInv, Run, HistoryOf, FindRow, MayGoUnsigned, Authorised, NoLaterRoom, Accepted, After;
    hide SignedOff, RoomIsLegitimate;
    RunKeepsAll(s0, steps);
    var s, h := Run(s0, steps), HistoryOf(s0, steps);
    ExecuteNeedsPack(s, number);
    PackFacts(s0, steps, s, h);
    ExecutedIsAuthorised(s, h, number);
    var row := FindRow(s.pack.value.worklist, number).value;
    if !MayGoUnsigned(row.action) {
      DecisionStep(s0, steps, s, h, row);
    }
    RoomGates(s0, steps, h.openedAt);
  }

  lemma ExecuteNeedsPack(s: Session, number: int)
    requires Accepted(s, Execute(number))
    ensures s.pack.Some? && FindRow(s.pack.value.worklist, number).Some?
    ensures After(s, Execute(number)).executed == s.executed + [FindRow(s.pack.value.worklist, number).value]
  {
    hide FindRow, Barred;
  }

  /** What an unsigned row says, and what it does not. */
  lemma UnsignedRowsSay(text: string)
    requires MayGoUnsigned(text)
    ensures forall word :: word in ["draw ", "defer ", "pay ", "resolve the dispute", "offer early-pay"] ==>
      !StartsWith(Lower(text), word)
    ensures StartsWith(Lower(text), "call ") || Contains(Lower(text), "dunning") || Contains(Lower(text), "retry")
  {
    hide Lower, StartsWith, Contains, Opens, Mentions, ReadsAs;
    OpensIff(text, "draw ");
    OpensIff(text, "defer ");
    OpensIff(text, "pay ");
    OpensIff(text, "call ");
    OpensIff(text, "resolve the dispute");
    OpensIff(text, "offer early-pay");
    MentionsIff(text, "dunning");
    MentionsIff(text, "retry");
    OneOpeningAtMost(text);
  }

  /** Over every run, an execution is let through exactly when cards have been made, a row has that
      number, no protected document is touched and its card, if it has one, is approved. */
  lemma ExecutesIff(s0: Session, steps: seq<Step>, number: int)
    requires s0 == NewSession(s0.hasSource, s0.preparedBy, s0.routes, s0.periods)
    ensures var s, h := Run(s0, steps), HistoryOf(s0, steps);
      Accepted(s, Execute(number)) <==>
        && s.pack.Some? && FindRow(s.pack.value.worklist, number).Some?
        && var row := FindRow(s.pack.value.worklist, number).value;
        && (forall c :: c in h.desk.candidates && c.isProtected ==> row.document != Some(c.document))
        && (row.id.Some? ==> Signed(s.ledger, row.id.value))
  {
    hide GatesInv, PackInv, TimeInv, Run, HistoryOf, FindRow, Barred, Signed;
    RunKeepsAll(s0, steps);
    var s, h := Run(s0, steps), HistoryOf(s0, steps);
    if s.pack.Some? && FindRow(s.pack.value.worklist, number).Some? {
      RowExecutesIff(s, h, number);
    }
  }

  lemma PackFacts(s0: Session, steps: seq<Step>, s: Session, h: History)
    requires GatesInv(s) && PackInv(s, h) && TimeInv(s0, steps, s, h) && s.pack.Some?
    ensures h.openedAt < h.preparedAt && h.desk.routes == s.routes && h.desk.preparedBy == s.preparedBy
    ensures Took(s0, steps, h.openedAt) && steps[h.openedAt].OpenWarRoom? && NoLaterRoom(s0, steps, h.openedAt)
  {
    hide LedgerInv, WellPrepared, Took, NoLaterRoom;
    TookWithin(s0, steps);
  }

  /** The row's own card, made on the desk of this session, was approved by a step of the run. */
  ghost predicate SignedOff(s0: Session, steps: seq<Step>, s: Session, h: History, row: Item)
    requires s.pack.Some?
  {
    && Authorised(s, h, row) && h.desk.routes == s0.routes && h.desk.preparedBy == s0.preparedBy
    && 0 <= h.decidedAt[row.id.value] < |steps|
    && steps[h.decidedAt[row.id.value]] == DecideCard(s.ledger.decisions[row.id.value])
  }

  lemma DecisionStep(s0: Session, steps: seq<Step>, s: Session, h: History, row: Item)
    requires TimeInv(s0, steps, s, h) && s.pack.Some? && Authorised(s, h, row)
    requires h.desk.routes == s0.routes && h.desk.preparedBy == s0.preparedBy
    ensures SignedOff(s0, steps, s, h, row)
  {
    hide CardFor, Lawful, Took, NoLaterRoom;
    TookWithin(s0, steps);
  }

  /** The state a war room was opened in. */
  ghost predicate RoomIsLegitimate(s0: Session, steps: seq<Step>, at: int) {
    && 0 <= at < |steps| && steps[at].OpenWarRoom?
    && var s := Run(s0, steps[..at]);
    && s.policy.Some? && s.policy.value.escalate
    && s.published.Some? && s.cycle.Some? && WellPublished(s)
    && s.policy.value.versionId == s.published.value.versionId == s.cycle.value.versionId
  }

  lemma RoomGates(s0: Session, steps: seq<Step>, at: int)
    requires s0 == NewSession(s0.hasSource, s0.preparedBy, s0.routes, s0.periods)
    requires Took(s0, steps, at) && steps[at].OpenWarRoom?
    ensures RoomIsLegitimate(s0, steps, at)
  {
    hide Run, LedgerInv;
    RunKeepsAll(s0, steps[..at]);
  }
}
