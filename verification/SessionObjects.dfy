/** The session and the objects it owns, each method proved to be its step of SessionRuns. */
module SessionObjects {
  import opened Approvals
  import opened Results
  import opened Text
  import Runs = SessionRuns

  class AuditLog {
    var entries: seq<Entry>

    constructor ()
      ensures entries == []
    {
      entries := [];
    }

    method Record(q: Request, d: Decision) returns (entry: Entry)
      modifies this
      ensures entry == EntryFor(q, d) && entries == old(entries) + [entry]
    {
      var seen := if d.snapshot.Some? && d.snapshot.value != "" then d.snapshot else q.snapshot;
      entry := Entry(d.at, d.decidedBy, d.role, q.id, d.approved, d.reason, q, seen);
      entries := entries + [entry];
    }
  }

  class ApprovalLedger {
    const audit: AuditLog
    var requests: map<int, Request>
    var decisions: map<int, Decision>

    constructor (audit: AuditLog)
      ensures this.audit == audit && requests == map[] && decisions == map[]
    {
      this.audit := audit;
      requests, decisions := map[], map[];
    }

    ghost function View(): Ledger
      reads this, audit
    {
      Ledger(requests, decisions, audit.entries)
    }

    method Register(cards: seq<Request>)
      modifies this`requests
      ensures View() == Registered(old(View()), cards)
    {
      for i := 0 to |cards|
        invariant View() == Registered(old(View()), cards[..i])
      {
        assert cards[..i + 1][..i] == cards[..i];
        requests := requests[cards[i].id := cards[i]];
      }
      assert cards[..|cards|] == cards;
    }

    /** Wrong role, wrong person, a blocked card and a second decision all refuse, and a refusal
        leaves no trace. */
    method Decide(d: Decision) returns (refusal: Option<Error>)
      modifies this`decisions, audit
      ensures refusal == Refusal(old(View()), d)
      ensures View() == Decided(old(View()), d)
    {
      hide Normalised;
      if d.id !in requests {
        return Some(UnknownRequest);
      }
      var q := requests[d.id];
      if d.id in decisions {
        return Some(AlreadyDecided);
      }
      if q.blocked {
        return Some(BlockedByPolicy);
      }
      if Normalised(d.decidedBy) == Normalised(q.preparedBy) {
        return Some(PreparerDecides);
      }
      if d.approved && d.role != q.required {
        return Some(WrongRole);
      }
      decisions := decisions[d.id := d];
      var entry := audit.Record(q, d);
      return None;
    }

    method CurrentState(id: int) returns (state: State)
      ensures state == StateOf(View(), id)
    {
      if id !in requests {
        return DRAFT;
      }
      if requests[id].blocked {
        return BLOCKED;
      }
      if id !in decisions {
        return PENDING;
      }
      return if decisions[id].approved then APPROVED else REFUSED;
    }
  }

  class DryRunAdapter {
    var executed: seq<Item>

    constructor ()
      ensures executed == []
    {
      executed := [];
    }

    method Execute(item: Item)
      modifies this
      ensures executed == old(executed) + [item]
    {
      executed := executed + [item];
    }
  }

  class Executor {
    const ledger: ApprovalLedger
    const adapter: DryRunAdapter

    constructor (ledger: ApprovalLedger, adapter: DryRunAdapter)
      ensures this.ledger == ledger && this.adapter == adapter
    {
      this.ledger, this.adapter := ledger, adapter;
    }

    /** The adapter is reached exactly by the rows nothing bars. */
    method Execute(item: Item) returns (refusal: Option<Error>)
      modifies adapter
      ensures refusal == Barred(ledger.View(), item)
      ensures adapter.executed == old(adapter.executed) + if refusal.None? then [item] else []
    {
      hide KindOf;
      var kind := KindOf(item.action);
      if item.status == REJECTED {
        return Some(RowRejected);
      }
      if item.id.None? {
        if kind in ALWAYS_GATED {
          return Some(AlwaysGated);
        }
        adapter.Execute(item);
        return None;
      }
      var state := ledger.CurrentState(item.id.value);
      if state != APPROVED {
        return Some(NotApproved);
      }
      adapter.Execute(item);
      return None;
    }
  }

  class Session {
    const hasSource: bool
    const preparedBy: string
    const routes: seq<Route>
    const periods: seq<Runs.Period>
    const audit: AuditLog
    const approvals: ApprovalLedger
    const adapter: DryRunAdapter
    const executor: Executor
    var cycle: Option<Runs.CycleResult>
    var published: Option<Runs.Published>
    var policy: Option<Runs.PolicyCheck>
    var investigation: Option<Runs.Investigation>
    var pack: Option<Pack>
    var nextId: int

    ghost predicate Valid()
      reads this
    {
      approvals.audit == audit && executor.ledger == approvals && executor.adapter == adapter
    }

    ghost function View(): Runs.Session
      reads this, approvals, approvals.audit, adapter
    {
      Runs.Session(hasSource, preparedBy, routes, periods, cycle, published, policy, investigation, pack, approvals.View(),
                   adapter.executed, nextId)
    }

    constructor (hasSource: bool, preparedBy: string, routes: seq<Route>, periods: seq<Runs.Period>)
      ensures Valid() && View() == Runs.NewSession(hasSource, preparedBy, routes, periods)
      ensures fresh(audit) && fresh(approvals) && fresh(adapter)
    {
      this.hasSource, this.preparedBy, this.routes, this.periods := hasSource, preparedBy, routes, periods;
      var log := new AuditLog();
      var ledger := new ApprovalLedger(log);
      var dryRun := new DryRunAdapter();
      var gate := new Executor(ledger, dryRun);
      audit, approvals, adapter, executor := log, ledger, dryRun, gate;
      cycle, published, policy, investigation, pack, nextId := None, None, None, None, None, 0;
    }

    method RunCycle(result: Option<Runs.CycleResult>) returns (problem: Option<Runs.Problem>)
      requires Valid()
      modifies this`cycle
      ensures Valid() && problem == Runs.ProblemWith(old(View()), Runs.RunCycle(result))
      ensures View() == Runs.After(old(View()), Runs.RunCycle(result))
    {
      if !hasSource {
        return Some(Runs.NoSource);
      }
      if published.Some? {
        return Some(Runs.AlreadyPublished);
      }
      if result.None? {
        return Some(Runs.CallFailed);
      }
      cycle := result;
      return None;
    }

    method Publish(publishedBy: string, role: Role) returns (problem: Option<Runs.Problem>)
      requires Valid()
      modifies this`published
      ensures Valid() && problem == Runs.ProblemWith(old(View()), Runs.Publish(publishedBy, role))
      ensures View() == Runs.After(old(View()), Runs.Publish(publishedBy, role))
    {
      hide Normalised;
      if cycle.None? {
        return Some(Runs.NoCycle);
      }
      if published.Some? {
        return Some(Runs.AlreadyPublished);
      }
      if Normalised(publishedBy) == Normalised(preparedBy) {
        return Some(Runs.PublisherPrepared);
      }
      if role != TREASURER && role != CFO {
        return Some(Runs.RoleMayNotPublish);
      }
      if Runs.IsClosed(periods, cycle.value.weekEnding) {
        return Some(Runs.PeriodClosed);
      }
      published := Some(Runs.Published(cycle.value.versionId, cycle.value.weekEnding, publishedBy, role));
      return None;
    }

    method CheckPolicy(escalates: Option<bool>) returns (problem: Option<Runs.Problem>)
      requires Valid()
      modifies this`policy
      ensures Valid() && problem == Runs.ProblemWith(old(View()), Runs.CheckPolicy(escalates))
      ensures View() == Runs.After(old(View()), Runs.CheckPolicy(escalates))
    {
      if cycle.None? {
        return Some(Runs.NoCycle);
      }
      if published.None? {
        return Some(Runs.NotPublished);
      }
      if escalates.None? {
        return Some(Runs.CallFailed);
      }
      policy := Some(Runs.PolicyCheck(escalates.value, published.value.versionId));
      return None;
    }

    method OpenWarRoom(outcome: Option<Runs.Investigation>) returns (problem: Option<Runs.Problem>)
      requires Valid()
      modifies this`investigation, this`pack
      ensures Valid() && problem == Runs.ProblemWith(old(View()), Runs.OpenWarRoom(outcome))
      ensures View() == Runs.After(old(View()), Runs.OpenWarRoom(outcome))
    {
      if policy.None? {
        return Some(Runs.NoPolicyCheck);
      }
      if !policy.value.escalate {
        return Some(Runs.NothingToEscalate);
      }
      if outcome.None? {
        return Some(Runs.CallFailed);
      }
      investigation := outcome;
      pack := None;
      return None;
    }

    /** Cached: the cards are made once for a recommendation, with ids never used before. */
    method PreparePack(candidates: Option<seq<Candidate>>) returns (problem: Option<Runs.Problem>)
      requires Valid()
      modifies this`pack, this`nextId, approvals`requests
      ensures Valid() && problem == Runs.ProblemWith(old(View()), Runs.PreparePack(candidates))
      ensures View() == Runs.After(old(View()), Runs.PreparePack(candidates))
    {
      hide Prepared, Registered;
      if pack.Some? {
        return None;
      }
      if investigation.None? || investigation.value.recommendation.None? {
        return Some(Runs.NoRecommendation);
      }
      if candidates.None? {
        return Some(Runs.CallFailed);
      }
      var items := investigation.value.recommendation.value;
      var snapshot := if published.Some? then Some(published.value.versionId) else None;
      var made := Prepare(items, Desk(candidates.value, routes, preparedBy, snapshot, nextId));
      if made.Err? {
        return Some(Runs.Refused(made.error));
      }
      pack := Some(made.value);
      approvals.Register(made.value.requests);
      nextId := nextId + |items|;
      return None;
    }

    method DecideCard(d: Decision) returns (problem: Option<Runs.Problem>)
      requires Valid()
      modifies approvals`decisions, approvals.audit
      ensures Valid() && problem == Runs.ProblemWith(old(View()), Runs.DecideCard(d))
      ensures View() == Runs.After(old(View()), Runs.DecideCard(d))
    {
      hide Refusal, Decided;
      if pack.None? {
        return Some(Runs.NoPack);
      }
      var refusal := approvals.Decide(d);
      RefusedChangesNothing(old(approvals.View()), d);
      return if refusal.Some? then Some(Runs.Refused(refusal.value)) else None;
    }

    lemma RefusedChangesNothing(l: Ledger, d: Decision)
      ensures Refusal(l, d).Some? ==> Decided(l, d) == l
    {
    }

    method Execute(row: int) returns (problem: Option<Runs.Problem>)
      requires Valid()
      modifies adapter
      ensures Valid() && problem == Runs.ProblemWith(old(View()), Runs.Execute(row))
      ensures View() == Runs.After(old(View()), Runs.Execute(row))
    {
      hide Barred;
      if pack.None? {
        return Some(Runs.NoPack);
      }
      var item := Runs.FindRow(pack.value.worklist, row);
      if item.None? {
        return Some(Runs.NoRow);
      }
      var refusal := executor.Execute(item.value);
      return if refusal.Some? then Some(Runs.Refused(refusal.value)) else None;
    }
  }
}
