/** Risk classification, routing, approval cards and the audit trail. */
module Approvals {
  import opened Results
  import opened Text

  datatype Kind =
    | COLLECTION_CALL | EARLY_PAY_DISCOUNT | DISPUTE_RESOLUTION | AP_DEFER | AP_ACCELERATE
    | DODO_RETRY | DODO_DUNNING | REVOLVER_DRAW | ASSUMPTION_REVIEW

  datatype Role = ANALYST | TREASURER | CFO | BOARD

  datatype Status = OPEN | QUEUED | NEEDS_APPROVAL | REJECTED

  datatype Risk = AUTO_SAFE | REQUIRES_APPROVAL | BLOCKED_RISK

  datatype State = DRAFT | PENDING | APPROVED | REFUSED | BLOCKED

  datatype Error =
    | NegativeAmount | NoRoute | RoutesOverlap
    | UnknownRequest | AlreadyDecided | BlockedByPolicy | PreparerDecides | WrongRole
    | RowRejected | AlwaysGated | NotApproved

  /** One worklist row; `id` is the approval request it refers to. */
  datatype Item = Item(number: int, action: string, document: Option<string>, amount: int, status: Status,
                       id: Option<int>)

  /** A band of the delegation matrix: `lower <= amount < upper`, open where a bound is missing; and
      who reviews and who signs. */
  datatype Route = Route(actionClass: string, lower: Option<int>, upper: Option<int>, reviewer: Option<Role>,
                         accountable: Option<Role>, blocked: bool) {
    /** What the route contract validates. */
    predicate Valid() {
      (!blocked ==> accountable.Some?) && (lower.Some? && upper.Some? ==> lower.value <= upper.value)
    }
  }

  /** An AP candidate; the discount rate in hundredths of a percent, where one is forgone. */
  datatype Candidate = Candidate(document: string, isProtected: bool, discount: Option<int>)

  datatype Request = Request(id: int, row: int, action: string, amount: int, required: Role, route: Route,
                             preparedBy: string, blocked: bool, snapshot: Option<string>)

  datatype Decision = Decision(id: int, decidedBy: string, role: Role, approved: bool, reason: string, at: int,
                               snapshot: Option<string>)

  const EXPENSIVE_DISCOUNT := 200

  const ALWAYS_GATED := {REVOLVER_DRAW, AP_DEFER, EARLY_PAY_DISCOUNT}
  const AUTO_SAFE_KINDS := {COLLECTION_CALL, DODO_RETRY, DODO_DUNNING}

  // ----- Classification -----

  /** The lever kind, recovered from the text of the row. */
  function KindOf(action: string): Kind {
    var text := Lower(action);
    if StartsWith(text, "draw ") then REVOLVER_DRAW
    else if StartsWith(text, "defer ") then AP_DEFER
    else if StartsWith(text, "pay ") then AP_ACCELERATE
    else if StartsWith(text, "call ") then COLLECTION_CALL
    else if StartsWith(text, "resolve the dispute") then DISPUTE_RESOLUTION
    else if StartsWith(text, "offer early-pay") then EARLY_PAY_DISCOUNT
    else if Contains(text, "dunning") then DODO_DUNNING
    else if Contains(text, "retry") then DODO_RETRY
    else ASSUMPTION_REVIEW
  }

  predicate IsProtected(item: Item, candidates: seq<Candidate>) {
    exists i :: 0 <= i < |candidates| && candidates[i].isProtected && item.document == Some(candidates[i].document)
  }

  function NameOf(document: Option<string>): string {
    if document.Some? then document.value else ""
  }

  /** The rate on file for a document; the last candidate with one counts. */
  function DiscountOf(document: string, candidates: seq<Candidate>): Option<int> {
    if candidates == [] then None
    else
      var c := candidates[|candidates| - 1];
      if c.document == document && c.discount.Some? then c.discount
      else DiscountOf(document, candidates[..|candidates| - 1])
  }

  function KindValue(kind: Kind): string {
    match kind
    case COLLECTION_CALL => "collection_call"
    case EARLY_PAY_DISCOUNT => "early_pay_discount"
    case DISPUTE_RESOLUTION => "dispute_resolution"
    case AP_DEFER => "ap_defer"
    case AP_ACCELERATE => "ap_accelerate"
    case DODO_RETRY => "dodo_retry"
    case DODO_DUNNING => "dodo_dunning"
    case REVOLVER_DRAW => "revolver_draw"
    case ASSUMPTION_REVIEW => "assumption_review"
  }

  /** The matrix key of a row. */
  function ActionClass(item: Item, candidates: seq<Candidate>): string {
    var kind := KindOf(item.action);
    if IsProtected(item, candidates) then "protected_payment_class"
    else if kind == EARLY_PAY_DISCOUNT then
      var rate := DiscountOf(NameOf(item.document), candidates);
      if rate.None? || rate.value > EXPENSIVE_DISCOUNT then "early_pay_discount_gt_2pct"
      else "early_pay_discount_le_2pct"
    else KindValue(kind)
  }

  function Classify(item: Item, candidates: seq<Candidate>): Risk {
    if IsProtected(item, candidates) then BLOCKED_RISK
    else if KindOf(item.action) in AUTO_SAFE_KINDS then AUTO_SAFE
    else REQUIRES_APPROVAL
  }

  // ----- What the text of a row decides -----

  /** It opens with something the firm would be held to. */
  predicate Commits(text: string) {
    || Opens(text, "draw ") || Opens(text, "defer ") || Opens(text, "pay ")
    || Opens(text, "resolve the dispute") || Opens(text, "offer early-pay")
  }

  ghost predicate MayGoUnsigned(text: string) {
    Opens(text, "call ") || (!Commits(text) && (Mentions(text, "dunning") || Mentions(text, "retry")))
  }

  /** A protected document among the candidates. */
  predicate Untouchable(document: Option<string>, candidates: seq<Candidate>) {
    exists c :: c in candidates && c.isProtected && document == Some(c.document)
  }

  ghost predicate NeedsNoCard(item: Item, candidates: seq<Candidate>) {
    MayGoUnsigned(item.action) && !Untouchable(item.document, candidates)
  }

  ghost predicate RateOnFile(name: string, candidates: seq<Candidate>, rate: int) {
    exists j :: LastRate(name, candidates, rate, j)
  }

  ghost predicate CheapOnFile(name: string, candidates: seq<Candidate>) {
    exists rate :: RateOnFile(name, candidates, rate) && rate <= 200
  }

  /** The last candidate of a name that comes with a rate. */
  ghost predicate LastRate(name: string, candidates: seq<Candidate>, rate: int, j: int) {
    && 0 <= j < |candidates| && candidates[j].document == name && candidates[j].discount == Some(rate)
    && forall i :: j < i < |candidates| && candidates[i].document == name ==> candidates[i].discount.None?
  }

  /** The entry of the delegation matrix that a text asks for. An early-pay offer is cheap up to a rate
      of 2.00 %, and dear when no rate is on file. */
  ghost predicate KeyFits(key: string, row: Item, candidates: seq<Candidate>) {
    var text := row.action;
    if Untouchable(row.document, candidates) then key == "protected_payment_class"
    else
      && (Opens(text, "draw ") ==> key == "revolver_draw")
      && (Opens(text, "defer ") ==> key == "ap_defer")
      && (Opens(text, "pay ") ==> key == "ap_accelerate")
      && (Opens(text, "call ") ==> key == "collection_call")
      && (Opens(text, "resolve the dispute") ==> key == "dispute_resolution")
      && (Opens(text, "offer early-pay") ==>
        key == if CheapOnFile(if row.document.Some? then row.document.value else "", candidates)
               then "early_pay_discount_le_2pct"
               else "early_pay_discount_gt_2pct")
      && (!Commits(text) && !Opens(text, "call ") ==>
        key == if Mentions(text, "dunning") then "dodo_dunning"
               else if Mentions(text, "retry") then "dodo_retry"
               else "assumption_review")
  }

  /** No text opens in two of these ways. */
  lemma OneOpening(text: string)
    ensures var c := if text == "" then ' ' else text[0];
      && (Opens(text, "draw ") || Opens(text, "defer ") ==> ReadsAs(c, 'd'))
      && (Opens(text, "pay ") ==> ReadsAs(c, 'p')) && (Opens(text, "call ") ==> ReadsAs(c, 'c'))
      && (Opens(text, "resolve the dispute") ==> ReadsAs(c, 'r')) && (Opens(text, "offer early-pay") ==> ReadsAs(c, 'o'))
    ensures !(Opens(text, "draw ") && Opens(text, "defer "))
  {
    assert "draw "[0] == "defer "[0] == 'd' && "pay "[0] == 'p' && "call "[0] == 'c';
    assert "resolve the dispute"[0] == 'r' && "offer early-pay"[0] == 'o';
    assert "draw "[1] == 'r' && "defer "[1] == 'e';
    assert Opens(text, "draw ") ==> ReadsAs(text[0 + 0], 'd') && ReadsAs(text[0 + 1], 'r');
    assert Opens(text, "defer ") ==> ReadsAs(text[0 + 0], 'd') && ReadsAs(text[0 + 1], 'e');
    assert Opens(text, "pay ") ==> ReadsAs(text[0 + 0], 'p');
    assert Opens(text, "call ") ==> ReadsAs(text[0 + 0], 'c');
    assert Opens(text, "resolve the dispute") ==> ReadsAs(text[0 + 0], 'r');
    assert Opens(text, "offer early-pay") ==> ReadsAs(text[0 + 0], 'o');
  }

  lemma KindByText(text: string)
    ensures KindOf(text) == REVOLVER_DRAW <==> Opens(text, "draw ")
    ensures KindOf(text) == AP_DEFER <==> Opens(text, "defer ")
    ensures KindOf(text) == AP_ACCELERATE <==> Opens(text, "pay ")
    ensures KindOf(text) == COLLECTION_CALL <==> Opens(text, "call ")
    ensures KindOf(text) == DISPUTE_RESOLUTION <==> Opens(text, "resolve the dispute")
    ensures KindOf(text) == EARLY_PAY_DISCOUNT <==> Opens(text, "offer early-pay")
    ensures !Commits(text) && !Opens(text, "call ") ==>
      KindOf(text) == if Mentions(text, "dunning") then DODO_DUNNING
                      else if Mentions(text, "retry") then DODO_RETRY
                      else ASSUMPTION_REVIEW
  {
    hide Lower, StartsWith, Contains, Opens, Mentions, ReadsAs;
    OpensIff(text, "draw ");
    OpensIff(text, "defer ");
    OpensIff(text, "pay ");
    OpensIff(text, "call ");
    OpensIff(text, "resolve the dispute");
    OpensIff(text, "offer early-pay");
    MentionsIff(text, "dunning");
    MentionsIff(text, "retry");
    OneOpeningAtMost(text);
  }

  lemma OneOpeningAtMost(text: string)
    ensures Opens(text, "draw ") ==>
      !Opens(text, "defer ") && !Opens(text, "pay ") && !Opens(text, "call ") && !Opens(text, "resolve the dispute")
      && !Opens(text, "offer early-pay")
    ensures Opens(text, "defer ") ==>
      !Opens(text, "pay ") && !Opens(text, "call ") && !Opens(text, "resolve the dispute") && !Opens(text, "offer early-pay")
    ensures Opens(text, "pay ") ==>
      !Opens(text, "call ") && !Opens(text, "resolve the dispute") && !Opens(text, "offer early-pay")
    ensures Opens(text, "call ") ==> !Opens(text, "resolve the dispute") && !Opens(text, "offer early-pay")
    ensures Opens(text, "resolve the dispute") ==> !Opens(text, "offer early-pay")
  {
    hide Opens;
    OneOpening(text);
  }

  lemma ProtectedIff(item: Item, candidates: seq<Candidate>)
    ensures IsProtected(item, candidates) <==> Untouchable(item.document, candidates)
  {
  }

  lemma ClassifyByText(item: Item, candidates: seq<Candidate>)
    ensures Classify(item, candidates) == AUTO_SAFE <==> NeedsNoCard(item, candidates)
    ensures Classify(item, candidates) == BLOCKED_RISK <==> Untouchable(item.document, candidates)
  {
    hide KindOf, IsProtected, Opens, Mentions, Untouchable;
    KindByText(item.action);
    ProtectedIff(item, candidates);
    OneOpeningAtMost(item.action);
  }

  lemma {:induction false} DiscountIsOnFile(name: string, candidates: seq<Candidate>, rate: int)
    ensures DiscountOf(name, candidates) == Some(rate) <==> RateOnFile(name, candidates, rate)
  {
    if candidates != [] {
      var n := |candidates| - 1;
      DiscountIsOnFile(name, candidates[..n], rate);
      var last := candidates[n];
      if last.document == name && last.discount.Some? {
        assert LastRate(name, candidates, last.discount.value, n);
        if j :| LastRate(name, candidates, rate, j) {
          assert j < n ==> candidates[n].discount.None?;
        }
      } else {
        forall j
          ensures LastRate(name, candidates, rate, j) <==> LastRate(name, candidates[..n], rate, j)
        {
          assert forall i :: 0 <= i < n ==> candidates[..n][i] == candidates[i];
        }
      }
    }
  }

  lemma ActionClassFits(item: Item, candidates: seq<Candidate>)
    ensures KeyFits(ActionClass(item, candidates), item, candidates)
  {
    hide KindOf, IsProtected, Opens, Mentions, Untouchable, DiscountOf, RateOnFile;
    KindByText(item.action);
    ProtectedIff(item, candidates);
    OneOpeningAtMost(item.action);
    var name := NameOf(item.document);
    forall rate
      ensures RateOnFile(name, candidates, rate) <==> DiscountOf(name, candidates) == Some(rate)
    {
      DiscountIsOnFile(name, candidates, rate);
    }
  }

  // ----- Routing -----

  predicate Covers(route: Route, actionClass: string, amount: int) {
    && route.actionClass == actionClass
    && (route.lower.Some? ==> route.lower.value <= amount)
    && (route.lower.None? ==> 0 <= amount)
    && (route.upper.Some? ==> amount < route.upper.value)
  }

  /** Bands that meet share no amount and leave none out: where they meet, the upper one holds. */
  lemma BandsMeet(below: Route, above: Route, actionClass: string, amount: int)
    requires below.actionClass == above.actionClass == actionClass && below.upper.Some? && below.upper == above.lower
    requires amount >= 0
    ensures !(Covers(below, actionClass, amount) && Covers(above, actionClass, amount))
    ensures Covers(below.(upper := above.upper), actionClass, amount) && below.Valid() && above.Valid() ==>
      (amount < below.upper.value <==> Covers(below, actionClass, amount))
      && (below.upper.value <= amount <==> Covers(above, actionClass, amount))
    ensures forall other :: other != actionClass ==> !Covers(below, other, amount)
  {
  }

  ghost predicate OnlyBand(routes: seq<Route>, k: nat, actionClass: string, amount: int) {
    k < |routes| && forall i :: 0 <= i < |routes| ==> (Covers(routes[i], actionClass, amount) <==> i == k)
  }

  /** `route_approval`: the unique band, or an error that says whether none or several fit. */
  method RouteApproval(actionClass: string, amount: int, routes: seq<Route>) returns (r: Result<Route, Error>)
    ensures amount < 0 ==> r == Err(NegativeAmount)
    ensures amount >= 0 ==> r == Routed(actionClass, amount, routes)
  {
    hide Covers, Routed;
    if amount < 0 {
      return Err(NegativeAmount);
    }
    var matches: seq<nat> := [];
    for i := 0 to |routes|
      invariant forall p :: 0 <= p < |matches| ==> matches[p] < i && Covers(routes[matches[p]], actionClass, amount)
      invariant forall p, q :: 0 <= p < q < |matches| ==> matches[p] < matches[q]
      invariant forall k :: 0 <= k < i && Covers(routes[k], actionClass, amount) ==> k in matches
    {
      if Covers(routes[i], actionClass, amount) {
        matches := matches + [i];
      }
    }
    if matches == [] {
      NoBand(actionClass, amount, routes);
      return Err(NoRoute);
    }
    if |matches| != 1 {
      TwoBands(actionClass, amount, routes, matches[0], matches[1]);
      return Err(RoutesOverlap);
    }
    assert OnlyBand(routes, matches[0], actionClass, amount);
    OneBand(actionClass, amount, routes, matches[0]);
    return Ok(routes[matches[0]]);
  }

  ghost function Routed(actionClass: string, amount: int, routes: seq<Route>): Result<Route, Error> {
    if k: nat :| OnlyBand(routes, k, actionClass, amount) then Ok(routes[k])
    else if exists i :: 0 <= i < |routes| && Covers(routes[i], actionClass, amount) then Err(RoutesOverlap)
    else Err(NoRoute)
  }

  lemma OneBand(actionClass: string, amount: int, routes: seq<Route>, k: nat)
    requires OnlyBand(routes, k, actionClass, amount)
    ensures Routed(actionClass, amount, routes) == Ok(routes[k])
  {
    forall j: nat | OnlyBand(routes, j, actionClass, amount)
      ensures j == k
    {
      assert Covers(routes[k], actionClass, amount);
    }
  }

  lemma NoBand(actionClass: string, amount: int, routes: seq<Route>)
    requires forall i :: 0 <= i < |routes| ==> !Covers(routes[i], actionClass, amount)
    ensures Routed(actionClass, amount, routes) == Err(NoRoute)
  {
    forall k: nat
      ensures !OnlyBand(routes, k, actionClass, amount)
    {
      var held := k < |routes| && Covers(routes[k], actionClass, amount);
    }
  }

  lemma TwoBands(actionClass: string, amount: int, routes: seq<Route>, i: nat, j: nat)
    requires i < j < |routes| && Covers(routes[i], actionClass, amount) && Covers(routes[j], actionClass, amount)
    ensures Routed(actionClass, amount, routes) == Err(RoutesOverlap)
  {
    forall k: nat
      ensures !OnlyBand(routes, k, actionClass, amount)
    {
      var first, second := Covers(routes[i], actionClass, amount), Covers(routes[j], actionClass, amount);
    }
  }

  // ----- The pack -----

  datatype Pack = Pack(worklist: seq<Item>, requests: seq<Request>)

  /** What preparing a worklist needs besides the rows; `firstId` numbers the fresh request ids. */
  datatype Desk = Desk(candidates: seq<Candidate>, routes: seq<Route>, preparedBy: string, snapshot: Option<string>,
                       firstId: int)

  ghost function RouteOf(item: Item, desk: Desk): Result<Route, Error> {
    if item.amount < 0 then Err(NegativeAmount)
    else Routed(ActionClass(item, desk.candidates), item.amount, desk.routes)
  }

  function CardOf(item: Item, route: Route, desk: Desk, id: int): Request {
    Request(id, item.number, item.action, item.amount, if route.accountable.Some? then route.accountable.value else CFO,
            route, desk.preparedBy, route.blocked, desk.snapshot)
  }

  function RowOf(item: Item, desk: Desk, id: int): Item {
    match Classify(item, desk.candidates)
    case AUTO_SAFE => item.(status := QUEUED)
    case BLOCKED_RISK => item.(status := REJECTED, id := Some(id))
    case REQUIRES_APPROVAL => item.(status := NEEDS_APPROVAL, id := Some(id))
  }

  /** Row by row; row k is given the id `firstId + k` if it needs one. The first row that cannot be
      routed ends the whole preparation. */
  ghost function Prepared(items: seq<Item>, desk: Desk): Result<Pack, Error> {
    if items == [] then Ok(Pack([], []))
    else
      var n := |items| - 1;
      var item, id := items[n], desk.firstId + n;
      match Prepared(items[..n], desk)
      case Err(e) => Err(e)
      case Ok(pack) =>
        if Classify(item, desk.candidates) == AUTO_SAFE then Ok(pack.(worklist := pack.worklist + [RowOf(item, desk, id)]))
        else
          match RouteOf(item, desk)
          case Err(e) => Err(e)
          case Ok(route) =>
            Ok(Pack(pack.worklist + [RowOf(item, desk, id)], pack.requests + [CardOf(item, route, desk, id)]))
  }

  /** `prepare`. */
  method Prepare(items: seq<Item>, desk: Desk) returns (r: Result<Pack, Error>)
    ensures r == Prepared(items, desk)
  {
    hide Classify, KindOf, IsProtected, ActionClass, Routed;
    var rows: seq<Item>, requests: seq<Request> := [], [];
    for k := 0 to |items|
      invariant Prepared(items[..k], desk) == Ok(Pack(rows, requests))
    {
      var item, id := items[k], desk.firstId + k;
      assert items[..k + 1][..k] == items[..k];
      if Classify(item, desk.candidates) == AUTO_SAFE {
        rows := rows + [item.(status := QUEUED)];
      } else {
        var route := RouteApproval(ActionClass(item, desk.candidates), item.amount, desk.routes);
        if route.Err? {
          ErrorStays(items, desk, k + 1);
          return Err(route.error);
        }
        requests := requests + [CardOf(item, route.value, desk, id)];
        var status := if Classify(item, desk.candidates) == BLOCKED_RISK then REJECTED else NEEDS_APPROVAL;
        rows := rows + [item.(status := status, id := Some(id))];
      }
    }
    assert items[..|items|] == items;
    return Ok(Pack(rows, requests));
  }

  lemma {:induction false} ErrorStays(items: seq<Item>, desk: Desk, k: nat)
    requires k <= |items| && Prepared(items[..k], desk).Err?
    ensures Prepared(items, desk) == Prepared(items[..k], desk)
    decreases |items|
  {
    hide Classify, RouteOf;
    if k < |items| {
      var n := |items| - 1;
      assert items[..n][..k] == items[..k];
      ErrorStays(items[..n], desk, k);
    } else {
      assert items[..k] == items;
    }
  }

  /** A row that needs a card carries a fresh id, and its card is routed by the only band of the matrix
      that holds its amount under the key its text asks for. A row that touches a protected document is
      rejected whatever it says. */
  ghost predicate Gated(row: Item, item: Item, pack: Pack, desk: Desk, id: int) {
    && row.id == Some(id)
    && (Untouchable(item.document, desk.candidates) <==> row.status == REJECTED)
    && exists j :: 0 <= j < |pack.requests| && CardFor(pack.requests[j], row, desk, id)
  }

  ghost predicate CardFor(q: Request, row: Item, desk: Desk, id: int) {
    && q.id == id && q.row == row.number && q.action == row.action && q.amount == row.amount >= 0
    && q.preparedBy == desk.preparedBy && q.snapshot == desk.snapshot
    && q.blocked == q.route.blocked
    && q.required == (if q.route.accountable.Some? then q.route.accountable.value else CFO)
    && KeyFits(q.route.actionClass, row, desk.candidates)
    && exists k: nat :: OnlyBand(desk.routes, k, q.route.actionClass, row.amount) && desk.routes[k] == q.route
  }

  ghost predicate WellPrepared(items: seq<Item>, desk: Desk, pack: Pack) {
    && |pack.worklist| == |items|
    && (forall k :: 0 <= k < |items| ==>
      if NeedsNoCard(items[k], desk.candidates) then pack.worklist[k] == items[k].(status := QUEUED)
      else Gated(pack.worklist[k], items[k], pack, desk, desk.firstId + k) && SameRow(pack.worklist[k], items[k]))
    && (forall j :: 0 <= j < |pack.requests| ==> desk.firstId <= pack.requests[j].id < desk.firstId + |items|)
    && (forall i, j :: 0 <= i < j < |pack.requests| ==> pack.requests[i].id < pack.requests[j].id)
  }

  predicate SameRow(row: Item, item: Item) {
    row.number == item.number && row.action == item.action && row.document == item.document && row.amount == item.amount
  }

  lemma CardIsRouted(item: Item, route: Route, desk: Desk, id: int)
    requires RouteOf(item, desk) == Ok(route) && Classify(item, desk.candidates) != AUTO_SAFE
    ensures CardFor(CardOf(item, route, desk, id), RowOf(item, desk, id), desk, id)
    ensures RowOf(item, desk, id).id == Some(id) && SameRow(RowOf(item, desk, id), item)
    ensures Untouchable(item.document, desk.candidates) <==> RowOf(item, desk, id).status == REJECTED
  {
    hide Classify, ActionClass, KeyFits, Untouchable, OnlyBand;
    ClassifyByText(item, desk.candidates);
    var key := ActionClass(item, desk.candidates);
    var k: nat := BandOf(item, route, desk);
    BandKey(desk.routes, k, key, item.amount);
    ActionClassFits(item, desk.candidates);
    SameKeyFits(key, RowOf(item, desk, id), item, desk.candidates);
  }

  lemma BandOf(item: Item, route: Route, desk: Desk) returns (k: nat)
    requires RouteOf(item, desk) == Ok(route)
    ensures OnlyBand(desk.routes, k, ActionClass(item, desk.candidates), item.amount) && desk.routes[k] == route
  {
    k :| OnlyBand(desk.routes, k, ActionClass(item, desk.candidates), item.amount) && desk.routes[k] == route;
  }

  lemma BandKey(routes: seq<Route>, k: nat, actionClass: string, amount: int)
    requires OnlyBand(routes, k, actionClass, amount)
    ensures routes[k].actionClass == actionClass
  {
    assert Covers(routes[k], actionClass, amount);
  }

  lemma SameKeyFits(key: string, row: Item, item: Item, candidates: seq<Candidate>)
    requires SameRow(row, item)
    ensures KeyFits(key, row, candidates) <==> KeyFits(key, item, candidates)
    ensures NeedsNoCard(row, candidates) <==> NeedsNoCard(item, candidates)
  {
    hide Opens, Mentions, Untouchable, CheapOnFile;
  }

  lemma {:induction false} PreparedIsWell(items: seq<Item>, desk: Desk)
    requires Prepared(items, desk).Ok?
    ensures WellPrepared(items, desk, Prepared(items, desk).value)
  {
    hide Classify, NeedsNoCard, Untouchable, RouteOf, CardFor, CardOf, RowOf, WellPrepared;
    if items == [] {
      NothingPrepared(items, desk);
    } else {
      var n := |items| - 1;
      PreparedIsWell(items[..n], desk);
      var before := Prepared(items[..n], desk).value;
      var item, id := items[n], desk.firstId + n;
      ClassifyByText(item, desk.candidates);
      if Classify(item, desk.candidates) == AUTO_SAFE {
        AutoRow(item, desk, id);
        OneRowMore(items, desk, before, RowOf(item, desk, id), []);
        assert before.requests + [] == before.requests;
      } else {
        var card := CardOf(item, RouteOf(item, desk).value, desk, id);
        CardIsRouted(item, RouteOf(item, desk).value, desk, id);
        CardShape(item, RouteOf(item, desk).value, desk, id);
        OneRowMore(items, desk, before, RowOf(item, desk, id), [card]);
      }
    }
  }

  lemma NothingPrepared(items: seq<Item>, desk: Desk)
    requires items == []
    ensures WellPrepared(items, desk, Pack([], []))
  {
  }

  lemma OneRowMore(items: seq<Item>, desk: Desk, before: Pack, row: Item, cards: seq<Request>)
    requires items != [] && WellPrepared(items[..|items| - 1], desk, before)
    requires var n := |items| - 1;
      var item, id := items[n], desk.firstId + n;
      if NeedsNoCard(item, desk.candidates) then row == item.(status := QUEUED) && cards == []
      else
        && |cards| == 1 && cards[0].id == id && CardFor(cards[0], row, desk, id)
        && row.id == Some(id) && SameRow(row, item) && (Untouchable(item.document, desk.candidates) <==> row.status == REJECTED)
    ensures WellPrepared(items, desk, Pack(before.worklist + [row], before.requests + cards))
  {
    hide NeedsNoCard, Untouchable, CardFor, SameRow;
    var n, pack := |items| - 1, Pack(before.worklist + [row], before.requests + cards);
    forall k | 0 <= k < |items| && !NeedsNoCard(items[k], desk.candidates)
      ensures Gated(pack.worklist[k], items[k], pack, desk, desk.firstId + k) && SameRow(pack.worklist[k], items[k])
    {
      if k < n {
        assert items[..n][k] == items[k] && pack.worklist[k] == before.worklist[k];
        var j :| 0 <= j < |before.requests| && CardFor(before.requests[j], before.worklist[k], desk, desk.firstId + k);
        assert pack.requests[j] == before.requests[j];
      } else {
        assert pack.requests[|before.requests|] == cards[0];
      }
    }
    forall k | 0 <= k < |items| && NeedsNoCard(items[k], desk.candidates)
      ensures pack.worklist[k] == items[k].(status := QUEUED)
    {
      assert k < n ==> items[..n][k] == items[k];
    }
  }

  lemma AutoRow(item: Item, desk: Desk, id: int)
    requires Classify(item, desk.candidates) == AUTO_SAFE
    ensures RowOf(item, desk, id) == item.(status := QUEUED)
  {
  }

  lemma CardShape(item: Item, route: Route, desk: Desk, id: int)
    ensures CardOf(item, route, desk, id).id == id
  {
  }

  // ----- The ledger and the audit trail -----

  /** What the decider saw and what was decided. */
  datatype Entry = Entry(at: int, actor: string, role: Role, id: int, approved: bool, reason: string, card: Request,
                         snapshot: Option<string>)

  datatype Ledger = Ledger(requests: map<int, Request>, decisions: map<int, Decision>, audit: seq<Entry>)

  const EMPTY_LEDGER := Ledger(map[], map[], [])

  function Registered(l: Ledger, requests: seq<Request>): Ledger {
    if requests == [] then l
    else
      var n := |requests| - 1;
      var before := Registered(l, requests[..n]);
      before.(requests := before.requests[requests[n].id := requests[n]])
  }

  /** Preparer is not approver, compared without case or outer blanks. */
  function MakerChecker(q: Request, d: Decision): Option<Error> {
    if q.blocked then Some(BlockedByPolicy)
    else if Normalised(d.decidedBy) == Normalised(q.preparedBy) then Some(PreparerDecides)
    else None
  }

  function Refusal(l: Ledger, d: Decision): Option<Error> {
    if d.id !in l.requests then Some(UnknownRequest)
    else if d.id in l.decisions then Some(AlreadyDecided)
    else if MakerChecker(l.requests[d.id], d).Some? then MakerChecker(l.requests[d.id], d)
    else if d.approved && d.role != l.requests[d.id].required then Some(WrongRole)
    else None
  }

  function EntryFor(q: Request, d: Decision): Entry {
    Entry(d.at, d.decidedBy, d.role, q.id, d.approved, d.reason, q,
          if d.snapshot.Some? && d.snapshot.value != "" then d.snapshot else q.snapshot)
  }

  function Decided(l: Ledger, d: Decision): Ledger {
    if Refusal(l, d).Some? then l
    else l.(decisions := l.decisions[d.id := d], audit := l.audit + [EntryFor(l.requests[d.id], d)])
  }

  function StateOf(l: Ledger, id: int): State {
    if id !in l.requests then DRAFT
    else if l.requests[id].blocked then BLOCKED
    else if id !in l.decisions then PENDING
    else if l.decisions[id].approved then APPROVED
    else REFUSED
  }

  datatype LedgerStep = Register(requests: seq<Request>) | Decide(decision: Decision)

  function LedgerAfter(l: Ledger, step: LedgerStep): Ledger {
    match step
    case Register(requests) => Registered(l, requests)
    case Decide(d) => Decided(l, d)
  }

  function LedgerRun(l: Ledger, steps: seq<LedgerStep>): Ledger {
    if steps == [] then l else LedgerAfter(LedgerRun(l, steps[..|steps| - 1]), steps[|steps| - 1])
  }

  /** Request ids are drawn fresh: never registered before, and not twice in one batch. */
  ghost predicate Fresh(l: Ledger, step: LedgerStep) {
    step.Register? ==>
      && (forall i :: 0 <= i < |step.requests| ==> step.requests[i].id !in l.requests)
      && (forall i, j :: 0 <= i < j < |step.requests| ==> step.requests[i].id != step.requests[j].id)
  }

  ghost predicate FreshRun(l: Ledger, steps: seq<LedgerStep>) {
    steps != [] ==>
      FreshRun(l, steps[..|steps| - 1]) && Fresh(LedgerRun(l, steps[..|steps| - 1]), steps[|steps| - 1])
  }

  /** The audit trail lists every decision once, as it was taken on the card as it was shown. */
  ghost predicate LedgerInv(l: Ledger) {
    && (forall id :: id in l.requests ==> l.requests[id].id == id)
    && (forall id :: id in l.decisions ==> id in l.requests && Lawful(l.requests[id], l.decisions[id]))
    && (forall i :: 0 <= i < |l.audit| ==>
      var id := l.audit[i].id;
      id in l.decisions && id in l.requests && Records(l.audit[i], l.requests[id], l.decisions[id]))
    && (forall i, j :: 0 <= i < j < |l.audit| ==> l.audit[i].id != l.audit[j].id)
    && (forall id :: id in l.decisions ==> exists i :: 0 <= i < |l.audit| && l.audit[i].id == id)
  }

  /** An entry tells when, by whom, in which role and why a request was decided, and how; what the card
      said; and against which data: the decider's, or else the card's. */
  ghost predicate Records(e: Entry, q: Request, d: Decision) {
    && e.at == d.at && e.actor == d.decidedBy && e.role == d.role && e.reason == d.reason
    && e.approved == d.approved && e.id == q.id && e.card == q
    && (d.snapshot.None? || d.snapshot == Some("") ==> e.snapshot == q.snapshot)
    && (d.snapshot.Some? && d.snapshot != Some("") ==> e.snapshot == d.snapshot)
  }

  /** A decision that stands: not on a blocked card, not by its preparer, and approving only in the
      role the matrix names. */
  ghost predicate Lawful(q: Request, d: Decision) {
    && d.id == q.id && !q.blocked
    && Lower(Strip(d.decidedBy)) != Lower(Strip(q.preparedBy))
    && (d.approved ==> d.role == q.required)
  }

  lemma {:induction false} RegisteredIs(l: Ledger, requests: seq<Request>)
    ensures var r := Registered(l, requests);
      && r.decisions == l.decisions && r.audit == l.audit
      && (forall id :: id in r.requests <==> id in l.requests || exists i :: 0 <= i < |requests| && requests[i].id == id)
      && (forall id :: id in r.requests ==>
        (exists i :: 0 <= i < |requests| && requests[i].id == id && r.requests[id] == requests[i])
        || (id in l.requests && r.requests[id] == l.requests[id] && forall i :: 0 <= i < |requests| ==> requests[i].id != id))
  {
    if requests != [] {
      var n := |requests| - 1;
      RegisteredIs(l, requests[..n]);
      var before, r := Registered(l, requests[..n]), Registered(l, requests);
      forall id | id in r.requests
        ensures (exists i :: 0 <= i < |requests| && requests[i].id == id && r.requests[id] == requests[i])
          || (id in l.requests && r.requests[id] == l.requests[id] && forall i :: 0 <= i < |requests| ==> requests[i].id != id)
      {
        if id != requests[n].id {
          assert id in before.requests;
          if i :| 0 <= i < n && requests[..n][i].id == id && before.requests[id] == requests[..n][i] {
            assert requests[i].id == id;
          }
        }
      }
      forall id
        ensures id in r.requests <==> id in l.requests || exists i :: 0 <= i < |requests| && requests[i].id == id
      {
        if i :| 0 <= i < |requests| && requests[i].id == id {
          assert i < n ==> requests[..n][i].id == id;
        }
        if i :| 0 <= i < n && requests[..n][i].id == id {
          assert requests[i].id == id;
        }
      }
    }
  }

  /** Registering fresh cards changes nothing about the cards already there. */
  lemma FreshKeepsCards(l: Ledger, requests: seq<Request>)
    requires Fresh(l, Register(requests))
    ensures var r := Registered(l, requests);
      && r.decisions == l.decisions && r.audit == l.audit
      && (forall id :: id in l.requests ==> id in r.requests && r.requests[id] == l.requests[id])
      && (forall id :: id in r.requests && id !in l.requests ==> r.requests[id].id == id && r.requests[id] in requests)
      && (forall i :: 0 <= i < |requests| ==> requests[i].id in r.requests && r.requests[requests[i].id] == requests[i])
  {
    hide Registered;
    RegisteredIs(l, requests);
    var r := Registered(l, requests);
    forall i | 0 <= i < |requests|
      ensures requests[i].id in r.requests && r.requests[requests[i].id] == requests[i]
    {
      assert requests[i].id in r.requests;
    }
  }

  lemma StepKeepsLedger(l: Ledger, step: LedgerStep)
    requires LedgerInv(l) && Fresh(l, step)
    ensures LedgerInv(LedgerAfter(l, step))
  {
    hide Registered, Lower, Strip;
    match step {
      case Register(requests) =>
        FreshKeepsCards(l, requests);
      case Decide(d) =>
        DecideKeepsLedger(l, d);
    }
  }

  lemma AcceptedIsLawful(l: Ledger, d: Decision)
    requires LedgerInv(l) && Refusal(l, d).None?
    ensures d.id in l.requests && d.id !in l.decisions && Lawful(l.requests[d.id], d)
    ensures EntryFor(l.requests[d.id], d).id == d.id && Records(EntryFor(l.requests[d.id], d), l.requests[d.id], d)
  {
    hide Lower, Strip;
  }

  lemma DecideKeepsLedger(l: Ledger, d: Decision)
    requires LedgerInv(l)
    ensures LedgerInv(Decided(l, d))
  {
    hide EntryFor, Refusal, Lawful, LedgerInv, Records;
    if Refusal(l, d).None? {
      AcceptedIsLawful(l, d);
      LawfulKeepsLedger(l, d, EntryFor(l.requests[d.id], d));
    }
  }

  lemma LawfulKeepsLedger(l: Ledger, d: Decision, entry: Entry)
    requires LedgerInv(l) && d.id in l.requests && d.id !in l.decisions && Lawful(l.requests[d.id], d)
    requires Records(entry, l.requests[d.id], d) && entry.id == d.id
    ensures LedgerInv(l.(decisions := l.decisions[d.id := d], audit := l.audit + [entry]))
  {
    hide Records, Lawful;
    var m := l.(decisions := l.decisions[d.id := d], audit := l.audit + [entry]);
    forall id | id in m.decisions
      ensures exists i :: 0 <= i < |m.audit| && m.audit[i].id == id
    {
      if id == d.id {
        assert m.audit[|l.audit|].id == id;
      } else {
        var i :| 0 <= i < |l.audit| && l.audit[i].id == id;
        assert m.audit[i].id == id;
      }
    }
  }

  lemma {:induction false} RunKeepsLedger(steps: seq<LedgerStep>)
    requires FreshRun(EMPTY_LEDGER, steps)
    ensures LedgerInv(LedgerRun(EMPTY_LEDGER, steps))
  {
    hide LedgerAfter, Fresh;
    if steps == [] {
    } else {
      RunKeepsLedger(steps[..|steps| - 1]);
      StepKeepsLedger(LedgerRun(EMPTY_LEDGER, steps[..|steps| - 1]), steps[|steps| - 1]);
    }
  }

  /** One more step: the trail is only appended to, an accepted decision adds exactly its own entry,
      a refused one changes nothing at all, and a state other than draft or pending is final. */
  lemma StepIsFinal(l: Ledger, step: LedgerStep, id: int)
    requires LedgerInv(l) && Fresh(l, step)
    ensures var m := LedgerAfter(l, step);
      && l.audit <= m.audit
      && (step.Decide? && Refusal(l, step.decision).None? ==>
        m.audit == l.audit + [EntryFor(l.requests[step.decision.id], step.decision)])
      && (step.Decide? && Refusal(l, step.decision).Some? ==> m == l)
      && (step.Register? ==> m.audit == l.audit && m.decisions == l.decisions)
      && (StateOf(l, id) != DRAFT && StateOf(l, id) != PENDING ==> StateOf(m, id) == StateOf(l, id))
      && (StateOf(l, id) == PENDING ==> StateOf(m, id) != DRAFT && StateOf(m, id) != BLOCKED)
  {
    hide Registered, Lower, Strip;
    if step.Register? {
      FreshKeepsCards(l, step.requests);
    }
  }

  /** Over every run: later trails extend earlier ones, and what left PENDING, or was BLOCKED from
      the start, stays as it is. */
  lemma {:induction false} DecidedForever(l: Ledger, steps: seq<LedgerStep>, id: int)
    requires LedgerInv(l) && FreshRun(l, steps)
    ensures var m := LedgerRun(l, steps);
      && LedgerInv(m) && l.audit <= m.audit
      && (StateOf(l, id) != DRAFT && StateOf(l, id) != PENDING ==> StateOf(m, id) == StateOf(l, id))
  {
    hide LedgerAfter, LedgerInv, Fresh, StateOf;
    if steps != [] {
      var prefix, last := steps[..|steps| - 1], steps[|steps| - 1];
      DecidedForever(l, prefix, id);
      StepKeepsLedger(LedgerRun(l, prefix), last);
      StepIsFinal(LedgerRun(l, prefix), last, id);
    }
  }

  /** Only a lawful decision makes a request APPROVED. */
  lemma ApprovedIsLawful(l: Ledger, id: int)
    requires LedgerInv(l) && StateOf(l, id) == APPROVED
    ensures id in l.requests && id in l.decisions
    ensures l.decisions[id].approved && Lawful(l.requests[id], l.decisions[id])
  {
    hide Lower, Strip;
  }

  /** Exactly which decisions are taken. */
  lemma DecisionTakenIff(l: Ledger, d: Decision)
    ensures Refusal(l, d).None? <==> d.id in l.requests && d.id !in l.decisions && MayDecide(l.requests[d.id], d)
  {
    hide Lower, Strip;
  }

  /** Someone else than the preparer, on a card that is not blocked, and to approve it in the role that
      signs. The route's reviewer does not come into it. */
  predicate MayDecide(q: Request, d: Decision) {
    !q.blocked && Lower(Strip(d.decidedBy)) != Lower(Strip(q.preparedBy)) && (d.approved ==> d.role == q.required)
  }

  /** Everyone on record for a card: who prepared it and who acted on it. */
  ghost function PeopleOn(l: Ledger, id: int): set<string>
    requires id in l.requests
  {
    {Lower(Strip(l.requests[id].preparedBy))}
      + set i | 0 <= i < |l.audit| && l.audit[i].id == id :: Lower(Strip(l.audit[i].actor))
  }

  /** An approved card has exactly two people on record, in every reachable ledger. So three different
      people are on it where its route asks for a reviewer exactly if the route asks for none. */
  lemma ThreePeopleIff(l: Ledger, id: int)
    requires LedgerInv(l) && StateOf(l, id) == APPROVED
    ensures id in l.requests && |PeopleOn(l, id)| == 2
    ensures (l.requests[id].route.reviewer.Some? ==> |PeopleOn(l, id)| >= 3) <==> l.requests[id].route.reviewer.None?
  {
    hide Lower, Strip;
    ApprovedIsLawful(l, id);
    var q, d := l.requests[id], l.decisions[id];
    var i :| 0 <= i < |l.audit| && l.audit[i].id == id;
    assert PeopleOn(l, id) == {Lower(Strip(q.preparedBy)), Lower(Strip(d.decidedBy))};
  }

  /** Whatever a valid route says about a reviewer, one decision by a second person approves a card. */
  lemma TwoPeopleSuffice(l: Ledger, item: Item, route: Route, desk: Desk, id: int, d: Decision)
    requires LedgerInv(l) && id !in l.requests && route.Valid() && !route.blocked
    requires d.id == id && d.approved && Some(d.role) == route.accountable
    requires Lower(Strip(d.decidedBy)) != Lower(Strip(desk.preparedBy))
    ensures StateOf(Decided(Registered(l, [CardOf(item, route, desk, id)]), d), id) == APPROVED
  {
    hide Lower, Strip;
    var cards := [CardOf(item, route, desk, id)];
    assert cards[..0] == [];
    assert id !in l.decisions;
    DecisionTakenIff(Registered(l, cards), d);
  }

  /** A deferral that asks for a treasurer's review and a CFO's signature: prepared by Ana, approved by
      Bob alone. */
  lemma NoReviewerAsked(item: Item)
    ensures var route := Route("ap_defer", Some(25_000_000), Some(100_000_000), Some(TREASURER), Some(CFO), false);
      var desk := Desk([], [route], "Ana", None, 0);
      var d := Decision(0, "Bob", CFO, true, "", 0, None);
      var l := Decided(Registered(EMPTY_LEDGER, [CardOf(item, route, desk, 0)]), d);
      route.Valid() && StateOf(l, 0) == APPROVED && PeopleOn(l, 0) == {"ana", "bob"}
  {
    hide Registered, Lower, Strip;
    var route := Route("ap_defer", Some(25_000_000), Some(100_000_000), Some(TREASURER), Some(CFO), false);
    var desk := Desk([], [route], "Ana", None, 0);
    var d := Decision(0, "Bob", CFO, true, "", 0, None);
    AnaAndBob();
    TwoPeopleSuffice(EMPTY_LEDGER, item, route, desk, 0, d);
    RegisteredIs(EMPTY_LEDGER, [CardOf(item, route, desk, 0)]);
    var m := Registered(EMPTY_LEDGER, [CardOf(item, route, desk, 0)]);
    DecisionTakenIff(m, d);
    var l := Decided(m, d);
    assert m.requests[0] == CardOf(item, route, desk, 0);
    assert l.audit == [EntryFor(m.requests[0], d)] && l.audit[0].id == 0;
    assert "bob" in PeopleOn(l, 0);
  }

  lemma AnaAndBob()
    ensures Lower(Strip("Ana")) == "ana" && Lower(Strip("Bob")) == "bob"
  {
    assert Strip("Ana") == "Ana" && Strip("Bob") == "Bob";
    assert Lower("Ana") == "ana" && Lower("Bob") == "bob";
  }

  // ----- The gate -----

  /** `Executor.execute`, up to the call of the adapter: why a row may not be executed. */
  function Barred(l: Ledger, row: Item): Option<Error> {
    if row.status == REJECTED then Some(RowRejected)
    else if row.id.None? then
      if KindOf(row.action) in ALWAYS_GATED then Some(AlwaysGated) else None
    else if StateOf(l, row.id.value) != APPROVED then Some(NotApproved)
    else None
  }

  /** Approved by a decision on record. */
  predicate Signed(l: Ledger, id: int) {
    id in l.requests && !l.requests[id].blocked && id in l.decisions && l.decisions[id].approved
  }

  /** Exactly which rows the executor lets through, whatever the ledger and wherever the row comes from:
      one that is not rejected, and either carries a card that is approved, or carries none and does not
      open as a draw, a deferral or an early-pay offer. */
  lemma BarredByText(l: Ledger, row: Item)
    ensures Barred(l, row).None? <==>
      && row.status != REJECTED
      && (row.id.Some? ==> Signed(l, row.id.value))
      && (row.id.None? ==>
        !Opens(row.action, "draw ") && !Opens(row.action, "defer ") && !Opens(row.action, "offer early-pay"))
  {
    hide KindOf, Opens;
    KindByText(row.action);
  }
}
