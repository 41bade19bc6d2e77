/** The load of a tenant's rows: parents first, every row loaded or reported, nothing twice. */
module Loader {
  import opened Arith
  import opened Results
  import opened Text

  /** `_read` asks for no more. */
  const MAX_ROWS_PER_ENTITY := 50_000
  const ASSUMED_TERMS_DAYS := 30

  datatype Entity = CUSTOMER | VENDOR | BANK_ACCOUNT | INVOICE | VENDOR_INVOICE | BANK_TRANSACTION

  // ----- Source rows: text as it was read, amounts and dates as `to_minor` and `to_date` leave them -----

  datatype Reading = Missing | Unreadable | Read(value: int)

  datatype PartyRow = PartyRow(externalId: string, name: string, criticality: string)

  datatype AccountRow = AccountRow(externalId: string, name: string, currency: Option<string>, balance: Reading)

  datatype DocumentRow = DocumentRow(externalId: string, parentRef: string, currency: Option<string>,
                                     amount: Option<int>, due: Option<int>, issued: Reading, status: string,
                                     openAmount: Reading)

  datatype EntryRow = EntryRow(externalId: string, accountRef: string, currency: Option<string>,
                               amount: Option<int>, booked: Option<int>)

  /** A mapping need not plan every entity. */
  datatype Source = Source(customers: Option<seq<PartyRow>>, vendors: Option<seq<PartyRow>>,
                           accounts: Option<seq<AccountRow>>, invoices: Option<seq<DocumentRow>>,
                           vendorInvoices: Option<seq<DocumentRow>>, entries: Option<seq<EntryRow>>)

  function ReadRows<T>(rows: seq<T>): seq<T> {
    if |rows| <= MAX_ROWS_PER_ENTITY then rows else rows[..MAX_ROWS_PER_ENTITY]
  }

  // ----- Stored rows; the id of a row stands for the source key it is derived from -----

  datatype Customer = Customer(name: string, externalId: string)

  datatype Vendor = Vendor(name: string, criticality: string)

  datatype Account = Account(name: string, reference: string, currency: string, balance: int)

  datatype Document = Document(parent: string, reference: string, issued: int, due: int, amount: nat, open: nat,
                               currency: string, status: string)

  datatype Entry = Entry(account: string, booked: int, amount: int, currency: string)

  datatype Reason =
    | NoKey | NoParent | BadValue | BadIssueDate | IssuedAfterDue | BadOpenAmount | OpenExceedsGross | ZeroMovement
    | BadBalance

  datatype Reject = Reject(entity: Entity, key: string, reason: Reason)

  /** What becomes of one row. A loaded row may still leave a complaint behind. */
  datatype Verdict<+T> = Loaded(key: string, value: T, complaint: Option<Reason>) | Refused(key: string, reason: Reason)

  function Cut(s: string, n: nat): string {
    if |s| <= n then s else s[..n]
  }

  function NameOr(name: string, key: string): string {
    if name != "" then name else key
  }

  // ----- Judging rows -----

  function JudgeCustomer(row: PartyRow): Verdict<Customer> {
    var key := Strip(row.externalId);
    if key == "" then Refused("<null>", NoKey)
    else Loaded(key, Customer(Cut(NameOr(row.name, key), 256), Cut(key, 64)), None)
  }

  function JudgeVendor(row: PartyRow): Verdict<Vendor> {
    var key := Strip(row.externalId);
    if key == "" then Refused("<null>", NoKey)
    else
      var raw := Normalised(row.criticality);
      var criticality := if raw in {"standard", "important", "critical"} then raw else "standard";
      Loaded(key, Vendor(Cut(NameOr(row.name, key), 256), criticality), None)
  }

  /** An unreadable balance is reported, and the account is loaded with a balance of zero. */
  function JudgeAccount(row: AccountRow): Verdict<Account> {
    var key := Strip(row.externalId);
    if key == "" then Refused("<null>", NoKey)
    else if row.currency.None? then Refused(key, BadValue)
    else
      Loaded(key,
             Account(Cut(NameOr(row.name, key), 128), Cut(key, 64), row.currency.value,
                     if row.balance.Read? then row.balance.value else 0),
             if row.balance.Unreadable? then Some(BadBalance) else None)
  }

  const OPEN_STATUSES := {"open", "part_paid"}
  const CLOSED_STATUSES := {"paid", "written_off", "void", "disputed"}

  function StatusOf(raw: string, entity: Entity): string {
    var status := Normalised(raw);
    if status !in OPEN_STATUSES + CLOSED_STATUSES then "open"
    else if entity == INVOICE && status == "disputed" then "open"
    else status
  }

  function JudgeDocument(row: DocumentRow, entity: Entity, parents: set<string>): Verdict<Document> {
    var key := Strip(row.externalId);
    if key == "" then Refused("<null>", NoKey)
    else
      var parent := Strip(row.parentRef);
      if parent !in parents then Refused(key, NoParent)
      else if row.currency.None? || row.amount.None? || row.due.None? then Refused(key, BadValue)
      else if row.issued.Unreadable? then Refused(key, BadIssueDate)
      else
        var issued := if row.issued.Read? then row.issued.value else row.due.value - ASSUMED_TERMS_DAYS;
        if issued > row.due.value then Refused(key, IssuedAfterDue)
        else
          var status := StatusOf(row.status, entity);
          if row.openAmount.Unreadable? then Refused(key, BadOpenAmount)
          else
            var open := if row.openAmount.Read? then row.openAmount.value
                        else if status in OPEN_STATUSES then row.amount.value else 0;
            if Abs(row.amount.value) < Abs(open) then Refused(key, OpenExceedsGross)
            else Loaded(key, Document(parent, Cut(key, 64), issued, row.due.value, Abs(row.amount.value), Abs(open),
                                      row.currency.value, status), None)
  }

  function JudgeEntry(row: EntryRow, accounts: set<string>): Verdict<Entry> {
    var key := Strip(row.externalId);
    if key == "" then Refused("<null>", NoKey)
    else
      var account := Strip(row.accountRef);
      if account !in accounts then Refused(key, NoParent)
      else if row.currency.None? || row.amount.None? || row.booked.None? then Refused(key, BadValue)
      else if row.amount.value == 0 then Refused(key, ZeroMovement)
      else Loaded(key, Entry(account, row.booked.value, row.amount.value, row.currency.value), None)
  }

  // ----- One pass over the rows of an entity -----

  function CustomerVerdicts(rows: seq<PartyRow>): (vs: seq<Verdict<Customer>>)
    ensures |vs| == |rows| && forall i :: 0 <= i < |rows| ==> vs[i] == JudgeCustomer(rows[i])
  {
    seq(|rows|, i requires 0 <= i < |rows| => JudgeCustomer(rows[i]))
  }

  function VendorVerdicts(rows: seq<PartyRow>): (vs: seq<Verdict<Vendor>>)
    ensures |vs| == |rows| && forall i :: 0 <= i < |rows| ==> vs[i] == JudgeVendor(rows[i])
  {
    seq(|rows|, i requires 0 <= i < |rows| => JudgeVendor(rows[i]))
  }

  function AccountVerdicts(rows: seq<AccountRow>): (vs: seq<Verdict<Account>>)
    ensures |vs| == |rows| && forall i :: 0 <= i < |rows| ==> vs[i] == JudgeAccount(rows[i])
  {
    seq(|rows|, i requires 0 <= i < |rows| => JudgeAccount(rows[i]))
  }

  function DocumentVerdicts(rows: seq<DocumentRow>, entity: Entity, parents: set<string>): (vs: seq<Verdict<Document>>)
    ensures |vs| == |rows| && forall i :: 0 <= i < |rows| ==> vs[i] == JudgeDocument(rows[i], entity, parents)
  {
    seq(|rows|, i requires 0 <= i < |rows| => JudgeDocument(rows[i], entity, parents))
  }

  function EntryVerdicts(rows: seq<EntryRow>, accounts: set<string>): (vs: seq<Verdict<Entry>>)
    ensures |vs| == |rows| && forall i :: 0 <= i < |rows| ==> vs[i] == JudgeEntry(rows[i], accounts)
  {
    seq(|rows|, i requires 0 <= i < |rows| => JudgeEntry(rows[i], accounts))
  }

  /** What the verdicts write: per key, the last row loaded. */
  function Written<T>(vs: seq<Verdict<T>>): map<string, T> {
    if vs == [] then map[]
    else
      var v := vs[|vs| - 1];
      Written(vs[..|vs| - 1]) + if v.Loaded? then map[v.key := v.value] else map[]
  }

  function LoadedCount<T>(vs: seq<Verdict<T>>): nat {
    if vs == [] then 0 else LoadedCount(vs[..|vs| - 1]) + if vs[|vs| - 1].Loaded? then 1 else 0
  }

  /** What the verdicts report. */
  function Reports<T>(vs: seq<Verdict<T>>, entity: Entity): seq<Reject> {
    if vs == [] then []
    else Reports(vs[..|vs| - 1], entity) + ReportOf(vs[|vs| - 1], entity)
  }

  function ReportOf<T>(v: Verdict<T>, entity: Entity): seq<Reject> {
    match v
    case Refused(key, reason) => [Reject(entity, key, reason)]
    case Loaded(key, _, complaint) => if complaint.Some? then [Reject(entity, key, complaint.value)] else []
  }

  function OpenReported(vs: seq<Verdict<Document>>): nat {
    if vs == [] then 0 else OpenReported(vs[..|vs| - 1]) + if vs[|vs| - 1].Loaded? then vs[|vs| - 1].value.open else 0
  }

  function MovedReported(vs: seq<Verdict<Entry>>): int {
    if vs == [] then 0
    else MovedReported(vs[..|vs| - 1]) + if vs[|vs| - 1].Loaded? then vs[|vs| - 1].value.amount else 0
  }

  // ----- One row more -----

  lemma PassRefuses<T>(vs: seq<Verdict<T>>, i: nat, entity: Entity)
    requires i < |vs| && vs[i].Refused?
    ensures Written(vs[..i + 1]) == Written(vs[..i])
    ensures Reports(vs[..i + 1], entity) == Reports(vs[..i], entity) + [Reject(entity, vs[i].key, vs[i].reason)]
    ensures LoadedCount(vs[..i + 1]) == LoadedCount(vs[..i])
  {
    assert vs[..i + 1][..i] == vs[..i];
  }

  lemma PassLoads<T>(vs: seq<Verdict<T>>, i: nat, entity: Entity, before: map<string, T>, keys: set<string>)
    requires i < |vs| && vs[i].Loaded?
    ensures before + Written(vs[..i + 1]) == (before + Written(vs[..i]))[vs[i].key := vs[i].value]
    ensures keys + Written(vs[..i + 1]).Keys == keys + Written(vs[..i]).Keys + {vs[i].key}
    ensures Reports(vs[..i + 1], entity) == Reports(vs[..i], entity)
      + if vs[i].complaint.Some? then [Reject(entity, vs[i].key, vs[i].complaint.value)] else []
    ensures LoadedCount(vs[..i + 1]) == LoadedCount(vs[..i]) + 1
  {
    assert vs[..i + 1][..i] == vs[..i];
  }

  // ----- A whole run, as a function of the source and of the keys known beforehand -----

  datatype Known = Known(customers: set<string>, vendors: set<string>, accounts: set<string>)

  function Rows<T>(planned: Option<seq<T>>): seq<T> {
    if planned.Some? then ReadRows(planned.value) else []
  }

  function Customers(s: Source): seq<Verdict<Customer>> { CustomerVerdicts(Rows(s.customers)) }

  function Vendors(s: Source): seq<Verdict<Vendor>> { VendorVerdicts(Rows(s.vendors)) }

  function Accounts(s: Source): seq<Verdict<Account>> { AccountVerdicts(Rows(s.accounts)) }

  /** The keys known once the three parent passes are over. */
  function KnownAfter(s: Source, known: Known): Known {
    Known(known.customers + Written(Customers(s)).Keys, known.vendors + Written(Vendors(s)).Keys,
          known.accounts + Written(Accounts(s)).Keys)
  }

  function Invoices(s: Source, known: Known): seq<Verdict<Document>> {
    DocumentVerdicts(Rows(s.invoices), INVOICE, KnownAfter(s, known).customers)
  }

  function VendorInvoices(s: Source, known: Known): seq<Verdict<Document>> {
    DocumentVerdicts(Rows(s.vendorInvoices), VENDOR_INVOICE, KnownAfter(s, known).vendors)
  }

  function Entries(s: Source, known: Known): seq<Verdict<Entry>> {
    EntryVerdicts(Rows(s.entries), KnownAfter(s, known).accounts)
  }

  /** The tenant's rows in the target. */
  datatype Books = Books(customers: map<string, Customer>, vendors: map<string, Vendor>, accounts: map<string, Account>,
                         invoices: map<string, Document>, vendorInvoices: map<string, Document>,
                         entries: map<string, Entry>)

  function AfterRun(b: Books, s: Source, known: Known): Books {
    Books(b.customers + Written(Customers(s)), b.vendors + Written(Vendors(s)), b.accounts + Written(Accounts(s)),
          b.invoices + Written(Invoices(s, known)), b.vendorInvoices + Written(VendorInvoices(s, known)),
          b.entries + Written(Entries(s, known)))
  }

  /** The bookkeeping of a report. */
  datatype Tally = Tally(rejects: seq<Reject>, counts: map<Entity, nat>, sourceRows: nat, mappedRows: nat)

  /** The tally after one more pass; an entity without a plan is skipped. */
  function Passed<T>(t: Tally, planned: bool, entity: Entity, vs: seq<Verdict<T>>): Tally {
    if !planned then t
    else
      Tally(t.rejects + Reports(vs, entity), t.counts[entity := LoadedCount(vs)], t.sourceRows + |vs|,
            t.mappedRows + LoadedCount(vs))
  }

  function ParentsTally(t: Tally, s: Source): Tally {
    var customers := Passed(t, s.customers.Some?, CUSTOMER, Customers(s));
    var vendors := Passed(customers, s.vendors.Some?, VENDOR, Vendors(s));
    Passed(vendors, s.accounts.Some?, BANK_ACCOUNT, Accounts(s))
  }

  function ChildrenTally(t: Tally, s: Source, known: Known): Tally {
    var invoices := Passed(t, s.invoices.Some?, INVOICE, Invoices(s, known));
    var vendorInvoices := Passed(invoices, s.vendorInvoices.Some?, VENDOR_INVOICE, VendorInvoices(s, known));
    Passed(vendorInvoices, s.entries.Some?, BANK_TRANSACTION, Entries(s, known))
  }

  function TallyOf(s: Source, known: Known): Tally {
    ChildrenTally(ParentsTally(Tally([], map[], 0, 0), s), s, known)
  }

  lemma NoVerdicts<T>(entity: Entity)
    ensures var none: seq<Verdict<T>> := [];
      Written(none) == map[] && Reports(none, entity) == [] && LoadedCount(none) == 0
  {
  }

  // ----- The objects -----

  class Target {
    var customers: map<string, Customer>
    var vendors: map<string, Vendor>
    var accounts: map<string, Account>
    var invoices: map<string, Document>
    var vendorInvoices: map<string, Document>
    var entries: map<string, Entry>

    ghost function View(): Books
      reads this
    {
      Books(customers, vendors, accounts, invoices, vendorInvoices, entries)
    }
  }

  class LoadReport {
    var rejects: seq<Reject>
    var counts: map<Entity, nat>
    var sourceRows: nat
    var mappedRows: nat
    var openInvoices: int
    var openVendorInvoices: int
    var moved: int

    constructor ()
      ensures View() == Tally([], map[], 0, 0)
      ensures openInvoices == openVendorInvoices == moved == 0
    {
      rejects, counts, sourceRows, mappedRows := [], map[], 0, 0;
      openInvoices, openVendorInvoices, moved := 0, 0, 0;
    }

    ghost function View(): Tally
      reads this
    {
      Tally(rejects, counts, sourceRows, mappedRows)
    }

    method Refuse(entity: Entity, key: string, reason: Reason)
      modifies this`rejects
      ensures rejects == old(rejects) + [Reject(entity, key, reason)]
    {
      rejects := rejects + [Reject(entity, key, reason)];
    }

    /** The bookkeeping after each pass. */
    method Finish(entity: Entity, rows: nat, loaded: nat)
      modifies this`counts, this`sourceRows, this`mappedRows
      ensures counts == old(counts)[entity := loaded]
      ensures sourceRows == old(sourceRows) + rows && mappedRows == old(mappedRows) + loaded
    {
      sourceRows := sourceRows + rows;
      counts := counts[entity := loaded];
      mappedRows := mappedRows + loaded;
    }
  }

  class Loader {
    const target: Target
    var customerKeys: set<string>
    var vendorKeys: set<string>
    var accountKeys: set<string>

    constructor (target: Target)
      ensures this.target == target && Keys() == Known({}, {}, {})
    {
      this.target := target;
      customerKeys, vendorKeys, accountKeys := {}, {}, {};
    }

    ghost function Keys(): Known
      reads this
    {
      Known(customerKeys, vendorKeys, accountKeys)
    }

    method LoadCustomers(rows: seq<PartyRow>, report: LoadReport) returns (loaded: nat)
      modifies this`customerKeys, target`customers, report`rejects
      ensures var vs := CustomerVerdicts(rows);
        && target.customers == old(target.customers) + Written(vs)
        && customerKeys == old(customerKeys) + Written(vs).Keys
        && report.rejects == old(report.rejects) + Reports(vs, CUSTOMER)
        && loaded == LoadedCount(vs)
    {
      hide JudgeCustomer, CustomerVerdicts, Written, Reports, LoadedCount;
      ghost var vs := CustomerVerdicts(rows);
      NoVerdicts<Customer>(CUSTOMER);
      assert vs[..0] == [];
      loaded := 0;
      for i := 0 to |rows|
        invariant target.customers == old(target.customers) + Written(vs[..i])
        invariant customerKeys == old(customerKeys) + Written(vs[..i]).Keys
        invariant report.rejects == old(report.rejects) + Reports(vs[..i], CUSTOMER)
        invariant loaded == LoadedCount(vs[..i])
      {
        match JudgeCustomer(rows[i])
        case Refused(key, reason) =>
          PassRefuses(vs, i, CUSTOMER);
          report.Refuse(CUSTOMER, key, reason);
        case Loaded(key, customer, complaint) =>
          PassLoads(vs, i, CUSTOMER, old(target.customers), old(customerKeys));
          if complaint.Some? {
            report.Refuse(CUSTOMER, key, complaint.value);
          }
          customerKeys := customerKeys + {key};
          target.customers := target.customers[key := customer];
          loaded := loaded + 1;
      }
      assert vs[..|rows|] == vs;
    }

    method LoadVendors(rows: seq<PartyRow>, report: LoadReport) returns (loaded: nat)
      modifies this`vendorKeys, target`vendors, report`rejects
      ensures var vs := VendorVerdicts(rows);
        && target.vendors == old(target.vendors) + Written(vs)
        && vendorKeys == old(vendorKeys) + Written(vs).Keys
        && report.rejects == old(report.rejects) + Reports(vs, VENDOR)
        && loaded == LoadedCount(vs)
    {
      hide JudgeVendor, VendorVerdicts, Written, Reports, LoadedCount;
      ghost var vs := VendorVerdicts(rows);
      NoVerdicts<Vendor>(VENDOR);
      assert vs[..0] == [];
      loaded := 0;
      for i := 0 to |rows|
        invariant target.vendors == old(target.vendors) + Written(vs[..i])
        invariant vendorKeys == old(vendorKeys) + Written(vs[..i]).Keys
        invariant report.rejects == old(report.rejects) + Reports(vs[..i], VENDOR)
        invariant loaded == LoadedCount(vs[..i])
      {
        match JudgeVendor(rows[i])
        case Refused(key, reason) =>
          PassRefuses(vs, i, VENDOR);
          report.Refuse(VENDOR, key, reason);
        case Loaded(key, vendor, complaint) =>
          PassLoads(vs, i, VENDOR, old(target.vendors), old(vendorKeys));
          if complaint.Some? {
            report.Refuse(VENDOR, key, complaint.value);
          }
          vendorKeys := vendorKeys + {key};
          target.vendors := target.vendors[key := vendor];
          loaded := loaded + 1;
      }
      assert vs[..|rows|] == vs;
    }

    method LoadAccounts(rows: seq<AccountRow>, report: LoadReport) returns (loaded: nat)
      modifies this`accountKeys, target`accounts, report`rejects
      ensures var vs := AccountVerdicts(rows);
        && target.accounts == old(target.accounts) + Written(vs)
        && accountKeys == old(accountKeys) + Written(vs).Keys
        && report.rejects == old(report.rejects) + Reports(vs, BANK_ACCOUNT)
        && loaded == LoadedCount(vs)
    {
      hide JudgeAccount, AccountVerdicts, Written, Reports, LoadedCount;
      ghost var vs := AccountVerdicts(rows);
      NoVerdicts<Account>(BANK_ACCOUNT);
      assert vs[..0] == [];
      loaded := 0;
      for i := 0 to |rows|
        invariant target.accounts == old(target.accounts) + Written(vs[..i])
        invariant accountKeys == old(accountKeys) + Written(vs[..i]).Keys
        invariant report.rejects == old(report.rejects) + Reports(vs[..i], BANK_ACCOUNT)
        invariant loaded == LoadedCount(vs[..i])
      {
        match JudgeAccount(rows[i])
        case Refused(key, reason) =>
          PassRefuses(vs, i, BANK_ACCOUNT);
          report.Refuse(BANK_ACCOUNT, key, reason);
        case Loaded(key, account, complaint) =>
          PassLoads(vs, i, BANK_ACCOUNT, old(target.accounts), old(accountKeys));
          if complaint.Some? {
            report.Refuse(BANK_ACCOUNT, key, complaint.value);
          }
          accountKeys := accountKeys + {key};
          target.accounts := target.accounts[key := account];
          loaded := loaded + 1;
      }
      assert vs[..|rows|] == vs;
    }

    /** `_load_document`, for invoices. */
    method LoadInvoices(rows: seq<DocumentRow>, report: LoadReport) returns (loaded: nat)
      modifies target`invoices, report`rejects, report`openInvoices
      ensures var vs := DocumentVerdicts(rows, INVOICE, customerKeys);
        && target.invoices == old(target.invoices) + Written(vs)
        && report.rejects == old(report.rejects) + Reports(vs, INVOICE)
        && report.openInvoices == old(report.openInvoices) + OpenReported(vs)
        && loaded == LoadedCount(vs)
    {
      hide JudgeDocument, DocumentVerdicts, Written, Reports, LoadedCount;
      ghost var vs := DocumentVerdicts(rows, INVOICE, customerKeys);
      NoVerdicts<Document>(INVOICE);
      assert vs[..0] == [];
      loaded := 0;
      for i := 0 to |rows|
        invariant target.invoices == old(target.invoices) + Written(vs[..i])
        invariant report.rejects == old(report.rejects) + Reports(vs[..i], INVOICE)
        invariant report.openInvoices == old(report.openInvoices) + OpenReported(vs[..i])
        invariant loaded == LoadedCount(vs[..i])
      {
        assert vs[..i + 1][..i] == vs[..i];
        match JudgeDocument(rows[i], INVOICE, customerKeys)
        case Refused(key, reason) =>
          PassRefuses(vs, i, INVOICE);
          report.Refuse(INVOICE, key, reason);
        case Loaded(key, document, complaint) =>
          PassLoads(vs, i, INVOICE, old(target.invoices), {});
          if complaint.Some? {
            report.Refuse(INVOICE, key, complaint.value);
          }
          target.invoices := target.invoices[key := document];
          report.openInvoices := report.openInvoices + document.open;
          loaded := loaded + 1;
      }
      assert vs[..|rows|] == vs;
    }

    /** `_load_document`, for vendor invoices. */
    method LoadVendorInvoices(rows: seq<DocumentRow>, report: LoadReport) returns (loaded: nat)
      modifies target`vendorInvoices, report`rejects, report`openVendorInvoices
      ensures var vs := DocumentVerdicts(rows, VENDOR_INVOICE, vendorKeys);
        && target.vendorInvoices == old(target.vendorInvoices) + Written(vs)
        && report.rejects == old(report.rejects) + Reports(vs, VENDOR_INVOICE)
        && report.openVendorInvoices == old(report.openVendorInvoices) + OpenReported(vs)
        && loaded == LoadedCount(vs)
    {
      hide JudgeDocument, DocumentVerdicts, Written, Reports, LoadedCount;
      ghost var vs := DocumentVerdicts(rows, VENDOR_INVOICE, vendorKeys);
      NoVerdicts<Document>(VENDOR_INVOICE);
      assert vs[..0] == [];
      loaded := 0;
      for i := 0 to |rows|
        invariant target.vendorInvoices == old(target.vendorInvoices) + Written(vs[..i])
        invariant report.rejects == old(report.rejects) + Reports(vs[..i], VENDOR_INVOICE)
        invariant report.openVendorInvoices == old(report.openVendorInvoices) + OpenReported(vs[..i])
        invariant loaded == LoadedCount(vs[..i])
      {
        assert vs[..i + 1][..i] == vs[..i];
        match JudgeDocument(rows[i], VENDOR_INVOICE, vendorKeys)
        case Refused(key, reason) =>
          PassRefuses(vs, i, VENDOR_INVOICE);
          report.Refuse(VENDOR_INVOICE, key, reason);
        case Loaded(key, document, complaint) =>
          PassLoads(vs, i, VENDOR_INVOICE, old(target.vendorInvoices), {});
          if complaint.Some? {
            report.Refuse(VENDOR_INVOICE, key, complaint.value);
          }
          target.vendorInvoices := target.vendorInvoices[key := document];
          report.openVendorInvoices := report.openVendorInvoices + document.open;
          loaded := loaded + 1;
      }
      assert vs[..|rows|] == vs;
    }

    method LoadEntries(rows: seq<EntryRow>, report: LoadReport) returns (loaded: nat)
      modifies target`entries, report`rejects, report`moved
      ensures var vs := EntryVerdicts(rows, accountKeys);
        && target.entries == old(target.entries) + Written(vs)
        && report.rejects == old(report.rejects) + Reports(vs, BANK_TRANSACTION)
        && report.moved == old(report.moved) + MovedReported(vs)
        && loaded == LoadedCount(vs)
    {
      hide JudgeEntry, EntryVerdicts, Written, Reports, LoadedCount;
      ghost var vs := EntryVerdicts(rows, accountKeys);
      NoVerdicts<Entry>(BANK_TRANSACTION);
      assert vs[..0] == [];
      loaded := 0;
      for i := 0 to |rows|
        invariant target.entries == old(target.entries) + Written(vs[..i])
        invariant report.rejects == old(report.rejects) + Reports(vs[..i], BANK_TRANSACTION)
        invariant report.moved == old(report.moved) + MovedReported(vs[..i])
        invariant loaded == LoadedCount(vs[..i])
      {
        assert vs[..i + 1][..i] == vs[..i];
        match JudgeEntry(rows[i], accountKeys)
        case Refused(key, reason) =>
          PassRefuses(vs, i, BANK_TRANSACTION);
          report.Refuse(BANK_TRANSACTION, key, reason);
        case Loaded(key, entry, complaint) =>
          PassLoads(vs, i, BANK_TRANSACTION, old(target.entries), {});
          if complaint.Some? {
            report.Refuse(BANK_TRANSACTION, key, complaint.value);
          }
          target.entries := target.entries[key := entry];
          report.moved := report.moved + entry.amount;
          loaded := loaded + 1;
      }
      assert vs[..|rows|] == vs;
    }

    // One entity of `run`: read, load, count; nothing without a plan.

    method PassCustomers(planned: Option<seq<PartyRow>>, report: LoadReport)
      modifies this`customerKeys, target`customers
      modifies report`rejects, report`counts, report`sourceRows, report`mappedRows
      ensures var vs := CustomerVerdicts(Rows(planned));
        && target.customers == old(target.customers) + Written(vs)
        && customerKeys == old(customerKeys) + Written(vs).Keys
        && report.View() == Passed(old(report.View()), planned.Some?, CUSTOMER, vs)
    {
      hide ReadRows, Written, Reports, LoadedCount, CustomerVerdicts;
      if planned.None? {
        NoVerdicts<Customer>(CUSTOMER);
        return;
      }
      var rows := ReadRows(planned.value);
      var loaded := LoadCustomers(rows, report);
      report.Finish(CUSTOMER, |rows|, loaded);
    }

    method PassVendors(planned: Option<seq<PartyRow>>, report: LoadReport)
      modifies this`vendorKeys, target`vendors
      modifies report`rejects, report`counts, report`sourceRows, report`mappedRows
      ensures var vs := VendorVerdicts(Rows(planned));
        && target.vendors == old(target.vendors) + Written(vs)
        && vendorKeys == old(vendorKeys) + Written(vs).Keys
        && report.View() == Passed(old(report.View()), planned.Some?, VENDOR, vs)
    {
      hide ReadRows, Written, Reports, LoadedCount, VendorVerdicts;
      if planned.None? {
        NoVerdicts<Vendor>(VENDOR);
        return;
      }
      var rows := ReadRows(planned.value);
      var loaded := LoadVendors(rows, report);
      report.Finish(VENDOR, |rows|, loaded);
    }

    method PassAccounts(planned: Option<seq<AccountRow>>, report: LoadReport)
      modifies this`accountKeys, target`accounts
      modifies report`rejects, report`counts, report`sourceRows, report`mappedRows
      ensures var vs := AccountVerdicts(Rows(planned));
        && target.accounts == old(target.accounts) + Written(vs)
        && accountKeys == old(accountKeys) + Written(vs).Keys
        && report.View() == Passed(old(report.View()), planned.Some?, BANK_ACCOUNT, vs)
    {
      hide ReadRows, Written, Reports, LoadedCount, AccountVerdicts;
      if planned.None? {
        NoVerdicts<Account>(BANK_ACCOUNT);
        return;
      }
      var rows := ReadRows(planned.value);
      var loaded := LoadAccounts(rows, report);
      report.Finish(BANK_ACCOUNT, |rows|, loaded);
    }

    method PassInvoices(planned: Option<seq<DocumentRow>>, report: LoadReport)
      modifies target`invoices, report`openInvoices
      modifies report`rejects, report`counts, report`sourceRows, report`mappedRows
      ensures var vs := DocumentVerdicts(Rows(planned), INVOICE, customerKeys);
        && target.invoices == old(target.invoices) + Written(vs)
        && report.openInvoices == old(report.openInvoices) + OpenReported(vs)
        && report.View() == Passed(old(report.View()), planned.Some?, INVOICE, vs)
    {
      hide ReadRows, Written, Reports, LoadedCount, DocumentVerdicts;
      if planned.None? {
        NoVerdicts<Document>(INVOICE);
        return;
      }
      var rows := ReadRows(planned.value);
      var loaded := LoadInvoices(rows, report);
      report.Finish(INVOICE, |rows|, loaded);
    }

    method PassVendorInvoices(planned: Option<seq<DocumentRow>>, report: LoadReport)
      modifies target`vendorInvoices, report`openVendorInvoices
      modifies report`rejects, report`counts, report`sourceRows, report`mappedRows
      ensures var vs := DocumentVerdicts(Rows(planned), VENDOR_INVOICE, vendorKeys);
        && target.vendorInvoices == old(target.vendorInvoices) + Written(vs)
        && report.openVendorInvoices == old(report.openVendorInvoices) + OpenReported(vs)
        && report.View() == Passed(old(report.View()), planned.Some?, VENDOR_INVOICE, vs)
    {
      hide ReadRows, Written, Reports, LoadedCount, DocumentVerdicts;
      if planned.None? {
        NoVerdicts<Document>(VENDOR_INVOICE);
        return;
      }
      var rows := ReadRows(planned.value);
      var loaded := LoadVendorInvoices(rows, report);
      report.Finish(VENDOR_INVOICE, |rows|, loaded);
    }

    method PassEntries(planned: Option<seq<EntryRow>>, report: LoadReport)
      modifies target`entries, report`moved
      modifies report`rejects, report`counts, report`sourceRows, report`mappedRows
      ensures var vs := EntryVerdicts(Rows(planned), accountKeys);
        && target.entries == old(target.entries) + Written(vs)
        && report.moved == old(report.moved) + MovedReported(vs)
        && report.View() == Passed(old(report.View()), planned.Some?, BANK_TRANSACTION, vs)
    {
      hide ReadRows, Written, Reports, LoadedCount, EntryVerdicts;
      if planned.None? {
        NoVerdicts<Entry>(BANK_TRANSACTION);
        return;
      }
      var rows := ReadRows(planned.value);
      var loaded := LoadEntries(rows, report);
      report.Finish(BANK_TRANSACTION, |rows|, loaded);
    }

    /** `run`: the planned entities, parents before children. */
    method Run(source: Source) returns (report: LoadReport)
      modifies this, target
      ensures fresh(report)
      ensures target.View() == AfterRun(old(target.View()), source, old(Keys()))
      ensures Keys() == KnownAfter(source, old(Keys()))
      ensures report.View() == TallyOf(source, old(Keys()))
      ensures report.openInvoices == OpenReported(Invoices(source, old(Keys())))
      ensures report.openVendorInvoices == OpenReported(VendorInvoices(source, old(Keys())))
      ensures report.moved == MovedReported(Entries(source, old(Keys())))
    {
      hide Customers, Vendors, Accounts, Invoices, VendorInvoices, Entries, KnownAfter;
      hide Written, OpenReported, MovedReported, ParentsTally, ChildrenTally;
      ghost var known := Keys();
      report := new LoadReport();
      RunParents(source, report);
      RunChildren(source, report, known);
    }

    method RunParents(source: Source, report: LoadReport)
      modifies this, target`customers, target`vendors, target`accounts
      modifies report`rejects, report`counts, report`sourceRows, report`mappedRows
      ensures target.customers == old(target.customers) + Written(Customers(source))
      ensures target.vendors == old(target.vendors) + Written(Vendors(source))
      ensures target.accounts == old(target.accounts) + Written(Accounts(source))
      ensures Keys() == KnownAfter(source, old(Keys()))
      ensures report.View() == ParentsTally(old(report.View()), source)
    {
      hide Rows, Written, Passed, CustomerVerdicts, VendorVerdicts, AccountVerdicts;
      PassCustomers(source.customers, report);
      PassVendors(source.vendors, report);
      PassAccounts(source.accounts, report);
    }

    method RunChildren(source: Source, report: LoadReport, ghost known: Known)
      requires Keys() == KnownAfter(source, known)
      modifies target`invoices, target`vendorInvoices, target`entries, report
      ensures target.invoices == old(target.invoices) + Written(Invoices(source, known))
      ensures target.vendorInvoices == old(target.vendorInvoices) + Written(VendorInvoices(source, known))
      ensures target.entries == old(target.entries) + Written(Entries(source, known))
      ensures report.View() == ChildrenTally(old(report.View()), source, known)
      ensures report.openInvoices == old(report.openInvoices) + OpenReported(Invoices(source, known))
      ensures report.openVendorInvoices == old(report.openVendorInvoices) + OpenReported(VendorInvoices(source, known))
      ensures report.moved == old(report.moved) + MovedReported(Entries(source, known))
    {
      hide Rows, Written, Passed, DocumentVerdicts, EntryVerdicts, OpenReported, MovedReported;
      PassInvoices(source.invoices, report);
      PassVendorInvoices(source.vendorInvoices, report);
      PassEntries(source.entries, report);
    }
  }
}
