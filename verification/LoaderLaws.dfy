/** What a load promises: no row lost, no orphan, no doubling, and totals that mean what is stored. */
module LoaderLaws {
  import opened Arith
  import opened Loader
  import opened MapSums
  import opened Reconcile
  import opened Results
  import opened Text

  // ----- Every row is loaded or reported -----

  function Complaints<T>(vs: seq<Verdict<T>>): nat {
    if vs == [] then 0
    else Complaints(vs[..|vs| - 1]) + if vs[|vs| - 1].Loaded? && vs[|vs| - 1].complaint.Some? then 1 else 0
  }

  /** Loaded plus reported is the number of rows, except that a loaded row with a complaint counts twice. */
  lemma {:induction false} RowsPartition<T>(vs: seq<Verdict<T>>, entity: Entity)
    ensures LoadedCount(vs) + |Reports(vs, entity)| == |vs| + Complaints(vs)
  {
    if vs != [] {
      RowsPartition(vs[..|vs| - 1], entity);
    }
  }

  /** No row vanishes: what is not stored under its key is reported under it. */
  lemma {:induction false} NoRowVanishes<T>(vs: seq<Verdict<T>>, entity: Entity, i: nat)
    requires i < |vs|
    ensures vs[i].Loaded? ==> vs[i].key in Written(vs)
    ensures vs[i].Refused? ==> Reject(entity, vs[i].key, vs[i].reason) in Reports(vs, entity)
  {
    var n := |vs| - 1;
    if i < n {
      NoRowVanishes(vs[..n], entity, i);
      assert vs[..n][i] == vs[i];
    }
  }

  lemma {:induction false} OnlyAccountsComplain<T>(vs: seq<Verdict<T>>)
    requires forall i :: 0 <= i < |vs| && vs[i].Loaded? ==> vs[i].complaint.None?
    ensures Complaints(vs) == 0
  {
    if vs != [] {
      OnlyAccountsComplain(vs[..|vs| - 1]);
    }
  }

  function UnreadableBalances(rows: seq<AccountRow>): nat {
    if rows == [] then 0
    else
      var row := rows[|rows| - 1];
      UnreadableBalances(rows[..|rows| - 1])
        + if Strip(row.externalId) != "" && row.currency.Some? && row.balance.Unreadable? then 1 else 0
  }

  lemma {:induction false} AccountComplaints(rows: seq<AccountRow>)
    ensures Complaints(AccountVerdicts(rows)) == UnreadableBalances(rows)
  {
    hide Strip;
    if rows != [] {
      var n := |rows| - 1;
      AccountComplaints(rows[..n]);
      assert AccountVerdicts(rows)[..n] == AccountVerdicts(rows[..n]);
    }
  }

  /** How many rows more than there were have been accounted for. */
  function Surplus(t: Tally): int {
    t.mappedRows + |t.rejects| - t.sourceRows
  }

  lemma PassSurplus<T>(t: Tally, planned: bool, entity: Entity, vs: seq<Verdict<T>>)
    requires planned || vs == []
    ensures Surplus(Passed(t, planned, entity, vs)) == Surplus(t) + Complaints(vs)
  {
    RowsPartition(vs, entity);
  }

  lemma ParentsSurplus(t: Tally, s: Source)
    ensures Surplus(ParentsTally(t, s))
         == Surplus(t) + Complaints(Customers(s)) + Complaints(Vendors(s)) + Complaints(Accounts(s))
  {
    hide Passed, Surplus, Complaints, CustomerVerdicts, VendorVerdicts, AccountVerdicts, ReadRows;
    var customers := Passed(t, s.customers.Some?, CUSTOMER, Customers(s));
    var vendors := Passed(customers, s.vendors.Some?, VENDOR, Vendors(s));
    PassSurplus(t, s.customers.Some?, CUSTOMER, Customers(s));
    PassSurplus(customers, s.vendors.Some?, VENDOR, Vendors(s));
    PassSurplus(vendors, s.accounts.Some?, BANK_ACCOUNT, Accounts(s));
  }

  lemma ChildrenSurplus(t: Tally, s: Source, known: Known)
    ensures Surplus(ChildrenTally(t, s, known))
         == Surplus(t) + Complaints(Invoices(s, known)) + Complaints(VendorInvoices(s, known))
          + Complaints(Entries(s, known))
  {
    hide Passed, Surplus, Complaints, DocumentVerdicts, EntryVerdicts, ReadRows, KnownAfter;
    var invoices := Passed(t, s.invoices.Some?, INVOICE, Invoices(s, known));
    var vendorInvoices := Passed(invoices, s.vendorInvoices.Some?, VENDOR_INVOICE, VendorInvoices(s, known));
    PassSurplus(t, s.invoices.Some?, INVOICE, Invoices(s, known));
    PassSurplus(invoices, s.vendorInvoices.Some?, VENDOR_INVOICE, VendorInvoices(s, known));
    PassSurplus(vendorInvoices, s.entries.Some?, BANK_TRANSACTION, Entries(s, known));
  }

  /** Over a whole run, mapped rows plus rejects are the rows read plus the accounts that were loaded
      at zero because their balance could not be read. */
  lemma ReadRowsAreAccounted(s: Source, known: Known)
    ensures var t := TallyOf(s, known);
      t.mappedRows + |t.rejects| == t.sourceRows + UnreadableBalances(Rows(s.accounts))
  {
    hide Customers, Vendors, Invoices, VendorInvoices, Entries, AccountVerdicts;
    hide Complaints, UnreadableBalances, ParentsTally, ChildrenTally, Rows;
    var empty := Tally([], map[], 0, 0);
    NoComplaints(s, known);
    AccountComplaints(Rows(s.accounts));
    ParentsSurplus(empty, s);
    ChildrenSurplus(ParentsTally(empty, s), s, known);
  }

  /** The rows an entity's table holds, read or not. */
  function Planned<T>(planned: Option<seq<T>>): seq<T> {
    if planned.Some? then planned.value else []
  }

  function PlannedRows(s: Source): nat {
    |Planned(s.customers)| + |Planned(s.vendors)| + |Planned(s.accounts)| + |Planned(s.invoices)|
      + |Planned(s.vendorInvoices)| + |Planned(s.entries)|
  }

  predicate Fits<T>(planned: Option<seq<T>>) {
    |Planned(planned)| <= 50_000
  }

  predicate EveryTableFits(s: Source) {
    Fits(s.customers) && Fits(s.vendors) && Fits(s.accounts) && Fits(s.invoices) && Fits(s.vendorInvoices) && Fits(s.entries)
  }

  lemma ReadIsPrefix<T>(planned: Option<seq<T>>)
    ensures Rows(planned) <= Planned(planned)
    ensures |Rows(planned)| == |Planned(planned)| <==> Fits(planned)
    ensures Fits(planned) ==> Rows(planned) == Planned(planned)
  {
  }

  lemma TallyCountsReadRows(s: Source, known: Known)
    ensures TallyOf(s, known).sourceRows == |Rows(s.customers)| + |Rows(s.vendors)| + |Rows(s.accounts)|
      + |Rows(s.invoices)| + |Rows(s.vendorInvoices)| + |Rows(s.entries)|
  {
    hide Reports, LoadedCount, KnownAfter;
  }

  lemma {:induction false} FewerReadFewerUnreadable(rows: seq<AccountRow>, k: nat)
    requires k <= |rows|
    ensures UnreadableBalances(rows[..k]) <= UnreadableBalances(rows)
    decreases |rows|
  {
    hide Strip;
    if k < |rows| {
      FewerReadFewerUnreadable(rows[..|rows| - 1], k);
      assert rows[..|rows| - 1][..k] == rows[..k];
    } else {
      assert rows[..k] == rows;
    }
  }

  /** Every row of every table is counted, and every one of them is loaded or reported, exactly when no
      table is longer than what is read of it. A longer one loses its rest without a report. */
  lemma RunLosesNoRowIff(s: Source, known: Known)
    ensures TallyOf(s, known).sourceRows == PlannedRows(s) <==> EveryTableFits(s)
    ensures var t := TallyOf(s, known);
      t.mappedRows + |t.rejects| == PlannedRows(s) + UnreadableBalances(Planned(s.accounts)) <==> EveryTableFits(s)
  {
    hide TallyOf, UnreadableBalances, Rows, Planned, Fits;
    ReadRowsAreAccounted(s, known);
    TallyCountsReadRows(s, known);
    ReadIsPrefix(s.customers);
    ReadIsPrefix(s.vendors);
    ReadIsPrefix(s.accounts);
    ReadIsPrefix(s.invoices);
    ReadIsPrefix(s.vendorInvoices);
    ReadIsPrefix(s.entries);
    var read := Rows(s.accounts);
    assert Planned(s.accounts)[..|read|] == read;
    FewerReadFewerUnreadable(Planned(s.accounts), |read|);
  }

  /** A table of one row too many: customer "b" comes last. */
  function OneTooMany(): (s: Source)
    ensures s.customers.Some? && |s.customers.value| == MAX_ROWS_PER_ENTITY + 1
    ensures s.customers.value[MAX_ROWS_PER_ENTITY].externalId == "b"
  {
    var rows := seq(MAX_ROWS_PER_ENTITY + 1, i => PartyRow(if i < MAX_ROWS_PER_ENTITY then "a" else "b", "", ""));
    Source(Some(rows), None, None, None, None, None)
  }

  /** Customer "b" is neither stored nor reported, and the totals do not show that the table had it. */
  lemma LastCustomerVanishes()
    ensures var s, known := OneTooMany(), Known({}, {}, {});
      var t := TallyOf(s, known);
      && "b" !in AfterRun(Books(map[], map[], map[], map[], map[], map[]), s, known).customers
      && (forall r :: r in t.rejects ==> r.key != "b")
      && t.sourceRows == t.mappedRows == MAX_ROWS_PER_ENTITY < PlannedRows(s)
  {
    hide Strip, Written, Reports, LoadedCount, UnreadableBalances;
    var s, known := OneTooMany(), Known({}, {}, {});
    var vs := Customers(s);
    assert Strip("a") == "a" by {
      StripsToItself();
    }
    forall i | 0 <= i < |vs|
      ensures vs[i].Loaded? && vs[i].key == "a" && vs[i].complaint.None?
    {
    }
    if "b" in Written(vs) {
      WrittenFrom(vs, "b");
    }
    OnlyAccountsComplain(vs);
    RowsPartition(vs, CUSTOMER);
    AllLoaded(vs);
  }

  lemma StripsToItself()
    ensures Strip("a") == "a"
  {
  }

  lemma {:induction false} AllLoaded<T>(vs: seq<Verdict<T>>)
    requires forall i :: 0 <= i < |vs| ==> vs[i].Loaded?
    ensures LoadedCount(vs) == |vs|
  {
    if vs != [] {
      AllLoaded(vs[..|vs| - 1]);
    }
  }

  lemma NoComplaints(s: Source, known: Known)
    ensures Complaints(Customers(s)) == Complaints(Vendors(s)) == 0
    ensures Complaints(Invoices(s, known)) == Complaints(VendorInvoices(s, known)) == Complaints(Entries(s, known)) == 0
  {
    hide Rows, Strip, Written, Complaints, StatusOf;
    OnlyAccountsComplain(Customers(s));
    OnlyAccountsComplain(Vendors(s));
    OnlyAccountsComplain(Invoices(s, known));
    OnlyAccountsComplain(VendorInvoices(s, known));
    OnlyAccountsComplain(Entries(s, known));
  }

  // ----- Nothing stored without its parent -----

  ghost predicate Linked(b: Books) {
    && (forall k :: k in b.invoices ==> b.invoices[k].parent in b.customers)
    && (forall k :: k in b.vendorInvoices ==> b.vendorInvoices[k].parent in b.vendors)
    && (forall k :: k in b.entries ==> b.entries[k].account in b.accounts)
  }

  ghost predicate KeysStored(known: Known, b: Books) {
    known.customers <= b.customers.Keys && known.vendors <= b.vendors.Keys && known.accounts <= b.accounts.Keys
  }

  lemma {:induction false} WrittenFrom<T>(vs: seq<Verdict<T>>, k: string)
    requires k in Written(vs)
    ensures exists i :: 0 <= i < |vs| && vs[i].Loaded? && vs[i].key == k && vs[i].value == Written(vs)[k]
  {
    var n := |vs| - 1;
    if !(vs[n].Loaded? && vs[n].key == k) {
      WrittenFrom(vs[..n], k);
      var i :| 0 <= i < n && vs[i].Loaded? && vs[i].key == k && vs[i].value == Written(vs[..n])[k];
    }
  }

  /** The last loaded row of a key, or -1. */
  function LastLoaded<T>(vs: seq<Verdict<T>>, key: string): (r: int)
    ensures -1 <= r < |vs|
    ensures r >= 0 ==> vs[r].Loaded? && vs[r].key == key
    ensures forall i :: r < i < |vs| ==> !(vs[i].Loaded? && vs[i].key == key)
  {
    if vs == [] then -1
    else
      var n := |vs| - 1;
      if vs[n].Loaded? && vs[n].key == key then n else LastLoaded(vs[..n], key)
  }

  /** What a pass leaves under a key is its last loaded row. */
  lemma {:induction false} WrittenIsLast<T>(vs: seq<Verdict<T>>, key: string)
    ensures key in Written(vs) <==> LastLoaded(vs, key) >= 0
    ensures key in Written(vs) ==> Written(vs)[key] == vs[LastLoaded(vs, key)].value
  {
    if vs != [] {
      WrittenIsLast(vs[..|vs| - 1], key);
    }
  }

  lemma DocumentsHaveParents(rows: seq<DocumentRow>, entity: Entity, parents: set<string>, k: string)
    requires k in Written(DocumentVerdicts(rows, entity, parents))
    ensures Written(DocumentVerdicts(rows, entity, parents))[k].parent in parents
    ensures var d := Written(DocumentVerdicts(rows, entity, parents))[k];
      d.issued <= d.due && d.open <= d.amount
  {
    hide Written, Strip, StatusOf, Cut;
    WrittenFrom(DocumentVerdicts(rows, entity, parents), k);
  }

  lemma EntriesHaveAccounts(rows: seq<EntryRow>, accounts: set<string>, k: string)
    requires k in Written(EntryVerdicts(rows, accounts))
    ensures Written(EntryVerdicts(rows, accounts))[k].account in accounts
    ensures Written(EntryVerdicts(rows, accounts))[k].amount != 0
  {
    hide Written, Strip;
    WrittenFrom(EntryVerdicts(rows, accounts), k);
  }

  /** A run never leaves a document or a movement without its loaded parent. */
  lemma RunKeepsLinks(b: Books, s: Source, known: Known)
    requires Linked(b) && KeysStored(known, b)
    ensures Linked(AfterRun(b, s, known)) && KeysStored(KnownAfter(s, known), AfterRun(b, s, known))
  {
    hide Written, CustomerVerdicts, VendorVerdicts, AccountVerdicts, DocumentVerdicts, EntryVerdicts, Rows;
    forall k | k in Written(Invoices(s, known))
      ensures Written(Invoices(s, known))[k].parent in KnownAfter(s, known).customers
    {
      DocumentsHaveParents(Rows(s.invoices), INVOICE, KnownAfter(s, known).customers, k);
    }
    forall k | k in Written(VendorInvoices(s, known))
      ensures Written(VendorInvoices(s, known))[k].parent in KnownAfter(s, known).vendors
    {
      DocumentsHaveParents(Rows(s.vendorInvoices), VENDOR_INVOICE, KnownAfter(s, known).vendors, k);
    }
    forall k | k in Written(Entries(s, known))
      ensures Written(Entries(s, known))[k].account in KnownAfter(s, known).accounts
    {
      EntriesHaveAccounts(Rows(s.entries), KnownAfter(s, known).accounts, k);
    }
  }

  // ----- A second run changes nothing -----

  /** Loading the same source again, with a new loader or with the same one, leaves the books as they
      are and reports the same. */
  lemma SecondRunChangesNothing(b: Books, s: Source, known: Known)
    ensures AfterRun(AfterRun(b, s, known), s, known) == AfterRun(b, s, known)
    ensures AfterRun(AfterRun(b, s, known), s, KnownAfter(s, known)) == AfterRun(b, s, known)
    ensures TallyOf(s, KnownAfter(s, known)) == TallyOf(s, known)
  {
    hide Written, CustomerVerdicts, VendorVerdicts, AccountVerdicts, DocumentVerdicts, EntryVerdicts, Rows;
    hide ParentsTally, Passed;
    assert KnownAfter(s, KnownAfter(s, known)) == KnownAfter(s, known);
    var after := AfterRun(b, s, known);
    Overwrite(b.customers, Written(Customers(s)));
    Overwrite(b.vendors, Written(Vendors(s)));
    Overwrite(b.accounts, Written(Accounts(s)));
    Overwrite(b.invoices, Written(Invoices(s, known)));
    Overwrite(b.vendorInvoices, Written(VendorInvoices(s, known)));
    Overwrite(b.entries, Written(Entries(s, known)));
  }

  lemma Overwrite<T>(m: map<string, T>, w: map<string, T>)
    ensures m + w + w == m + w
  {
  }
}
