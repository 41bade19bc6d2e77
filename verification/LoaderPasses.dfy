/** What a pass over the rows of one entity leaves behind, told from the rows: under each key the last
    row of it that can be stored, under no other key anything, and a report for each row that cannot. */
module LoaderPasses {
  import opened Arith
  import opened Loader
  import opened LoaderLaws
  import opened Results
  import opened Text

  /** The first `n` characters, or all there are. */
  predicate IsCut(text: string, n: nat, r: string) {
    r <= text && |r| == Min(|text|, n)
  }

  function KeyShown(externalId: string): string {
    if Strip(externalId) == "" then "<null>" else Strip(externalId)
  }

  // ----- Customers and vendors -----

  predicate IsParty(row: PartyRow, key: string) {
    Strip(row.externalId) == key != ""
  }

  ghost predicate LastParty(rows: seq<PartyRow>, key: string, i: int) {
    0 <= i < |rows| && IsParty(rows[i], key) && forall j :: i < j < |rows| ==> !IsParty(rows[j], key)
  }

  predicate IsCustomerOf(c: Customer, row: PartyRow, key: string) {
    IsCut(if row.name == "" then key else row.name, 256, c.name) && IsCut(key, 64, c.externalId)
  }

  lemma CustomerPass(rows: seq<PartyRow>, key: string)
    ensures var vs := CustomerVerdicts(rows);
      && (key in Written(vs) <==> exists i :: 0 <= i < |rows| && IsParty(rows[i], key))
      && (key in Written(vs) ==> exists i :: LastParty(rows, key, i) && IsCustomerOf(Written(vs)[key], rows[i], key))
      && (forall i :: 0 <= i < |rows| && !IsParty(rows[i], Strip(rows[i].externalId)) ==>
        Reject(CUSTOMER, KeyShown(rows[i].externalId), NoKey) in Reports(vs, CUSTOMER))
  {
    hide Strip, Written, Reports, LastLoaded;
    var vs := CustomerVerdicts(rows);
    forall i | 0 <= i < |rows|
      ensures IsParty(rows[i], key) <==> vs[i].Loaded? && vs[i].key == key
    {
      assert vs[i] == JudgeCustomer(rows[i]);
    }
    WrittenIsLast(vs, key);
    if key in Written(vs) {
      assert LastParty(rows, key, LastLoaded(vs, key));
    }
    forall i | 0 <= i < |rows| && !IsParty(rows[i], Strip(rows[i].externalId))
      ensures Reject(CUSTOMER, KeyShown(rows[i].externalId), NoKey) in Reports(vs, CUSTOMER)
    {
      NoRowVanishes(vs, CUSTOMER, i);
    }
  }

  /** A criticality outside the closed vocabulary is read as standard. */
  predicate IsVendorOf(v: Vendor, row: PartyRow, key: string) {
    var read := Lower(Strip(row.criticality));
    && IsCut(if row.name == "" then key else row.name, 256, v.name)
    && (read == "important" || read == "critical" ==> v.criticality == read)
    && (read != "important" && read != "critical" ==> v.criticality == "standard")
  }

  lemma VendorPass(rows: seq<PartyRow>, key: string)
    ensures var vs := VendorVerdicts(rows);
      && (key in Written(vs) <==> exists i :: 0 <= i < |rows| && IsParty(rows[i], key))
      && (key in Written(vs) ==> exists i :: LastParty(rows, key, i) && IsVendorOf(Written(vs)[key], rows[i], key))
      && (forall i :: 0 <= i < |rows| && !IsParty(rows[i], Strip(rows[i].externalId)) ==>
        Reject(VENDOR, KeyShown(rows[i].externalId), NoKey) in Reports(vs, VENDOR))
  {
    hide Strip, Lower, Written, Reports, LastLoaded;
    var vs := VendorVerdicts(rows);
    forall i | 0 <= i < |rows|
      ensures IsParty(rows[i], key) <==> vs[i].Loaded? && vs[i].key == key
    {
      assert vs[i] == JudgeVendor(rows[i]);
    }
    WrittenIsLast(vs, key);
    if key in Written(vs) {
      assert LastParty(rows, key, LastLoaded(vs, key));
    }
    forall i | 0 <= i < |rows| && !IsParty(rows[i], Strip(rows[i].externalId))
      ensures Reject(VENDOR, KeyShown(rows[i].externalId), NoKey) in Reports(vs, VENDOR)
    {
      NoRowVanishes(vs, VENDOR, i);
    }
  }

  // ----- Accounts -----

  predicate IsAccount(row: AccountRow, key: string) {
    Strip(row.externalId) == key != "" && row.currency.Some?
  }

  ghost predicate LastAccount(rows: seq<AccountRow>, key: string, i: int) {
    0 <= i < |rows| && IsAccount(rows[i], key) && forall j :: i < j < |rows| ==> !IsAccount(rows[j], key)
  }

  predicate IsAccountOf(a: Account, row: AccountRow, key: string) {
    && IsCut(if row.name == "" then key else row.name, 128, a.name) && IsCut(key, 64, a.reference)
    && Some(a.currency) == row.currency
    && (row.balance.Read? ==> a.balance == row.balance.value) && (!row.balance.Read? ==> a.balance == 0)
  }

  /** An account whose balance cannot be read is loaded at zero, and reported all the same. */
  lemma AccountPass(rows: seq<AccountRow>, key: string)
    ensures var vs := AccountVerdicts(rows);
      && (key in Written(vs) <==> exists i :: 0 <= i < |rows| && IsAccount(rows[i], key))
      && (key in Written(vs) ==> exists i :: LastAccount(rows, key, i) && IsAccountOf(Written(vs)[key], rows[i], key))
      && (forall i :: 0 <= i < |rows| && !IsAccount(rows[i], Strip(rows[i].externalId)) ==>
        Reject(BANK_ACCOUNT, KeyShown(rows[i].externalId), if Strip(rows[i].externalId) == "" then NoKey else BadValue)
          in Reports(vs, BANK_ACCOUNT))
      && (forall i :: 0 <= i < |rows| && IsAccount(rows[i], Strip(rows[i].externalId)) && rows[i].balance.Unreadable? ==>
        Reject(BANK_ACCOUNT, Strip(rows[i].externalId), BadBalance) in Reports(vs, BANK_ACCOUNT))
  {
    hide Strip, Written, Reports, LastLoaded;
    var vs := AccountVerdicts(rows);
    forall i | 0 <= i < |rows|
      ensures IsAccount(rows[i], key) <==> vs[i].Loaded? && vs[i].key == key
    {
      assert vs[i] == JudgeAccount(rows[i]);
    }
    WrittenIsLast(vs, key);
    if key in Written(vs) {
      assert LastAccount(rows, key, LastLoaded(vs, key));
    }
    forall i | 0 <= i < |rows| && !IsAccount(rows[i], Strip(rows[i].externalId))
      ensures Reject(BANK_ACCOUNT, KeyShown(rows[i].externalId), if Strip(rows[i].externalId) == "" then NoKey else BadValue)
        in Reports(vs, BANK_ACCOUNT)
    {
      NoRowVanishes(vs, BANK_ACCOUNT, i);
      assert vs[i] == JudgeAccount(rows[i]) && vs[i].Refused?;
    }
    forall i | 0 <= i < |rows| && IsAccount(rows[i], Strip(rows[i].externalId)) && rows[i].balance.Unreadable?
      ensures Reject(BANK_ACCOUNT, Strip(rows[i].externalId), BadBalance) in Reports(vs, BANK_ACCOUNT)
    {
      assert vs[i] == JudgeAccount(rows[i]);
      ComplaintsAreReported(vs, BANK_ACCOUNT, i);
    }
  }

  lemma {:induction false} ComplaintsAreReported<T>(vs: seq<Verdict<T>>, entity: Entity, i: nat)
    requires i < |vs| && vs[i].Loaded? && vs[i].complaint.Some?
    ensures Reject(entity, vs[i].key, vs[i].complaint.value) in Reports(vs, entity)
  {
    var n := |vs| - 1;
    if i < n {
      ComplaintsAreReported(vs[..n], entity, i);
    }
  }

  // ----- Invoices and vendor invoices -----

  /** A row of a document that can be stored. A missing issue date or open amount never stands in the way. */
  predicate IsDocument(row: DocumentRow, parents: set<string>, key: string) {
    && Strip(row.externalId) == key != "" && Strip(row.parentRef) in parents
    && row.currency.Some? && row.amount.Some? && row.due.Some?
    && !row.issued.Unreadable? && (row.issued.Read? ==> row.issued.value <= row.due.value)
    && !row.openAmount.Unreadable? && (row.openAmount.Read? ==> Abs(row.openAmount.value) <= Abs(row.amount.value))
  }

  /** The reason given is true of the row. */
  predicate IsReasonFor(reason: Reason, row: DocumentRow, parents: set<string>) {
    match reason
    case NoKey => Strip(row.externalId) == ""
    case NoParent => Strip(row.parentRef) !in parents
    case BadValue => row.currency.None? || row.amount.None? || row.due.None?
    case BadIssueDate => row.issued.Unreadable?
    case IssuedAfterDue => row.issued.Read? && row.due.Some? && row.issued.value > row.due.value
    case BadOpenAmount => row.openAmount.Unreadable?
    case OpenExceedsGross => row.openAmount.Read? && row.amount.Some? && Abs(row.openAmount.value) > Abs(row.amount.value)
    case ZeroMovement => false
    case BadBalance => false
  }

  predicate TellsOfDocument(r: Reject, entity: Entity, row: DocumentRow, parents: set<string>) {
    r.entity == entity && r.key == KeyShown(row.externalId) && IsReasonFor(r.reason, row, parents)
  }

  ghost predicate LastDocument(rows: seq<DocumentRow>, parents: set<string>, key: string, i: int) {
    && 0 <= i < |rows| && IsDocument(rows[i], parents, key)
    && forall j :: i < j < |rows| ==> !IsDocument(rows[j], parents, key)
  }

  /** A status of the vocabulary is kept as it reads, without blanks and in lower case; a customer's
      dispute is not a status of the invoice, and anything else is open. */
  predicate IsStatusOf(status: string, raw: string, entity: Entity) {
    var read := Lower(Strip(raw));
    if read in ["part_paid", "paid", "written_off", "void"] || (read == "disputed" && entity != INVOICE) then status == read
    else status == "open"
  }

  predicate IsDocumentOf(d: Document, row: DocumentRow, entity: Entity, key: string) {
    && d.parent == Strip(row.parentRef) && IsCut(key, 64, d.reference)
    && Some(d.due) == row.due && Some(d.currency) == row.currency
    && (row.issued.Read? ==> d.issued == row.issued.value) && (!row.issued.Read? ==> d.issued == d.due - 30)
    && IsStatusOf(d.status, row.status, entity)
    && row.amount.Some? && d.amount == Abs(row.amount.value)
    && (row.openAmount.Read? ==> d.open == Abs(row.openAmount.value))
    && (!row.openAmount.Read? ==> d.open == if d.status == "open" || d.status == "part_paid" then d.amount else 0)
  }

  /** Which rows of a document pass are loaded, and as what. */
  lemma DocumentLoadedIff(row: DocumentRow, entity: Entity, parents: set<string>)
    ensures var v := JudgeDocument(row, entity, parents);
      && (v.Loaded? <==> IsDocument(row, parents, Strip(row.externalId)))
      && (v.Loaded? ==> v.key == Strip(row.externalId) && v.complaint.None? && IsDocumentOf(v.value, row, entity, v.key))
      && (v.Refused? ==> v.key == KeyShown(row.externalId) && IsReasonFor(v.reason, row, parents))
  {
    hide Strip, Lower;
  }

  lemma DocumentPass(rows: seq<DocumentRow>, entity: Entity, parents: set<string>, key: string)
    ensures var vs := DocumentVerdicts(rows, entity, parents);
      && (key in Written(vs) <==> exists i :: 0 <= i < |rows| && IsDocument(rows[i], parents, key))
      && (key in Written(vs) ==>
        exists i :: LastDocument(rows, parents, key, i) && IsDocumentOf(Written(vs)[key], rows[i], entity, key))
      && (forall i :: 0 <= i < |rows| && !IsDocument(rows[i], parents, Strip(rows[i].externalId)) ==>
        exists r :: r in Reports(vs, entity) && TellsOfDocument(r, entity, rows[i], parents))
  {
    hide Strip, Written, Reports, LastLoaded, JudgeDocument, IsDocumentOf, IsReasonFor;
    var vs := DocumentVerdicts(rows, entity, parents);
    forall i | 0 <= i < |rows|
      ensures IsDocument(rows[i], parents, key) <==> vs[i].Loaded? && vs[i].key == key
      ensures vs[i].Loaded? ==> IsDocumentOf(vs[i].value, rows[i], entity, vs[i].key)
    {
      DocumentLoadedIff(rows[i], entity, parents);
    }
    WrittenIsLast(vs, key);
    if key in Written(vs) {
      assert LastDocument(rows, parents, key, LastLoaded(vs, key));
    }
    forall i | 0 <= i < |rows| && !IsDocument(rows[i], parents, Strip(rows[i].externalId))
      ensures exists r :: r in Reports(vs, entity) && TellsOfDocument(r, entity, rows[i], parents)
    {
      NoRowVanishes(vs, entity, i);
      DocumentLoadedIff(rows[i], entity, parents);
      assert Reject(entity, vs[i].key, vs[i].reason) in Reports(vs, entity);
    }
  }

  /** An invoice of 500.00 that is paid, with no open amount given, is stored as paid with nothing open. */
  lemma PaidInvoice(d: Document, row: DocumentRow)
    requires row.status == "paid" && row.amount == Some(50_000) && row.openAmount.Missing?
    requires IsDocumentOf(d, row, INVOICE, Strip(row.externalId))
    ensures d.status == "paid" && d.open == 0 && d.amount == 50_000
  {
    hide IsCut;
    assert Strip("paid") == "paid" && Lower("paid") == "paid";
  }

  // ----- Movements -----

  /** A row of a movement that can be stored. */
  predicate IsEntry(row: EntryRow, accounts: set<string>, key: string) {
    && Strip(row.externalId) == key != "" && Strip(row.accountRef) in accounts
    && row.currency.Some? && row.booked.Some? && row.amount.Some? && row.amount.value != 0
  }

  predicate IsEntryReason(reason: Reason, row: EntryRow, accounts: set<string>) {
    match reason
    case NoKey => Strip(row.externalId) == ""
    case NoParent => Strip(row.accountRef) !in accounts
    case BadValue => row.currency.None? || row.amount.None? || row.booked.None?
    case ZeroMovement => row.amount == Some(0)
    case _ => false
  }

  predicate TellsOfEntry(r: Reject, row: EntryRow, accounts: set<string>) {
    r.entity == BANK_TRANSACTION && r.key == KeyShown(row.externalId) && IsEntryReason(r.reason, row, accounts)
  }

  ghost predicate LastEntry(rows: seq<EntryRow>, accounts: set<string>, key: string, i: int) {
    && 0 <= i < |rows| && IsEntry(rows[i], accounts, key)
    && forall j :: i < j < |rows| ==> !IsEntry(rows[j], accounts, key)
  }

  predicate IsEntryOf(entry: Entry, row: EntryRow) {
    && entry.account == Strip(row.accountRef)
    && Some(entry.booked) == row.booked && Some(entry.amount) == row.amount && Some(entry.currency) == row.currency
  }

  lemma EntryPass(rows: seq<EntryRow>, accounts: set<string>, key: string)
    ensures var vs := EntryVerdicts(rows, accounts);
      && (key in Written(vs) <==> exists i :: 0 <= i < |rows| && IsEntry(rows[i], accounts, key))
      && (key in Written(vs) ==> exists i :: LastEntry(rows, accounts, key, i) && IsEntryOf(Written(vs)[key], rows[i]))
      && (forall i :: 0 <= i < |rows| && !IsEntry(rows[i], accounts, Strip(rows[i].externalId)) ==>
        exists r :: r in Reports(vs, BANK_TRANSACTION) && TellsOfEntry(r, rows[i], accounts))
  {
    hide Strip, Written, Reports, LastLoaded;
    var vs := EntryVerdicts(rows, accounts);
    forall i | 0 <= i < |rows|
      ensures IsEntry(rows[i], accounts, key) <==> vs[i].Loaded? && vs[i].key == key
    {
      assert vs[i] == JudgeEntry(rows[i], accounts);
    }
    WrittenIsLast(vs, key);
    if key in Written(vs) {
      assert LastEntry(rows, accounts, key, LastLoaded(vs, key));
    }
    forall i | 0 <= i < |rows| && !IsEntry(rows[i], accounts, Strip(rows[i].externalId))
      ensures exists r :: r in Reports(vs, BANK_TRANSACTION) && TellsOfEntry(r, rows[i], accounts)
    {
      NoRowVanishes(vs, BANK_TRANSACTION, i);
      assert vs[i] == JudgeEntry(rows[i], accounts) && vs[i].Refused?;
      assert Reject(BANK_TRANSACTION, vs[i].key, vs[i].reason) in Reports(vs, BANK_TRANSACTION);
    }
  }

  // ----- Parents before children -----

  /** The parents a document or a movement may have: those known before the run, and those that a row
      of their own table brings in the same run, wherever that row stands. */
  lemma ParentsKnown(s: Source, known: Known, key: string)
    ensures key in KnownAfter(s, known).customers <==>
      key in known.customers || exists i :: 0 <= i < |Rows(s.customers)| && IsParty(Rows(s.customers)[i], key)
    ensures key in KnownAfter(s, known).vendors <==>
      key in known.vendors || exists i :: 0 <= i < |Rows(s.vendors)| && IsParty(Rows(s.vendors)[i], key)
    ensures key in KnownAfter(s, known).accounts <==>
      key in known.accounts || exists i :: 0 <= i < |Rows(s.accounts)| && IsAccount(Rows(s.accounts)[i], key)
  {
    hide Written, Rows, CustomerVerdicts, VendorVerdicts, AccountVerdicts, IsParty, IsAccount;
    CustomerPass(Rows(s.customers), key);
    VendorPass(Rows(s.vendors), key);
    AccountPass(Rows(s.accounts), key);
  }

  /** What a run leaves under the key of an invoice: the last row for it that can be stored, if there is
      one, judged by the parents of the whole run; what was there before, if there is none. */
  lemma RunStoresInvoices(b: Books, s: Source, known: Known, key: string)
    ensures var rows, parents := Rows(s.invoices), KnownAfter(s, known).customers;
      var after := AfterRun(b, s, known).invoices;
      if exists i :: 0 <= i < |rows| && IsDocument(rows[i], parents, key)
      then
        && key in after
        && exists i :: LastDocument(rows, parents, key, i) && IsDocumentOf(after[key], rows[i], INVOICE, key)
      else (key in after <==> key in b.invoices) && (key in after ==> after[key] == b.invoices[key])
  {
    hide Written, Rows, DocumentVerdicts, IsDocument, IsDocumentOf, KnownAfter;
    DocumentPass(Rows(s.invoices), INVOICE, KnownAfter(s, known).customers, key);
  }

  lemma RunStoresBills(b: Books, s: Source, known: Known, key: string)
    ensures var rows, parents := Rows(s.vendorInvoices), KnownAfter(s, known).vendors;
      var after := AfterRun(b, s, known).vendorInvoices;
      if exists i :: 0 <= i < |rows| && IsDocument(rows[i], parents, key)
      then
        && key in after
        && exists i :: LastDocument(rows, parents, key, i) && IsDocumentOf(after[key], rows[i], VENDOR_INVOICE, key)
      else (key in after <==> key in b.vendorInvoices) && (key in after ==> after[key] == b.vendorInvoices[key])
  {
    hide Written, Rows, DocumentVerdicts, IsDocument, IsDocumentOf, KnownAfter;
    DocumentPass(Rows(s.vendorInvoices), VENDOR_INVOICE, KnownAfter(s, known).vendors, key);
  }
}
