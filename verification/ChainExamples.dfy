/** Two runs that show where the theorems stop: the drift bound of contact
    pruning is needed, and so is the allocation that decodes an invoice. */
module ChainExamples {
  import opened CacheSnapshot
  import opened ItemSync
  import opened Prune
  import opened MissedIds
  import opened ChainCursor
  import opened ChainSpec
  import opened ChainHistory
  import opened ChainFlags
  import opened ChainSafety

  const ROW := Store(Snapshot(1, map[7 := Mark(5, 1)]), map[7 := 5])
  const NO_ROWS := Store(EMPTY, map[])

  function Answered(pages: seq<Page>, replies: seq<Reply>): Event {
    Iteration(Env(Answers(pages, replies, true, SaveDone), Done, 1))
  }

  lemma RunsBegin()
    ensures IsRun(ContactsBegun(), []) && IsRun(InvoicesBegun(), [])
  {
    assert ROW == Hydrated(ROW, {7}) && NO_ROWS == Hydrated(NO_ROWS, {});
  }

  // ---- one lost page, and a drift of 1, lose a contact that was just listed

  const CONTACTS_LOG := [Booted(START)]
  const ACTIVE_LOG := CONTACTS_LOG + [
    CallStarted(START), Requested(ContactActive, 0), Listed(Contacts, 7), Synced(ContactActive, 0),
    Wrote(Cursor(ContactActive, 500)), Requested(ContactActive, 500), Ended(ContactActive, 500),
    Entered(ContactArchived), Wrote(Cursor(ContactArchived, 0))]
  const ARCHIVED_LOST_LOG := ACTIVE_LOG + [
    CallStarted(Cursor(ContactArchived, 0)), Requested(ContactArchived, 0), Bumped(Contacts)]

  const PASS_LOG := ARCHIVED_LOST_LOG + [
    CallStarted(Cursor(ContactArchived, 0)), Requested(ContactArchived, 0), Ended(ContactArchived, 0), Entered(Project),
    Wrote(Cursor(Project, 0))]

  const ACTIVE_CALL := Answered([Page([Item(7, 5, Stored(false))], SaveDone), Page([], SaveDone)], [])
  const ARCHIVED_LOST_CALL := Answered([PageLost], [])
  const ARCHIVED_CALL := Answered([Page([], SaveDone)], [])

  function ContactsBegun(): State {
    State(START, START, false, false, ROW, NO_ROWS, NO_ROWS, CONTACTS_LOG)
  }

  function ActiveListed(): State {
    var c := Cursor(ContactArchived, 0);
    State(c, c, true, false, ROW, NO_ROWS, NO_ROWS, ACTIVE_LOG)
  }

  function ArchivedLost(): State {
    ActiveListed().(contacts := ROW.(cache := ROW.cache.(version := 2)), log := ARCHIVED_LOST_LOG)
  }

  lemma ActiveCalled()
    ensures After(ContactsBegun(), ACTIVE_CALL) == ActiveListed()
  {
    var d := ContactsBegun().Log(CallStarted(START)).DeskOf(Contacts);
    var item := Item(7, 5, Stored(false));
    var pages := [Page([item], SaveDone), Page([], SaveDone)];
    var asked := d.Log(Requested(ContactActive, 0));
    assert SyncItems(asked, Contacts, [item][..0]) == (asked, false);
    assert SyncItems(asked, Contacts, [item]) == (ItemStep(asked, Contacts, item), false);
    assert Walk(d, ContactActive, 0, pages[..1][..0]) == (d, More(0));
    var (one, w) := Walk(d, ContactActive, 0, pages[..1]);
    assert w == More(500) && one.store == ROW;
    assert SyncItems(one.Log(Requested(ContactActive, 500)), Contacts, []) == (one.Log(Requested(ContactActive, 500)), false);
    var (two, v) := Walk(d, ContactActive, 0, pages);
    assert v == Finished && two.store == ROW;
    assert two.log + [Entered(ContactArchived)] + [Wrote(Cursor(ContactArchived, 0))] == ACTIVE_LOG;
  }

  lemma ArchivedCallLost()
    ensures After(ActiveListed(), ARCHIVED_LOST_CALL) == ArchivedLost()
  {
    var d := ActiveListed().Log(CallStarted(Cursor(ContactArchived, 0))).DeskOf(Contacts);
    assert Walk(d, ContactArchived, 0, [PageLost][..0]) == (d, More(0));
    assert Walk(d, ContactArchived, 0, [PageLost]) == (d.Log(Requested(ContactArchived, 0)), Failed);
  }

  lemma ArchivedCalled()
    ensures After(ArchivedLost(), ARCHIVED_CALL).log == PASS_LOG + [Pruned(Contacts, {7}, 1), Bumped(Contacts)]
  {
    var d := ArchivedLost().Log(CallStarted(Cursor(ContactArchived, 0))).DeskOf(Contacts);
    var page := Page([], SaveDone);
    assert Walk(d, ContactArchived, 0, [page][..0]) == (d, More(0));
    var asked := d.Log(Requested(ContactArchived, 0));
    assert SyncItems(asked, Contacts, []) == (asked, false);
    assert Walk(d, ContactArchived, 0, [page]) == (asked.Log(Ended(ContactArchived, 0)), Finished);
    assert Prunable(d.store.cache, 1) == {7};
  }

  lemma ContactCalls() returns (events: seq<Event>)
    ensures IsRun(ContactsBegun(), events)
    ensures Final(ContactsBegun(), events).log == PASS_LOG + [Pruned(Contacts, {7}, 1), Bumped(Contacts)]
  {
    RunsBegin();
    ActiveCalled();
    RunMore(ContactsBegun(), [], ACTIVE_CALL);
    ArchivedCallLost();
    RunMore(ContactsBegun(), [] + [ACTIVE_CALL], ARCHIVED_LOST_CALL);
    ArchivedCalled();
    RunMore(ContactsBegun(), [] + [ACTIVE_CALL] + [ARCHIVED_LOST_CALL], ARCHIVED_CALL);
    events := [] + [ACTIVE_CALL] + [ARCHIVED_LOST_CALL] + [ARCHIVED_CALL];
  }

  lemma ActiveInLog()
    ensures |PASS_LOG| == 18 && ActivePass(PASS_LOG, 1, 7)
  {
    var log := PASS_LOG;
    assert SyncedAt(log[..7], 1, ContactActive, 0, [4]);
    assert InOrder(log[..7], 1, ContactActive, 0, 500) by { assert |[4]| == 1; }
    assert WholeCall(log, 1, 7, ContactActive);
  }

  lemma ArchivedEntryInLog()
    ensures |PASS_LOG| == 18 && MemEntry(PASS_LOG[..15]) == 8
  {
    var log, entered := PASS_LOG, PASS_LOG[..8] + [Entered(ContactArchived)];
    assert log[..15] == entered + log[9..15];
    EntriesOne(log[..8], Entered(ContactArchived));
    EntryStays(entered, log[9..15]);
  }

  lemma PassInLog()
    ensures |PASS_LOG| == 18 && ContactPass(PASS_LOG, 1, 7, 15)
  {
    ActiveInLog();
    ArchivedEntryInLog();
    InOrderStarts(PASS_LOG[..15], 8, ContactArchived, 0);
  }

  lemma ListedInLog()
    ensures |PASS_LOG| == 18 && !Spared(PASS_LOG, 1, Contacts, {7})
  {
    assert PASS_LOG[3] == Listed(Contacts, 7);
  }

  /** A run whose contact pruning deletes a contact listed by the very pass that
      earned it: the drift is 1, and a lost archived page bumped the version. */
  lemma {:induction false} ListedContactLost() returns (st: State, events: seq<Event>, p: nat, s: nat, e: nat, g: nat)
    ensures IsRun(st, events)
    ensures var log := Final(st, events).log;
            && p < |log| && log[p].Pruned? && log[p].kind == Contacts
            && ContactPass(log[..p], s, e, g) && !Spared(log[..p], s, Contacts, log[p].ids)
  {
    st, p, s, e, g := ContactsBegun(), 18, 1, 7, 15;
    events := ContactCalls();
    PassInLog();
    ListedInLog();
    assert Final(st, events).log[..18] == PASS_LOG;
  }

  // ---- a body there was no memory to decode, and no 404, lose an invoice

  const LIST := Cursor(InvoiceList, 0)
  const MISSED := Cursor(InvoiceMissed, 0)
  const UNDECODED := Reply(7, Body(0, Unreadable(false)))
  const INVOICES_LOG := [Booted(LIST)]
  const LIST_LOST_LOG := INVOICES_LOG + [CallStarted(LIST), Requested(InvoiceList, 0), Bumped(Invoices)]
  const LISTED_LOG := LIST_LOST_LOG +
    [CallStarted(LIST), Requested(InvoiceList, 0), Ended(InvoiceList, 0), Entered(InvoiceMissed), Wrote(MISSED)]
  const ASKED_LOG := LISTED_LOG + [CallStarted(MISSED), Asked(UNDECODED), MissedDone, Entered(ContactActive), Wrote(START)]

  const LIST_LOST_CALL := Answered([PageLost], [])
  const LIST_CALL := Answered([Page([], SaveDone)], [])
  const MISSED_CALL := Answered([], [UNDECODED])

  function InvoicesBegun(): State {
    State(LIST, LIST, false, false, NO_ROWS, NO_ROWS, ROW, INVOICES_LOG)
  }

  function ListLost(): State {
    InvoicesBegun().(invoices := ROW.(cache := ROW.cache.(version := 2)), log := LIST_LOST_LOG)
  }

  function ListDone(): State {
    ListLost().(mem := MISSED, saved := MISSED, invoiceFromZero := true, log := LISTED_LOG)
  }

  lemma ListCallLost()
    ensures After(InvoicesBegun(), LIST_LOST_CALL) == ListLost()
  {
    var d := InvoicesBegun().Log(CallStarted(LIST)).DeskOf(Invoices);
    assert Walk(d, InvoiceList, 0, [PageLost][..0]) == (d, More(0));
    assert Walk(d, InvoiceList, 0, [PageLost]) == (d.Log(Requested(InvoiceList, 0)), Failed);
  }

  lemma ListCalled()
    ensures After(ListLost(), LIST_CALL) == ListDone()
  {
    var d := ListLost().Log(CallStarted(LIST)).DeskOf(Invoices);
    var page := Page([], SaveDone);
    assert Walk(d, InvoiceList, 0, [page][..0]) == (d, More(0));
    var asked := d.Log(Requested(InvoiceList, 0));
    assert SyncItems(asked, Invoices, []) == (asked, false);
    assert Walk(d, InvoiceList, 0, [page]) == (asked.Log(Ended(InvoiceList, 0)), Finished);
  }

  lemma MissedCalled()
    ensures After(ListDone(), MISSED_CALL).log == ASKED_LOG + [Pruned(Invoices, {7}, 1), Bumped(Invoices)]
    ensures Enabled(ListDone(), MISSED_CALL)
  {
    var s := ListDone().invoices;
    assert Due(s.cache) == {7};
    assert Fetched(s, [UNDECODED][..0]) == s;
    assert Fetched(s, [UNDECODED]) == s;
    assert AskedFacts([UNDECODED]) == [Asked(UNDECODED)];
  }

  lemma InvoiceCalls() returns (events: seq<Event>)
    ensures IsRun(InvoicesBegun(), events)
    ensures Final(InvoicesBegun(), events).log == ASKED_LOG + [Pruned(Invoices, {7}, 1), Bumped(Invoices)]
  {
    RunsBegin();
    ListCallLost();
    RunMore(InvoicesBegun(), [], LIST_LOST_CALL);
    ListCalled();
    RunMore(InvoicesBegun(), [] + [LIST_LOST_CALL], LIST_CALL);
    MissedCalled();
    RunMore(InvoicesBegun(), [] + [LIST_LOST_CALL] + [LIST_CALL], MISSED_CALL);
    events := [] + [LIST_LOST_CALL] + [LIST_CALL] + [MISSED_CALL];
  }

  lemma AskedInLog()
    ensures var log := ASKED_LOG + [Pruned(Invoices, {7}, 1), Bumped(Invoices)];
            && |log| == 16 && log[14] == Pruned(Invoices, {7}, 1)
            && forall i | 0 <= i < 14 && log[i].Asked? :: log[i].reply == UNDECODED
  {
  }

  /** A run that deletes an invoice although no GET ever answered 404: its body
      came, but there was no memory to decode it. */
  lemma {:induction false} DeletedWithout404() returns (st: State, events: seq<Event>, p: nat)
    ensures IsRun(st, events)
    ensures var log := Final(st, events).log;
            && p < |log| && log[p] == Pruned(Invoices, {7}, 1)
            && forall i | 0 <= i < p && log[i].Asked? :: !log[i].reply.answer.NotFound?
  {
    st, p := InvoicesBegun(), 14;
    events := InvoiceCalls();
    AskedInLog();
  }
}
