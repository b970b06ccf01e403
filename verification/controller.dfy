/**
 * The chat controller: the homi gate in front of sending a message, the
 * message listing of a thread, and the composition of a send with the ledger
 * hook applied once to the inserted message.
 */
module ChatController {
  import opened Options
  import opened Accounts
  import opened Conversations
  import Keys
  import Listing
  import ConversationsObserver

  /** The exception code store throws when the sender has less than one homi. */
  const InsufficientHomi: nat := 3

  /** The persistent state the flow touches: both balance tables and the conversations table. */
  datatype State = State(ledger: Ledger, conversations: seq<Message>, nextId: nat)

  /** Conversation ids are unique and below the next auto-increment value. */
  predicate Wf(st: State) {
    && UniqueIds(st.conversations)
    && forall i :: 0 <= i < |st.conversations| ==> st.conversations[i].id < st.nextId
  }

  /**
   * A send request: the sender's user type and id, the thread, the recipient
   * key the chat service puts in to, and the text.
   */
  datatype StoreRequest = StoreRequest(userType: string, id: nat, threadId: nat, to: string, body: string)

  /** What the request gets back: the exception code, the shown message, or the hook's exception. */
  datatype Response = Refused(code: nat) | Shown(message: Option<Message>) | Crashed(error: ConversationsObserver.HookError)

  datatype Reply = Reply(state: State, response: Response)

  /** The send gate's decision. */
  datatype Verdict = Accept | Reject(code: nat)

  /** The account store looks up for a request: exactly "MENTOR" reads the mentor table, anything else the mentee table. */
  function SenderAccount(userType: string, id: nat): Account {
    Account(TableFor(userType), id)
  }

  /**
   * The homi check of store: a missing row reads as 0, and anything below 1
   * is refused with code 3.
   */
  function Gate(l: Ledger, userType: string, id: nat): (v: Verdict)
    ensures v.Reject? <==> Homi(l, SenderAccount(userType, id)) < 1
    ensures v.Reject? ==> v.code == InsufficientHomi
  {
    var homi := Homi(l, SenderAccount(userType, id));
    if homi < 1 then Reject(InsufficientHomi) else Accept
  }

  /** A sender whose row is missing is refused. */
  lemma GateRejectsMissingAccount(l: Ledger, userType: string, id: nat)
    requires !Has(l, SenderAccount(userType, id))
    ensures Gate(l, userType, id) == Reject(InsufficientHomi)
  {
  }

  /** The boundary sits between 0 and 1: a balance of exactly 1 passes. */
  lemma GateBoundary(l: Ledger, userType: string, id: nat)
    ensures Homi(l, SenderAccount(userType, id)) == 1 ==> Gate(l, userType, id) == Accept
    ensures Homi(l, SenderAccount(userType, id)) == 0 ==> Gate(l, userType, id) == Reject(InsufficientHomi)
  {
  }

  /**
   * The gate reads one table only: for "MENTOR" the mentor table, for every
   * other user type (including "MENTEE") the mentee table.
   */
  lemma GateReadsOneTable(l: Ledger, l': Ledger, userType: string, id: nat)
    requires userType == "MENTOR" ==> l.mentors == l'.mentors
    requires userType != "MENTOR" ==> l.mentees == l'.mentees
    ensures Gate(l, userType, id) == Gate(l', userType, id)
  {
  }

  /** The message the chat service inserts: the next id, and from set to the sender's key. */
  function NewMessage(st: State, req: StoreRequest, now: int): Message {
    Message(st.nextId, req.threadId, Keys.AccountKey(req.userType, req.id), req.to, req.body, now)
  }

  /**
   * The chat service's insert: appends one message under a fresh id and
   * returns that id. It keeps ids unique and touches no balance.
   */
  function SendMessage(st: State, req: StoreRequest, now: int): (r: (State, nat))
    ensures r.0.ledger == st.ledger
    ensures |r.0.conversations| == |st.conversations| + 1
    ensures r.0.conversations[..|st.conversations|] == st.conversations
    ensures r.0.conversations[|st.conversations|].id == r.1
    ensures Wf(st) ==> Wf(r.0) && forall i :: 0 <= i < |st.conversations| ==> st.conversations[i].id != r.1
  {
    var m := NewMessage(st, req, now);
    var conversations := st.conversations + [m];
    assert conversations[..|st.conversations|] == st.conversations;
    (State(st.ledger, conversations, st.nextId + 1), m.id)
  }

  /** The message stored under an id, as show returns it. */
  function Show(st: State, messageId: nat): (r: Option<Message>)
    ensures r.Some? ==> r.value in st.conversations && r.value.id == messageId
    ensures r.None? ==> forall i :: 0 <= i < |st.conversations| ==> st.conversations[i].id != messageId
  {
    FindById(st.conversations, messageId)
  }

  /** On a well-formed state, show by the id the insert returns finds the inserted message. */
  lemma InsertedIsShown(st: State, req: StoreRequest, now: int)
    ensures Wf(st) ==> Show(SendMessage(st, req, now).0, SendMessage(st, req, now).1) == Some(NewMessage(st, req, now))
  {
  }

  /**
   * The store action: refuse with code 3 below one homi, changing nothing;
   * otherwise insert the message and show what is stored under its new id.
   * Neither branch changes a balance.
   */
  function Store(st: State, req: StoreRequest, now: int): (r: Reply)
    ensures r.response.Refused? <==> Homi(st.ledger, SenderAccount(req.userType, req.id)) < 1
    ensures r.response.Refused? ==> r.response.code == InsufficientHomi && r.state == st
    ensures !r.response.Crashed?
    ensures r.state.ledger == st.ledger
    ensures r.response.Shown? ==>
      && |r.state.conversations| == |st.conversations| + 1
      && r.state.conversations[..|st.conversations|] == st.conversations
      && r.state.conversations[|st.conversations|] == NewMessage(st, req, now)
    ensures r.response.Shown? && Wf(st) ==> Wf(r.state) && r.response.message == Some(NewMessage(st, req, now))
  {
    match Gate(st.ledger, req.userType, req.id)
    case Reject(code) => Reply(st, Refused(code))
    case Accept =>
      var (st', messageId) := SendMessage(st, req, now);
      InsertedIsShown(st, req, now);
      Reply(st', Shown(Show(st', messageId)))
  }

  /**
   * A whole send: store, then the created hook applied once to the inserted
   * message. A hook exception leaves the message stored and whatever debit
   * was already written.
   */
  function Send(st: State, req: StoreRequest, now: int): (r: Reply)
    ensures r.response.Refused? <==> Homi(st.ledger, SenderAccount(req.userType, req.id)) < 1
    ensures r.response.Refused? ==> r.state == st
    ensures !r.response.Refused? ==> r.state.conversations == st.conversations + [NewMessage(st, req, now)]
    ensures !r.response.Refused? ==> r.state.ledger == ConversationsObserver.OnCreated(st.ledger, NewMessage(st, req, now)).ledger
    ensures r.response.Crashed? <==>
      !r.response.Refused? && ConversationsObserver.OnCreated(st.ledger, NewMessage(st, req, now)).Failed?
    ensures r.response.Crashed? ==>
      r.response.error == ConversationsObserver.OnCreated(st.ledger, NewMessage(st, req, now)).error
    ensures Wf(st) ==> Wf(r.state)
    ensures Wf(st) && !r.response.Refused? && !r.response.Crashed? ==> r.response == Shown(Some(NewMessage(st, req, now)))
  {
    var stored := Store(st, req, now);
    if stored.response.Refused? then stored
    else
      assert stored.state.conversations == st.conversations + [NewMessage(st, req, now)];
      match ConversationsObserver.OnCreated(stored.state.ledger, NewMessage(st, req, now))
      case Done(l) => Reply(stored.state.(ledger := l), stored.response)
      case Failed(e, l) => Reply(stored.state.(ledger := l), Crashed(e))
  }

  /**
   * A send by a sender with at least one homi, to a recipient key whose id
   * names an existing mentor row, completes: the message is shown, the
   * sender's row loses one homi, that mentor row gains one, and no other
   * balance moves.
   */
  lemma SendSettles(st: State, req: StoreRequest, now: int, recipientType: string, recipientId: nat)
    requires Wf(st)
    requires Keys.Separator !in req.userType && Keys.Separator !in recipientType
    requires req.to == Keys.AccountKey(recipientType, recipientId)
    requires Homi(st.ledger, SenderAccount(req.userType, req.id)) >= 1
    requires Has(st.ledger, Account(Mentor, recipientId))
    ensures Send(st, req, now).response == Shown(Some(NewMessage(st, req, now)))
    ensures forall b :: Homi(Send(st, req, now).state.ledger, b) == (
              Homi(st.ledger, b)
              - (if b == SenderAccount(req.userType, req.id) then 1 else 0)
              + (if b == Account(Mentor, recipientId) then 1 else 0))
  {
    var m := NewMessage(st, req, now);
    ConversationsObserver.SenderOfKey(m, req.userType, req.id);
    ConversationsObserver.RecipientOfKey(m, recipientType, recipientId);
  }

  /** A send that completes leaves the total homi of both tables as it was. */
  lemma SendConservesTotal(st: State, req: StoreRequest, now: int)
    requires Send(st, req, now).response.Shown?
    ensures Total(Send(st, req, now).state.ledger) == Total(st.ledger)
  {
    ConversationsObserver.CreatedConservesTotal(st.ledger, NewMessage(st, req, now));
  }

  /**
   * Run one request at a time, sends never drive a balance below zero: the
   * gate lets a send through only with at least one homi, and the hook takes
   * exactly one.
   */
  lemma SendKeepsBalancesNonNegative(st: State, req: StoreRequest, now: int)
    requires Keys.Separator !in req.userType
    requires forall a :: Homi(st.ledger, a) >= 0
    ensures forall a :: Homi(Send(st, req, now).state.ledger, a) >= 0
  {
    ConversationsObserver.SenderOfKey(NewMessage(st, req, now), req.userType, req.id);
  }

  /**
   * A user type holding the separator splits the gate from the hook: the
   * gate reads mentee 7 for user type "MENTOR_5" and id 7, but the key
   * "MENTOR_5_7" makes the hook debit mentor 5, driving it to -1 while
   * mentee 7 keeps its homi.
   */
  lemma UnderscoreUserTypeMisdirectsDebit()
    ensures var st := State(Ledger(map[5 := 0, 9 := 0], map[7 := 1]), [], 0);
            var r := Send(st, StoreRequest("MENTOR_5", 7, 0, "MENTOR_9", ""), 0);
            && r.response.Shown?
            && Homi(r.state.ledger, Account(Mentor, 5)) == -1
            && Homi(r.state.ledger, Account(Mentee, 7)) == 1
            && Homi(r.state.ledger, Account(Mentor, 9)) == 1
  {
    var st := State(Ledger(map[5 := 0, 9 := 0], map[7 := 1]), [], 0);
    var req := StoreRequest("MENTOR_5", 7, 0, "MENTOR_9", "");
    var m := NewMessage(st, req, 0);
    assert Homi(st.ledger, SenderAccount(req.userType, req.id)) == 1 by {
      assert SenderAccount(req.userType, req.id) == Account(Mentee, 7);
    }
    SenderOfUnderscoreKey(m);
    RecipientOfMentorNineKey(m);
    MisdirectedSettlement(st.ledger, m);
  }

  /** The key of user type "MENTOR_5" and id 7 makes the hook debit mentor 5. */
  lemma SenderOfUnderscoreKey(m: Message)
    requires m.from == Keys.AccountKey("MENTOR_5", 7)
    ensures ConversationsObserver.Sender(m) == Some(Account(Mentor, 5))
  {
    Keys.UnderscoreRoleKey();
  }

  /** The key "MENTOR_9" makes the hook credit mentor 9. */
  lemma RecipientOfMentorNineKey(m: Message)
    requires m.to == "MENTOR_9"
    ensures ConversationsObserver.Recipient(m) == Some(Account(Mentor, 9))
  {
    assert Keys.Decimal(9) == "9";
    ConversationsObserver.RecipientOfKey(m, "MENTOR", 9);
  }

  /** Debiting mentor 5 and crediting mentor 9 on that ledger leaves mentor 5 at -1 and mentee 7 untouched. */
  lemma MisdirectedSettlement(l: Ledger, m: Message)
    requires l == Ledger(map[5 := 0, 9 := 0], map[7 := 1])
    requires ConversationsObserver.Sender(m) == Some(Account(Mentor, 5))
    requires ConversationsObserver.Recipient(m) == Some(Account(Mentor, 9))
    ensures ConversationsObserver.OnCreated(l, m).Done?
    ensures Homi(ConversationsObserver.OnCreated(l, m).ledger, Account(Mentor, 5)) == -1
    ensures Homi(ConversationsObserver.OnCreated(l, m).ledger, Account(Mentee, 7)) == 1
    ensures Homi(ConversationsObserver.OnCreated(l, m).ledger, Account(Mentor, 9)) == 1
  {
  }

  /**
   * A sender with exactly one homi can send once: after a completed send to
   * a row other than their own, the next send from them is refused.
   */
  lemma SecondSendRefused(st: State, req: StoreRequest, now: int, req': StoreRequest, later: int)
    requires Keys.Separator !in req.userType
    requires Homi(st.ledger, SenderAccount(req.userType, req.id)) == 1
    requires Send(st, req, now).response.Shown?
    requires ConversationsObserver.Recipient(NewMessage(st, req, now)) != Some(SenderAccount(req.userType, req.id))
    requires req'.userType == req.userType && req'.id == req.id
    ensures Send(Send(st, req, now).state, req', later).response == Refused(InsufficientHomi)
  {
    ConversationsObserver.SenderOfKey(NewMessage(st, req, now), req.userType, req.id);
  }

  /**
   * The messagelists action: the messages of one thread, newest first and
   * larger id first among equally new, page by page, fifteen to a page.
   */
  function MessageLists(st: State, threadId: nat, page: int): (r: seq<Message>)
    ensures |r| <= Listing.PageSize
    ensures Listing.Ordered(r)
    ensures forall i :: 0 <= i < |r| ==> r[i].threadId == threadId && r[i] in st.conversations
  {
    Listing.ThreadPageMembers(st.conversations, threadId, page);
    Listing.Page(Listing.Sort(Listing.InThread(st.conversations, threadId)), page)
  }

  /**
   * Page p of messagelists is the p-th run of fifteen in the one ordering
   * of the thread that ORDER BY created_at DESC, id DESC allows: any ordered
   * arrangement L of the thread's messages gives the same page.
   */
  lemma MessageListsIsPage(st: State, threadId: nat, page: int, L: seq<Message>)
    requires Wf(st)
    requires Listing.Ordered(L) && multiset(L) == multiset(Listing.InThread(st.conversations, threadId))
    ensures MessageLists(st, threadId, page) == Listing.Page(L, page)
  {
    Listing.InThreadUnique(st.conversations, threadId);
    Listing.SortIsTheOrder(Listing.InThread(st.conversations, threadId), L);
  }

  /** Every message of the thread is on some page of its listing. */
  lemma MessageListsComplete(st: State, threadId: nat, m: Message)
    requires m in st.conversations && m.threadId == threadId
    ensures exists page :: 1 <= page && m in MessageLists(st, threadId, page)
  {
    var listing := Listing.Sort(Listing.InThread(st.conversations, threadId));
    assert m in multiset(listing);
    var k :| 0 <= k < |listing| && listing[k] == m;
    Listing.PageHolds(listing, k);
    assert m in MessageLists(st, threadId, k / Listing.PageSize + 1);
  }
}
