/**
 * The chat-conversation lifecycle hooks. Only "created" does anything: it
 * takes one homi from the sender and gives one to the recipient's row in the
 * mentor table.
 */
module ConversationsObserver {
  import opened Options
  import opened Accounts
  import opened Conversations
  import Keys

  /** The model lifecycle events a hook can be called for. */
  datatype Event = Created | Updated | Deleted | Restored | ForceDeleted

  /**
   * Why the created hook throws: the key has no id piece (an undefined array
   * offset), or find returned null and decrement or increment was called on it.
   */
  datatype HookError = MissingIdPiece | AccountNotFound

  /**
   * What a hook leaves behind. A failed hook still carries the ledger as it
   * was when the exception left: a debit already written stays written.
   */
  datatype HookOutcome = Done(ledger: Ledger) | Failed(error: HookError, ledger: Ledger)

  /** The account a key's id piece names in table t, if it has a numeric id piece. */
  function KeyAccount(t: Table, key: string): Option<Account> {
    match Keys.SplitKey(key)
    case None => None
    case Some(parts) =>
      match Keys.ParseId(parts.idPart)
      case None => None
      case Some(id) => Some(Account(t, id))
  }

  /** The account the hook debits: the table picked by the first piece of from, the id in its second piece. */
  function Sender(m: Message): Option<Account> {
    KeyAccount(TableFor(Keys.RolePiece(m.from)), m.from)
  }

  /** The account the hook credits: the mentor table, whatever role the first piece of to names. */
  function Recipient(m: Message): Option<Account> {
    KeyAccount(Mentor, m.to)
  }

  /** The account is named and its row exists. */
  predicate Found(l: Ledger, a: Option<Account>) {
    a.Some? && Has(l, a.value)
  }

  /** The error a key that names no existing row raises. */
  function FailureOf(key: string): HookError {
    if Keys.Separator in key then AccountNotFound else MissingIdPiece
  }

  /** 1 when the optional account is a, otherwise 0. */
  function Hit(a: Option<Account>, b: Account): int {
    if a == Some(b) then 1 else 0
  }

  /**
   * The "created" hook: debit the sender one homi, then credit the
   * recipient's mentor row one homi. When the sender cannot be found nothing
   * changes; when only the recipient cannot be found the debit stays.
   */
  function OnCreated(l: Ledger, m: Message): (r: HookOutcome)
    ensures r.Done? <==> Found(l, Sender(m)) && Found(l, Recipient(m))
    ensures forall b :: Has(r.ledger, b) <==> Has(l, b)
    ensures r.Done? ==> forall b :: Homi(r.ledger, b) == Homi(l, b) - Hit(Sender(m), b) + Hit(Recipient(m), b)
    ensures r.Failed? && !Found(l, Sender(m)) ==> r.error == FailureOf(m.from) && r.ledger == l
    ensures r.Failed? && Found(l, Sender(m)) ==>
      r.error == FailureOf(m.to) && forall b :: Homi(r.ledger, b) == Homi(l, b) - Hit(Sender(m), b)
  {
    var sender := Sender(m);
    if !Found(l, sender) then Failed(FailureOf(m.from), l)
    else
      var debited := Adjust(l, sender.value, -1);
      var recipient := Recipient(m);
      if !Found(debited, recipient) then Failed(FailureOf(m.to), debited)
      else Done(Adjust(debited, recipient.value, 1))
  }

  /**
   * Dispatches a lifecycle event: created runs the ledger hook; updated,
   * deleted, restored and force-deleted have empty bodies and leave every
   * balance as it was.
   */
  function OnEvent(l: Ledger, e: Event, m: Message): (r: HookOutcome)
    ensures e != Created ==> r == Done(l)
    ensures e == Created ==> r == OnCreated(l, m)
  {
    match e
    case Created => OnCreated(l, m)
    case Updated => Done(l)
    case Deleted => Done(l)
    case Restored => Done(l)
    case ForceDeleted => Done(l)
  }

  /** A completed hook moves homi from one row to another and creates or destroys none. */
  lemma CreatedConservesTotal(l: Ledger, m: Message)
    requires OnCreated(l, m).Done?
    ensures Total(OnCreated(l, m).ledger) == Total(l)
  {
    var debited := Adjust(l, Sender(m).value, -1);
    AdjustTotal(l, Sender(m).value, -1);
    AdjustTotal(debited, Recipient(m).value, 1);
  }

  /** A mentor writing to their own mentor row is debited and credited the same homi. */
  lemma MentorSelfSendNetsZero(l: Ledger, m: Message)
    requires Found(l, Sender(m))
    requires Sender(m) == Recipient(m)
    ensures OnCreated(l, m) == Done(l)
  {
  }

  /**
   * The hook is not idempotent: running it twice for one message, with
   * distinct sender and recipient rows, debits two homi and credits two.
   */
  lemma CreatedTwice(l: Ledger, m: Message)
    requires OnCreated(l, m).Done?
    requires Sender(m) != Recipient(m)
    ensures OnCreated(OnCreated(l, m).ledger, m).Done?
    ensures Homi(OnCreated(OnCreated(l, m).ledger, m).ledger, Sender(m).value) == Homi(l, Sender(m).value) - 2
    ensures Homi(OnCreated(OnCreated(l, m).ledger, m).ledger, Recipient(m).value) == Homi(l, Recipient(m).value) + 2
    ensures OnCreated(OnCreated(l, m).ledger, m) != OnCreated(l, m)
  {
  }

  /**
   * The role in to is never read: two messages from the same sender whose
   * recipient keys share their id piece settle identically, so a mentee
   * recipient is credited in the mentor row with the mentee's id.
   */
  lemma RecipientRoleIgnored(l: Ledger, m: Message, m': Message)
    requires m.from == m'.from
    requires Keys.SplitKey(m.to).Some? && Keys.SplitKey(m'.to).Some?
    requires Keys.SplitKey(m.to).value.idPart == Keys.SplitKey(m'.to).value.idPart
    ensures OnCreated(l, m) == OnCreated(l, m')
  {
  }

  /** No mentee row ever gains homi from the hook, whether it completes or fails. */
  lemma MenteesNeverCredited(l: Ledger, m: Message, id: nat)
    ensures Homi(OnCreated(l, m).ledger, Account(Mentee, id)) <= Homi(l, Account(Mentee, id))
  {
  }

  /** For a key built by the controller, the hook debits exactly the row the send gate read. */
  lemma SenderOfKey(m: Message, userType: string, id: nat)
    requires Keys.Separator !in userType
    requires m.from == Keys.AccountKey(userType, id)
    ensures Sender(m) == Some(Account(TableFor(userType), id))
  {
    Keys.KeyRoundTrip(userType, id);
  }

  /** For a key built by the controller, the hook credits the mentor row with that key's id. */
  lemma RecipientOfKey(m: Message, userType: string, id: nat)
    requires Keys.Separator !in userType
    requires m.to == Keys.AccountKey(userType, id)
    ensures Recipient(m) == Some(Account(Mentor, id))
  {
    Keys.KeyRoundTrip(userType, id);
  }
}
