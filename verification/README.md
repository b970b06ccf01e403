# Homi chat flow — a Dafny model

This project models the point ("homi") flow around chat messages on a
mentoring platform. Mentors and mentees are kept in two account tables, and
each account has an integer homi balance. A completed send by a user type
without `_` debits the sender's row by one homi. The credit for that send goes
to a mentor row, which may be the sender's own: a mentor writing to a key with
their own id is debited and credited on the same row. The flow has three parts:

- **The send gate** (`ChatController.store`). It looks up the sender's balance
  in the table that the request's `user_type` selects. Exactly `"MENTOR"`
  selects the mentor table; any other value selects the mentee table. A
  missing row reads as balance 0. A balance below 1 is refused with exception
  code 3. Otherwise the chat service inserts the message, and the action
  returns what is stored under the new id.
- **The ledger hook** (`ChatConversationsObserver.created`). It splits the
  message's `from` and `to` keys on `"_"`. It decrements the sender's row in
  the table named by the first piece of `from`. It then increments a row of
  the *mentor* table, chosen by the id piece of `to`, whatever role `to`
  names. The updated, deleted, restored and force-deleted hooks do nothing.
- **Keys and listing.** A chat-list key is `user_type + "_" + id`. A thread
  is listed by `created_at` descending, then `id` descending, fifteen
  messages per page.

Modules, leaves first:

- `Options` holds the optional values.
- `Keys` holds the `"ROLE_id"` keys. It covers decimal rendering, the id
  parse, an `explode`-style split and its inverse join.
- `Accounts` holds the two tables, the default-0 balance lookup,
  increment and decrement, and the total homi, a ghost sum.
- `Conversations` holds the message rows and lookup by id.
- `Listing` holds the listing order, an insertion sort and the paging.
- `ConversationsObserver` holds the lifecycle hooks.
- `ChatController` holds the gate, `store`, `show` and `messagelists`. It
  also defines `Send`, which is `store` followed by the created hook, applied
  explicitly once to the inserted message.

The credit always goes to the mentor row named by the id piece of `to`
(app/Observers/ChatConversationsObserver.php:28), whatever role `to` names,
and the model keeps this. A mentee recipient is therefore never credited.
If no mentor row carries the mentee's id, the hook throws after the sender
was already debited. There is no transaction in the code, so a hook failure
after the debit keeps the debit. `HookOutcome.Failed` carries that partially
updated ledger.

## Model

| member | source | states |
|---|---|---|
| Keys.AccountKey | app/Http/Controllers/ChatController.php:90 | the chat-list key starts with the user type, then `_`, and the rest reads back as the id |
| Keys.DecimalRoundTrip | app/Http/Controllers/ChatController.php:90 | the decimal numeral of an id parses back to that id |
| Keys.DecimalOfDigits | app/Observers/ChatConversationsObserver.php:19-20 | a digit string without leading zeros is the numeral of the number it spells |
| Keys.ParseId | app/Observers/ChatConversationsObserver.php:23-28 | an id piece selects a row exactly when it is a non-empty run of decimal digits |
| Keys.Explode | app/Observers/ChatConversationsObserver.php:19-20 | splitting on `_` gives at least one piece, no piece holds `_`, and there are two or more pieces exactly when the string holds `_` |
| Keys.JoinExplode | app/Observers/ChatConversationsObserver.php:19-20 | joining the pieces with `_` gives the original string back |
| Keys.ExplodeJoin | app/Observers/ChatConversationsObserver.php:19-20 | splitting joined `_`-free pieces gives the same pieces back |
| Keys.SplitKey | app/Observers/ChatConversationsObserver.php:19-25 | a key has an id piece exactly when it holds `_`; role and id are the first two pieces |
| Keys.KeyRoundTrip | app/Observers/ChatConversationsObserver.php:19-20 | splitting `role_id` (role without `_`) gives back the role and the numeral of the id, and that numeral parses to the id |
| Keys.KeyFromParts | app/Http/Controllers/ChatController.php:90 | a two-piece key with a canonical numeral is rebuilt exactly from its role and id |
| Accounts.TableFor | app/Http/Controllers/ChatController.php:43-53 | exactly `"MENTOR"` selects the mentor table; every other user type, `"MENTEE"` included, selects the mentee table |
| Accounts.Homi | app/Http/Controllers/ChatController.php:42-53 | a missing account reads as balance 0 |
| Accounts.Adjust | app/Observers/ChatConversationsObserver.php:23-28 | increment or decrement moves one existing balance by delta; no other balance moves and no row appears or disappears |
| Accounts.AdjustTotal | app/Observers/ChatConversationsObserver.php:23-28 | moving one balance by delta moves the total homi by exactly delta |
| Accounts.LedgerExtensionality | app/Observers/ChatConversationsObserver.php:23-28 | two ledgers with the same rows and the same balances are equal |
| Conversations.FindById | app/Http/Controllers/ChatController.php:67-70 | find returns a stored message with the asked id, and nothing exactly when no stored message has that id |
| Conversations.FindStored | app/Http/Controllers/ChatController.php:67-70 | with unique ids, find by a stored message's id returns that message |
| Listing.InThread | app/Http/Controllers/ChatController.php:78 | the thread filter keeps every message of the thread, with its multiplicity, and nothing else |
| Listing.Sort | app/Http/Controllers/ChatController.php:78 | the listing is a permutation of its input ordered by created_at descending, then id descending |
| Listing.OrderedUnique | app/Http/Controllers/ChatController.php:78 | with distinct ids, only one ordering of the messages satisfies the ORDER BY |
| Listing.SortIsTheOrder | app/Http/Controllers/ChatController.php:78 | with unique ids, the listing order Sort computes is the only arrangement the ORDER BY allows |
| Listing.PageNumber | app/Http/Controllers/ChatController.php:78 | a page number below 1 reads as page 1; other page numbers are kept |
| Listing.Page | app/Http/Controllers/ChatController.php:78 | page p holds positions (p-1)*15 onward, at most 15 of them, and is cut short only at the end of the listing |
| Listing.PageHolds | app/Http/Controllers/ChatController.php:78 | the message at position k appears on page k/15+1 at position k%15 |
| Listing.PagesInOrder | app/Http/Controllers/ChatController.php:78 | every message on an earlier page is listed ahead of every message on a later page |
| ConversationsObserver.OnCreated | app/Observers/ChatConversationsObserver.php:17-29 | completes exactly when both the sender and the recipient's mentor row exist; then the sender loses 1, the mentor row with the recipient's id gains 1, and nothing else moves; a missing sender changes nothing; a missing recipient keeps the sender's debit |
| ConversationsObserver.OnEvent | app/Observers/ChatConversationsObserver.php:37-73 | the updated, deleted, restored and force-deleted hooks leave every balance unchanged |
| ConversationsObserver.CreatedConservesTotal | app/Observers/ChatConversationsObserver.php:23-28 | a completed hook leaves the total homi of both tables unchanged |
| ConversationsObserver.MentorSelfSendNetsZero | app/Observers/ChatConversationsObserver.php:22-28 | a mentor whose own mentor row is also the recipient ends with an unchanged ledger |
| ConversationsObserver.CreatedTwice | app/Observers/ChatConversationsObserver.php:17-29 | running the hook twice for one message debits 2 and credits 2, so it is not idempotent |
| ConversationsObserver.RecipientRoleIgnored | app/Observers/ChatConversationsObserver.php:28 | two recipient keys with the same id piece settle identically, whatever their role |
| ConversationsObserver.MenteesNeverCredited | app/Observers/ChatConversationsObserver.php:22-28 | no mentee balance ever rises through the hook |
| ConversationsObserver.SenderOfKey | app/Observers/ChatConversationsObserver.php:19-26 | for a key `user_type_id` whose user type has no `_`, the hook debits the same row that the send gate read |
| ConversationsObserver.RecipientOfKey | app/Observers/ChatConversationsObserver.php:20-28 | for a key `role_id` whose role has no `_`, the hook credits the mentor row with that id |
| ChatController.Gate | app/Http/Controllers/ChatController.php:42-57 | refused with code 3 exactly when the looked-up balance, 0 for a missing row, is below 1 |
| ChatController.GateRejectsMissingAccount | app/Http/Controllers/ChatController.php:42-57 | a sender without a row is refused with code 3 |
| ChatController.GateBoundary | app/Http/Controllers/ChatController.php:55-57 | a balance of exactly 1 passes and a balance of 0 is refused |
| ChatController.GateReadsOneTable | app/Http/Controllers/ChatController.php:43-53 | the decision depends only on the mentor table for `"MENTOR"` and only on the mentee table otherwise |
| ChatController.SendMessage | app/Http/Controllers/ChatController.php:59 | the insert appends one message under an id no stored message has, keeps ids unique and changes no balance |
| ChatController.Show | app/Http/Controllers/ChatController.php:67-70 | show returns a stored message with the asked id, or nothing when no stored message has that id |
| ChatController.InsertedIsShown | app/Http/Controllers/ChatController.php:59-61 | show by the id the insert returned yields the inserted message |
| ChatController.Store | app/Http/Controllers/ChatController.php:39-62 | refused with code 3 exactly when the balance is below 1, and then nothing changes; otherwise one message is added and shown; no balance ever changes |
| ChatController.Send | app/Http/Controllers/ChatController.php:55-61 | a refused send changes nothing; any other send adds exactly the new message and leaves the ledger the created hook produces; it crashes exactly when the hook fails; it keeps ids unique, and a send that neither is refused nor crashes shows the inserted message |
| ChatController.SendKeepsBalancesNonNegative | app/Http/Controllers/ChatController.php:55-59 | one request at a time, a send by a user type without `_` never drives any balance below zero when all balances start at zero or more |
| ChatController.SendSettles | app/Observers/ChatConversationsObserver.php:17-29 | for user and recipient types without `_`, with enough homi and an existing mentor row for the recipient id, the send is shown, the sender loses 1, that mentor row gains 1, and nothing else moves |
| ChatController.SendConservesTotal | app/Observers/ChatConversationsObserver.php:23-28 | a completed send leaves the total homi unchanged |
| ChatController.SecondSendRefused | app/Http/Controllers/ChatController.php:55-57 | a sender whose user type has no `_`, with exactly 1 homi, who completes a send to another row is refused the next time |
| ChatController.UnderscoreUserTypeMisdirectsDebit | app/Observers/ChatConversationsObserver.php:19-25 | user type `MENTOR_5` with id 7 passes the gate on mentee 7, but the hook debits mentor 5 to -1 and mentee 7 keeps its homi |
| ChatController.MessageLists | app/Http/Controllers/ChatController.php:76-81 | a page holds at most 15 messages, all stored and all of the thread, in listing order |
| ChatController.MessageListsIsPage | app/Http/Controllers/ChatController.php:78 | page p of the listing is exactly page p of any arrangement of the thread's messages ordered by created_at descending, then id descending |
| ChatController.MessageListsComplete | app/Http/Controllers/ChatController.php:78 | every message of the thread appears on some page |

## Left out

- OpenApiController, MenteeDiaryService and MainController are not part of this model. They are HTTP fan-out, unimplemented stubs and a random-order query.
- ChatService is not part of this model, so `sendMessage` is modelled as an abstract insert. It appends a message under the next id and sets `from` to the sender's key. `to` is taken from the request, because the service's recipient computation is not shown. The gate/hook mismatch below holds only if the service really builds `from` this way.
- The `chatLists` call passes its key to ChatService, which is not shown. Only the key encoding (`Keys.AccountKey`) is modelled.
- StoreChatRequest validation is not shown. User types are arbitrary strings, and ids are non-negative integers.
- ChatController.SendSettles: holds only for user and recipient types without `_`. The gate picks the table from the whole user type, but the hook re-reads table and id from the pieces of `from`, so a `_` in the user type sends the debit to another row (`ChatController.UnderscoreUserTypeMisdirectsDebit`).
- ChatController.SendKeepsBalancesNonNegative: holds only for user types without `_`, for the same reason; with user type `MENTOR_5` a mentor row can reach -1.
- ChatController.SecondSendRefused: holds only for user types without `_`, for the same reason; the debit may land on a row the gate does not read.
- ConversationsObserver.SenderOfKey: holds only for user types without `_`, since `explode` splits the user type itself.
- ConversationsObserver.RecipientOfKey: holds only for roles without `_`, since `explode` splits the role too; the key `MENTEE_3_9` credits mentor 3, not mentor 9.
- The event wiring is not modelled. The service provider registers a different observer, and the controller and the hook name different model classes. `ChatController.Send` applies the created hook explicitly, once per inserted message.
- Concurrency and transactions are left out. The model runs one request at a time. A hook failure after the debit is kept as a partial write, not rolled back.
- `created_at` is an abstract integer ordering key supplied by the caller. The clock is left out.
- Pagination metadata (total, last page, links) is left out. Only the items of the requested page are modelled. A non-integer page parameter is not modelled.
- Keys.AccountKey: only canonical non-negative numeric ids are modelled for the chat-list key. `chatLists` takes an unvalidated request and pastes the id text in as it is, so ids such as `007` or `abc` give keys the model cannot build.
- Keys.ParseId: MySQL's lenient string-to-integer cast (a piece such as `12abc` matching row 12) is not modelled. Such a piece finds no row.
- Failed database calls and PHP-level details, beyond the hook's two exception kinds, are left out.
