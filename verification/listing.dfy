/**
 * The thread listing order and its paging: created_at descending, then id
 * descending, fifteen messages to a page.
 */
module Listing {
  import opened Conversations

  /** Messages per page. */
  const PageSize: nat := 15

  /** a may be listed ahead of b: it is newer, or equally new with an id no smaller. */
  predicate ListedBefore(a: Message, b: Message) {
    a.createdAt > b.createdAt || (a.createdAt == b.createdAt && a.id >= b.id)
  }

  /** Every message is listed ahead of every later one. */
  predicate Ordered(s: seq<Message>) {
    forall i, j :: 0 <= i < j < |s| ==> ListedBefore(s[i], s[j])
  }

  /** The messages of one thread, in storage order: the where('chat_lists_id', ...) clause. */
  function InThread(s: seq<Message>, threadId: nat): (r: seq<Message>)
    ensures forall m :: multiset(r)[m] == if m.threadId == threadId then multiset(s)[m] else 0
    ensures forall i :: 0 <= i < |r| ==> r[i].threadId == threadId && r[i] in s
  {
    if |s| == 0 then []
    else
      var rest := InThread(s[1..], threadId);
      assert s == [s[0]] + s[1..];
      if s[0].threadId == threadId then [s[0]] + rest else rest
  }

  /** Places m into an ordered sequence at the first position it may take. */
  function Insert(m: Message, s: seq<Message>): (r: seq<Message>)
    requires Ordered(s)
    ensures Ordered(r)
    ensures multiset(r) == multiset(s) + multiset{m}
    ensures forall x :: x in r <==> x == m || x in s
  {
    if |s| == 0 then [m]
    else if ListedBefore(m, s[0]) then [m] + s
    else
      var rest := Insert(m, s[1..]);
      assert s == [s[0]] + s[1..];
      assert forall x :: x in rest ==> ListedBefore(s[0], x);
      [s[0]] + rest
  }

  /** The messages of s in listing order: newest first, larger id first among equally new. */
  function Sort(s: seq<Message>): (r: seq<Message>)
    ensures Ordered(r)
    ensures multiset(r) == multiset(s)
  {
    if |s| == 0 then []
    else
      assert s == [s[0]] + s[1..];
      Insert(s[0], Sort(s[1..]))
  }

  lemma TailMultiset(a: seq<Message>)
    requires |a| > 0
    ensures multiset(a[1..]) == multiset(a) - multiset{a[0]}
  {
    assert a == [a[0]] + a[1..];
  }

  lemma UniqueTail(a: seq<Message>)
    requires |a| > 0 && UniqueIds(a)
    ensures UniqueIds(a[1..])
  {
  }

  /** Unique ids survive any rearrangement of the same messages. */
  lemma UniqueIdsPermutation(a: seq<Message>, b: seq<Message>)
    requires UniqueIds(a)
    requires multiset(a) == multiset(b)
    ensures UniqueIds(b)
  {
    forall i, j | 0 <= i < |b| && 0 <= j < |b| && b[i].id == b[j].id
      ensures b[i] == b[j]
    {
      assert b[i] in multiset(a) && b[j] in multiset(a);
      var p :| 0 <= p < |a| && a[p] == b[i];
      var q :| 0 <= q < |a| && a[q] == b[j];
    }
  }

  /** The messages of one thread keep the unique ids of the table they come from. */
  lemma InThreadUnique(s: seq<Message>, threadId: nat)
    requires UniqueIds(s)
    ensures UniqueIds(InThread(s, threadId))
  {
    var r := InThread(s, threadId);
    forall i, j | 0 <= i < |r| && 0 <= j < |r| && r[i].id == r[j].id
      ensures r[i] == r[j]
    {
      assert r[i] in s && r[j] in s;
    }
  }

  /** Two ordered arrangements of the same messages with distinct ids start with the same message. */
  lemma HeadsAgree(a: seq<Message>, b: seq<Message>)
    requires Ordered(a) && Ordered(b)
    requires multiset(a) == multiset(b)
    requires UniqueIds(a)
    requires |a| > 0 && |b| > 0
    ensures a[0] == b[0]
  {
    assert a[0] in multiset(b);
    var j :| 0 <= j < |b| && b[j] == a[0];
    assert b[0] in multiset(a);
    var i :| 0 <= i < |a| && a[i] == b[0];
    assert ListedBefore(a[0], a[i]);
    assert ListedBefore(b[0], b[j]);
  }

  /**
   * When ids are distinct the listing order is determined: any two ordered
   * arrangements of the same messages are equal, so Sort gives the only
   * answer an ORDER BY created_at DESC, id DESC can give.
   */
  lemma {:induction false} OrderedUnique(a: seq<Message>, b: seq<Message>)
    requires Ordered(a) && Ordered(b)
    requires multiset(a) == multiset(b)
    requires UniqueIds(a)
    ensures a == b
    decreases |a|
  {
    assert |a| == |multiset(a)| == |multiset(b)| == |b|;
    if |a| > 0 {
      HeadsAgree(a, b);
      TailMultiset(a);
      TailMultiset(b);
      UniqueTail(a);
      OrderedUnique(a[1..], b[1..]);
      assert a == [a[0]] + a[1..];
      assert b == [b[0]] + b[1..];
    }
  }

  /** With unique ids, Sort returns the one ordered arrangement of its input. */
  lemma SortIsTheOrder(s: seq<Message>, L: seq<Message>)
    requires UniqueIds(s)
    requires Ordered(L) && multiset(L) == multiset(s)
    ensures Sort(s) == L
  {
    UniqueIdsPermutation(s, Sort(s));
    OrderedUnique(Sort(s), L);
  }

  /** Sorting keeps exactly the messages it was given. */
  lemma SortKeepsMembers(s: seq<Message>)
    ensures forall x :: x in Sort(s) <==> x in s
  {
    assert forall x :: x in Sort(s) <==> x in multiset(Sort(s));
    assert forall x :: x in s <==> x in multiset(s);
  }

  /** A page of a sorted thread is ordered and holds only stored messages of that thread. */
  lemma ThreadPageMembers(s: seq<Message>, threadId: nat, page: int)
    ensures Ordered(Page(Sort(InThread(s, threadId)), page))
    ensures forall i :: 0 <= i < |Page(Sort(InThread(s, threadId)), page)| ==>
              Page(Sort(InThread(s, threadId)), page)[i].threadId == threadId
              && Page(Sort(InThread(s, threadId)), page)[i] in s
  {
    var thread := InThread(s, threadId);
    var listing := Sort(thread);
    var r := Page(listing, page);
    SortKeepsMembers(thread);
    forall i | 0 <= i < |r|
      ensures r[i].threadId == threadId && r[i] in s
    {
      assert r[i] == listing[PageStart(page) + i];
      assert r[i] in thread;
    }
  }

  /** The page a request asks for: page numbers below 1 read as page 1, as the paginator does. */
  function PageNumber(page: int): (p: nat)
    ensures p >= 1
    ensures page >= 1 ==> p == page
    ensures page < 1 ==> p == 1
  {
    if page >= 1 then page else 1
  }

  /** Index of the first message on a page. */
  function PageStart(page: int): nat {
    (PageNumber(page) - 1) * PageSize
  }

  /**
   * One page of a listing: the messages at positions (p - 1) * 15 up to but
   * excluding p * 15, cut short at the end of the listing.
   */
  function Page(s: seq<Message>, page: int): (r: seq<Message>)
    ensures |r| <= PageSize
    ensures |r| == if PageStart(page) >= |s| then 0 else if |s| - PageStart(page) < PageSize then |s| - PageStart(page) else PageSize
    ensures forall i :: 0 <= i < |r| ==> r[i] == s[PageStart(page) + i]
  {
    var lo := PageStart(page);
    if lo >= |s| then []
    else if |s| - lo < PageSize then s[lo..]
    else s[lo..lo + PageSize]
  }

  /** The message at position k of a listing is on page k / 15 + 1, at position k % 15. */
  lemma PageHolds(s: seq<Message>, k: nat)
    requires k < |s|
    ensures k % PageSize < |Page(s, k / PageSize + 1)|
    ensures Page(s, k / PageSize + 1)[k % PageSize] == s[k]
  {
  }

  /** Everything on an earlier page is listed ahead of everything on a later page. */
  lemma PagesInOrder(s: seq<Message>, p: int, q: int, i: nat, j: nat)
    requires Ordered(s)
    requires 1 <= p < q
    requires i < |Page(s, p)| && j < |Page(s, q)|
    ensures ListedBefore(Page(s, p)[i], Page(s, q)[j])
  {
  }
}
