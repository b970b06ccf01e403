/**
 * The Mentor and Mentee tables as far as the chat flow uses them: each row is
 * an account id with an integer homi balance.
 */
module Accounts {

  /** The two account tables. */
  datatype Table = Mentor | Mentee

  /** One row of one table, as Mentor::find or Mentee::find selects it. */
  datatype Account = Account(table: Table, id: nat)

  /** Homi balances of both tables, keyed by account id; a missing key is a missing row. */
  datatype Ledger = Ledger(mentors: map<nat, int>, mentees: map<nat, int>)

  /** The table a user type selects: exactly "MENTOR" selects the mentor table, any other value the mentee table. */
  function TableFor(userType: string): (t: Table)
    ensures t == Mentor <==> userType == "MENTOR"
  {
    if userType == "MENTOR" then Mentor else Mentee
  }

  function Rows(l: Ledger, t: Table): map<nat, int> {
    match t
    case Mentor => l.mentors
    case Mentee => l.mentees
  }

  /** The account's row exists, so find returns it rather than null. */
  predicate Has(l: Ledger, a: Account) {
    a.id in Rows(l, a.table)
  }

  /** The account's balance, with a missing row read as 0. */
  function Homi(l: Ledger, a: Account): (h: int)
    ensures !Has(l, a) ==> h == 0
  {
    if Has(l, a) then Rows(l, a.table)[a.id] else 0
  }

  /** Two ledgers with the same rows and the same balances are the same ledger. */
  lemma LedgerExtensionality(l: Ledger, l': Ledger)
    requires forall a :: Has(l, a) <==> Has(l', a)
    requires forall a :: Homi(l, a) == Homi(l', a)
    ensures l == l'
  {
    forall id | id in l.mentors
      ensures id in l'.mentors && l.mentors[id] == l'.mentors[id]
    {
      assert Has(l, Account(Mentor, id));
      assert Homi(l, Account(Mentor, id)) == Homi(l', Account(Mentor, id));
    }
    forall id | id in l.mentees
      ensures id in l'.mentees && l.mentees[id] == l'.mentees[id]
    {
      assert Has(l, Account(Mentee, id));
      assert Homi(l, Account(Mentee, id)) == Homi(l', Account(Mentee, id));
    }
    forall id | id in l'.mentors
      ensures id in l.mentors
    {
      assert Has(l', Account(Mentor, id));
    }
    forall id | id in l'.mentees
      ensures id in l.mentees
    {
      assert Has(l', Account(Mentee, id));
    }
  }

  /**
   * The ledger after an existing account's balance moves by delta, as
   * increment('homi') (delta 1) and decrement('homi') (delta -1) do. No row
   * appears or disappears, and no other balance moves.
   */
  function Adjust(l: Ledger, a: Account, delta: int): (r: Ledger)
    requires Has(l, a)
    ensures forall b :: Has(r, b) <==> Has(l, b)
    ensures forall b :: Homi(r, b) == Homi(l, b) + (if b == a then delta else 0)
  {
    match a.table
    case Mentor => l.(mentors := l.mentors[a.id := l.mentors[a.id] + delta])
    case Mentee => l.(mentees := l.mentees[a.id := l.mentees[a.id] + delta])
  }

  ghost function PickKey(m: map<nat, int>): (k: nat)
    requires |m| > 0
    ensures k in m
  {
    assert |m.Keys| > 0;
    var k :| k in m.Keys;
    k
  }

  /** The sum of all balances in one table. */
  ghost function SumMap(m: map<nat, int>): int
    decreases |m|
  {
    if |m| == 0 then 0
    else
      var k := PickKey(m);
      assert (m - {k}).Keys == m.Keys - {k};
      m[k] + SumMap(m - {k})
  }

  /** The sum of all balances in both tables. */
  ghost function Total(l: Ledger): int {
    SumMap(l.mentors) + SumMap(l.mentees)
  }

  /** Any key, not only the one SumMap picks, can be taken out of the sum. */
  lemma {:induction false} SumMapRemove(m: map<nat, int>, k: nat)
    requires k in m
    ensures SumMap(m) == m[k] + SumMap(m - {k})
    decreases |m|
  {
    var j := PickKey(m);
    if j != k {
      assert (m - {j}).Keys == m.Keys - {j};
      assert (m - {k}).Keys == m.Keys - {k};
      SumMapRemove(m - {j}, k);
      SumMapRemove(m - {k}, j);
      assert m - {j} - {k} == m - {k} - {j};
    }
  }

  lemma SumMapUpdate(m: map<nat, int>, k: nat, v: int)
    requires k in m
    ensures SumMap(m[k := v]) == SumMap(m) - m[k] + v
  {
    SumMapRemove(m, k);
    SumMapRemove(m[k := v], k);
    assert m[k := v] - {k} == m - {k};
  }

  /** Setting one mentor balance moves the total homi by the difference. */
  lemma TotalMentorUpdate(l: Ledger, id: nat, v: int)
    requires id in l.mentors
    ensures Total(l.(mentors := l.mentors[id := v])) == Total(l) - l.mentors[id] + v
  {
    SumMapUpdate(l.mentors, id, v);
  }

  /** Setting one mentee balance moves the total homi by the difference. */
  lemma TotalMenteeUpdate(l: Ledger, id: nat, v: int)
    requires id in l.mentees
    ensures Total(l.(mentees := l.mentees[id := v])) == Total(l) - l.mentees[id] + v
  {
    SumMapUpdate(l.mentees, id, v);
  }

  /** Moving one balance by delta moves the total homi by exactly delta. */
  lemma AdjustTotal(l: Ledger, a: Account, delta: int)
    requires Has(l, a)
    ensures Total(Adjust(l, a, delta)) == Total(l) + delta
  {
    match a.table
    case Mentor => TotalMentorUpdate(l, a.id, l.mentors[a.id] + delta);
    case Mentee => TotalMenteeUpdate(l, a.id, l.mentees[a.id] + delta);
  }
}
