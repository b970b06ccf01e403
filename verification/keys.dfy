/**
 * The "ROLE_id" strings that name an account inside chat messages and chat
 * lists: how the controller builds them, and how the ledger hook takes them
 * apart again with PHP's explode.
 */
module Keys {
  import opened Options

  /** The character between the role and the id. */
  const Separator: char := '_'

  predicate IsDigit(c: char) {
    '0' <= c <= '9'
  }

  predicate AllDigits(s: string) {
    forall i :: 0 <= i < |s| ==> IsDigit(s[i])
  }

  function DigitChar(d: nat): (c: char)
    requires d < 10
    ensures IsDigit(c)
  {
    ('0' as int + d) as char
  }

  function DigitValue(c: char): (d: nat)
    requires IsDigit(c)
    ensures d < 10 && DigitChar(d) == c
  {
    c as int - '0' as int
  }

  /** The decimal numeral of n, as string concatenation renders an integer id. */
  function Decimal(n: nat): (s: string)
    ensures |s| >= 1 && AllDigits(s)
    ensures s[0] == '0' ==> n == 0
    decreases n
  {
    if n < 10 then [DigitChar(n)] else Decimal(n / 10) + [DigitChar(n % 10)]
  }

  /** The number spelled by a run of decimal digits; leading zeros are allowed. */
  function DigitsValue(s: string): nat
    requires AllDigits(s)
  {
    if |s| == 0 then 0 else DigitsValue(s[..|s| - 1]) * 10 + DigitValue(s[|s| - 1])
  }

  /**
   * The primary key a key piece selects when it is handed to find: the number
   * it spells when it is a non-empty run of decimal digits, none otherwise.
   */
  function ParseId(piece: string): (r: Option<nat>)
    ensures r.Some? <==> |piece| >= 1 && AllDigits(piece)
  {
    if |piece| >= 1 && AllDigits(piece) then Some(DigitsValue(piece)) else None
  }

  lemma DigitsValueSnoc(s: string, c: char)
    requires AllDigits(s) && IsDigit(c)
    ensures AllDigits(s + [c])
    ensures DigitsValue(s + [c]) == DigitsValue(s) * 10 + DigitValue(c)
  {
  }

  /** Reading back the numeral of an id gives the id. */
  lemma {:induction false} DecimalRoundTrip(n: nat)
    ensures ParseId(Decimal(n)) == Some(n)
    decreases n
  {
    if n >= 10 {
      DecimalRoundTrip(n / 10);
      DigitsValueSnoc(Decimal(n / 10), DigitChar(n % 10));
    } else {
      DigitsValueSnoc([], DigitChar(n));
      assert [] + [DigitChar(n)] == Decimal(n);
    }
  }

  lemma {:induction false} LeadingDigitPositive(s: string)
    requires |s| >= 1 && AllDigits(s) && s[0] != '0'
    ensures DigitsValue(s) >= 1
    decreases |s|
  {
    if |s| > 1 {
      LeadingDigitPositive(s[..|s| - 1]);
    }
  }

  /** A numeral without leading zeros is the numeral of the number it spells. */
  lemma {:induction false} DecimalOfDigits(s: string)
    requires |s| >= 1 && AllDigits(s)
    requires s[0] != '0' || |s| == 1
    ensures Decimal(DigitsValue(s)) == s
    decreases |s|
  {
    if |s| > 1 {
      var init := s[..|s| - 1];
      var last := s[|s| - 1];
      LeadingDigitPositive(init);
      DecimalOfDigits(init);
      assert s == init + [last];
    }
  }

  /**
   * Splits s at every separator, as explode("_", s) does: k separators give
   * k + 1 pieces, empty pieces included, and no piece holds a separator.
   */
  function Explode(s: string): (pieces: seq<string>)
    ensures |pieces| >= 1
    ensures forall i :: 0 <= i < |pieces| ==> Separator !in pieces[i]
    ensures |pieces| >= 2 <==> Separator in s
    decreases |s|
  {
    if |s| == 0 then [""]
    else
      var rest := Explode(s[1..]);
      assert Separator in s <==> s[0] == Separator || Separator in s[1..] by {
        assert s == [s[0]] + s[1..];
      }
      if s[0] == Separator then [""] + rest
      else [[s[0]] + rest[0]] + rest[1..]
  }

  /** Glues pieces together with the separator, as implode("_", pieces) does. */
  function Join(pieces: seq<string>): string
    requires |pieces| >= 1
  {
    if |pieces| == 1 then pieces[0] else pieces[0] + [Separator] + Join(pieces[1..])
  }

  /** Gluing the pieces back together gives the original string. */
  lemma {:induction false} JoinExplode(s: string)
    ensures Join(Explode(s)) == s
    decreases |s|
  {
    if |s| > 0 {
      var rest := Explode(s[1..]);
      JoinExplode(s[1..]);
      if s[0] == Separator {
        assert ([""] + rest)[1..] == rest;
      } else if |rest| > 1 {
        assert ([[s[0]] + rest[0]] + rest[1..])[1..] == rest[1..];
        assert Join(rest) == rest[0] + [Separator] + Join(rest[1..]);
      }
    }
  }

  lemma {:induction false} ExplodePlain(a: string)
    requires Separator !in a
    ensures Explode(a) == [a]
    decreases |a|
  {
    if |a| > 0 {
      ExplodePlain(a[1..]);
      assert a == [a[0]] + a[1..];
    }
  }

  lemma {:induction false} ExplodeFirstPiece(a: string, t: string)
    requires Separator !in a
    ensures Explode(a + [Separator] + t) == [a] + Explode(t)
    decreases |a|
  {
    var s := a + [Separator] + t;
    if |a| == 0 {
      assert s[1..] == t;
    } else {
      assert s[1..] == a[1..] + [Separator] + t;
      ExplodeFirstPiece(a[1..], t);
      assert [s[0]] + a[1..] == a;
    }
  }

  /** Splitting glued separator-free pieces gives the pieces back. */
  lemma {:induction false} ExplodeJoin(pieces: seq<string>)
    requires |pieces| >= 1
    requires forall i :: 0 <= i < |pieces| ==> Separator !in pieces[i]
    ensures Explode(Join(pieces)) == pieces
    decreases |pieces|
  {
    if |pieces| == 1 {
      ExplodePlain(pieces[0]);
    } else {
      ExplodeFirstPiece(pieces[0], Join(pieces[1..]));
      ExplodeJoin(pieces[1..]);
    }
  }

  /**
   * The chat-list key of an account: its user type, the separator, then its id
   * in decimal. The text after the first |userType| + 1 characters reads back
   * as the id.
   */
  function AccountKey(userType: string, id: nat): (key: string)
    ensures |key| > |userType| + 1
    ensures key[..|userType|] == userType && key[|userType|] == Separator
    ensures ParseId(key[|userType| + 1..]) == Some(id)
  {
    DecimalRoundTrip(id);
    var key := userType + [Separator] + Decimal(id);
    assert key[|userType| + 1..] == Decimal(id);
    key
  }

  /** The two pieces the ledger hook reads from a key. */
  datatype KeyParts = KeyParts(role: string, idPart: string)

  /**
   * Reads a key the way the ledger hook does: the first piece is the role and
   * the second the id; further pieces are ignored, and a key without a
   * separator has no id piece at all.
   */
  function SplitKey(key: string): (r: Option<KeyParts>)
    ensures r.Some? <==> Separator in key
    ensures r.Some? ==> Separator !in r.value.role && Separator !in r.value.idPart
    ensures r.Some? ==> r.value.role == Explode(key)[0] && r.value.idPart == Explode(key)[1]
  {
    var pieces := Explode(key);
    if |pieces| < 2 then None else Some(KeyParts(pieces[0], pieces[1]))
  }

  /** The first piece of a key: its role, present even when the separator is not. */
  function RolePiece(key: string): string {
    Explode(key)[0]
  }

  /** Splitting a key built from a separator-free user type gives back that user type and the id. */
  lemma KeyRoundTrip(userType: string, id: nat)
    requires Separator !in userType
    ensures SplitKey(AccountKey(userType, id)) == Some(KeyParts(userType, Decimal(id)))
    ensures RolePiece(AccountKey(userType, id)) == userType
    ensures ParseId(Decimal(id)) == Some(id)
  {
    var digits := Decimal(id);
    assert Separator !in digits by {
      assert forall i :: 0 <= i < |digits| ==> digits[i] != Separator;
    }
    assert Join([userType, digits]) == userType + [Separator] + Join([digits]);
    ExplodeJoin([userType, digits]);
    DecimalRoundTrip(id);
  }

  /**
   * Conversely, a key of exactly two pieces whose id piece is a numeral
   * without leading zeros is the key built from those two pieces.
   */
  lemma KeyFromParts(key: string)
    requires |Explode(key)| == 2
    requires ParseId(Explode(key)[1]).Some?
    requires Explode(key)[1][0] != '0' || |Explode(key)[1]| == 1
    ensures AccountKey(Explode(key)[0], ParseId(Explode(key)[1]).value) == key
  {
    var pieces := Explode(key);
    JoinExplode(key);
    DecimalOfDigits(pieces[1]);
    assert Join(pieces) == pieces[0] + [Separator] + pieces[1];
  }

  /**
   * A user type holding the separator does not survive the round trip:
   * the key of user type "MENTOR_5" and id 7 splits into role "MENTOR"
   * and id piece "5".
   */
  lemma UnderscoreRoleKey()
    ensures SplitKey(AccountKey("MENTOR_5", 7)) == Some(KeyParts("MENTOR", "5"))
    ensures ParseId("5") == Some(5)
  {
    assert Decimal(7) == "7" && Decimal(5) == "5";
    assert AccountKey("MENTOR_5", 7) == Join(["MENTOR", "5", "7"]);
    ExplodeJoin(["MENTOR", "5", "7"]);
    DecimalRoundTrip(5);
  }
}
