/** Fresh message IDs. The library draws a random UUID per message; the model
    issues IDs from a counter, which is enough to state that no ID is ever
    issued twice. */
module MessageIds {

  function Digit(d: nat): (c: char)
    requires d < 10
  {
    "0123456789"[d]
  }

  /** Decimal notation of `n`. */
  function Decimal(n: nat): (s: string)
    ensures |s| >= 1
    ensures n >= 10 ==> |s| >= 2
  {
    if n < 10 then [Digit(n)] else Decimal(n / 10) + [Digit(n % 10)]
  }

  /** Different numbers have different notations, so a counter gives
      distinct IDs. */
  lemma {:induction false} DecimalInjective(a: nat, b: nat)
    ensures Decimal(a) == Decimal(b) ==> a == b
  {
    if Decimal(a) == Decimal(b) {
      if a >= 10 && b >= 10 {
        var da, db := Decimal(a), Decimal(b);
        assert da[|da| - 1] == Digit(a % 10) && db[|db| - 1] == Digit(b % 10);
        assert Decimal(a / 10) == da[..|da| - 1] == db[..|db| - 1] == Decimal(b / 10);
        DecimalInjective(a / 10, b / 10);
      }
    }
  }

  class MessageIdGenerator {
    var counter: nat
    /** Every ID issued so far. */
    ghost var Issued: set<string>

    ghost predicate Valid()
      reads this
    {
      Issued == set k | 0 <= k < counter :: Decimal(k)
    }

    constructor ()
      ensures Valid() && Issued == {}
    {
      counter := 0;
      Issued := {};
    }

    /** `MessageHelperMethods.createRandomMessageID`: a non-empty ID that was
        never issued before. */
    method Next() returns (id: string)
      requires Valid()
      modifies this
      ensures Valid()
      ensures |id| > 0
      ensures id !in old(Issued)
      ensures Issued == old(Issued) + {id}
    {
      id := Decimal(counter);
      if id in Issued {
        var k :| 0 <= k < counter && Decimal(k) == id;
        DecimalInjective(k, counter);
        assert false;
      }
      counter := counter + 1;
      Issued := Issued + {id};
    }
  }
}
