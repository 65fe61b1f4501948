/** Ids of the messages an agent sends (`newID` in uni_agent/internal/transport/client.go). */
module EnvelopeId {
  import opened Decimal
  import opened UpgradeProtocol

  const WORD: nat := 0x1_0000_0000_0000_0000
  const MAX_ID_LEN := 64

  /** The clock in nanoseconds, then the last three digits of the sequence number, unpadded. */
  function Id(nanos: int, n: nat): string {
    Itoa(nanos) + Format(n % 1000)
  }

  /** Clock readings between September 2001 and November 2286 have 19 digits. */
  predicate Digits19(nanos: int) {
    Pow10(18) <= nanos < Pow10(19)
  }

  /** `idSeq` and what it has produced: call `k` (from 1) read the clock as `clocks[k - 1]`. */
  class IdSource {
    var idSeq: nat
    ghost var clocks: seq<int>
    ghost var issued: seq<string>

    ghost predicate Valid()
      reads this
    {
      && idSeq == |issued| % WORD && |clocks| == |issued|
      && forall k :: 0 <= k < |issued| ==> issued[k] == Id(clocks[k], (k + 1) % WORD)
    }

    constructor ()
      ensures Valid() && issued == []
    {
      idSeq, clocks, issued := 0, [], [];
    }

    method NewID(nanos: int) returns (id: string)
      requires Valid()
      modifies this
      ensures Valid() && issued == old(issued) + [id] && clocks == old(clocks) + [nanos]
      ensures IsDecimalId(id) <==> nanos >= 0
      ensures Digits19(nanos) ==> 20 <= |id| <= 22 < MAX_ID_LEN
    {
      hide Format, Itoa, Pow10, IsDecimalId;
      NextSeq(|issued|);
      idSeq := (idSeq + 1) % WORD;
      id := Itoa(nanos) + Format(idSeq % 1000);
      DecimalIds(nanos, idSeq);
      if Digits19(nanos) {
        IdLength(nanos, idSeq);
      }
      issued, clocks := issued + [id], clocks + [nanos];
    }

    /**
      Two ids of one process with clock readings of one length are equal exactly if the clock read the
      same and 1000 divides their distance.
     */
    lemma Unique(i: nat, j: nat)
      requires Valid() && i < j < |issued| < WORD && |Itoa(clocks[i])| == |Itoa(clocks[j])|
      ensures issued[i] == issued[j] <==> clocks[i] == clocks[j] && (j - i) % 1000 == 0
    {
      hide Id, Itoa;
      InjectivePerLength(clocks[i], i + 1, clocks[j], j + 1);
      SameResidue(i + 1, j + 1);
    }
  }

  lemma NextSeq(n: nat)
    ensures (n % WORD + 1) % WORD == (n + 1) % WORD
  {
  }

  lemma SameResidue(a: nat, b: nat)
    requires a <= b
    ensures a % 1000 == b % 1000 <==> (b - a) % 1000 == 0
  {
  }

  lemma DecimalIds(nanos: int, n: nat)
    ensures IsDecimalId(Id(nanos, n)) <==> nanos >= 0
  {
    if nanos < 0 {
      assert Id(nanos, n)[0] == '-';
    }
  }

  lemma IdLength(nanos: int, n: nat)
    requires Digits19(nanos)
    ensures |Format(nanos)| == 19 && 20 <= |Id(nanos, n)| <= 22
  {
    FormatLength(nanos, 18);
    FormatLength(nanos, 19);
    SuffixLength(n);
  }

  lemma ItoaInjective(a: int, b: int)
    requires Itoa(a) == Itoa(b)
    ensures a == b
  {
    ItoaSign(a);
    ItoaSign(b);
    if a < 0 && b < 0 {
      assert Format(-a) == Itoa(a)[1..] && Format(-b) == Itoa(b)[1..];
      FormatInjective(-a, -b);
    } else if a >= 0 && b >= 0 {
      FormatInjective(a, b);
    }
  }

  lemma ItoaSign(a: int)
    ensures Itoa(a) != "" && (Itoa(a)[0] == '-' <==> a < 0)
  {
  }

  /** Among readings printed with the same length, an id determines the reading and the sequence number modulo 1000. */
  lemma InjectivePerLength(a: int, m: nat, b: int, n: nat)
    requires |Itoa(a)| == |Itoa(b)|
    ensures Id(a, m) == Id(b, n) <==> a == b && m % 1000 == n % 1000
  {
    if Id(a, m) == Id(b, n) {
      var k := |Itoa(a)|;
      assert Itoa(a) == Id(a, m)[..k] == Id(b, n)[..k] == Itoa(b);
      assert Format(m % 1000) == Id(a, m)[k..] == Id(b, n)[k..] == Format(n % 1000);
      ItoaInjective(a, b);
      FormatInjective(m % 1000, n % 1000);
    }
  }

  /** So it does with 19-digit readings. */
  lemma Injective(a: int, m: nat, b: int, n: nat)
    requires Digits19(a) && Digits19(b)
    ensures Id(a, m) == Id(b, n) <==> a == b && m % 1000 == n % 1000
  {
    IdLength(a, m);
    IdLength(b, n);
    InjectivePerLength(a, m, b, n);
  }

  /** One numeral is the other with one or two digits appended, the first of which is not 0. */
  predicate Continues(a: string, b: string) {
    |a| < |b| <= |a| + 2 && a == b[..|a|] && b[|a|] != '0'
  }

  /** Readings printed with different lengths share an id for some sequence numbers just in that case. */
  lemma CollisionIsExact(a: int, b: int)
    requires |Itoa(a)| < |Itoa(b)|
    ensures (exists m: nat, n: nat :: Id(a, m) == Id(b, n)) <==> Continues(Itoa(a), Itoa(b))
  {
    hide Id, Itoa;
    forall m: nat, n: nat | Id(a, m) == Id(b, n) ensures Continues(Itoa(a), Itoa(b)) {
      CollisionContinues(a, m, b, n);
    }
    if Continues(Itoa(a), Itoa(b)) {
      var m, n := ContinuedCollides(a, b);
    }
  }

  lemma CollisionContinues(a: int, m: nat, b: int, n: nat)
    requires |Itoa(a)| < |Itoa(b)| && Id(a, m) == Id(b, n)
    ensures Continues(Itoa(a), Itoa(b))
  {
    hide Itoa, Format;
    SuffixLength(m);
    var k := |Itoa(a)|;
    assert Itoa(a) == Id(a, m)[..k] && Itoa(b)[..k] == Id(b, n)[..k];
    assert Format(m % 1000)[0] == Id(a, m)[k] && Itoa(b)[k] == Id(b, n)[k];
  }

  lemma ContinuedCollides(a: int, b: int) returns (m: nat, n: nat)
    requires Continues(Itoa(a), Itoa(b))
    ensures Id(a, m) == Id(b, n)
  {
    hide Itoa, Format, Value;
    var tail := Itoa(b)[|Itoa(a)|..];
    ItoaSign(a);
    TailDigits(b, |Itoa(a)|);
    m, n := Value(tail + "0"), 0;
    FormatOfValue(tail + "0");
    SuffixLength(m);
    FormatLength(m, 3);
    ThousandIsPow();
    OneDigit(0);
    assert Itoa(b) == Itoa(a) + tail;
    assert Itoa(a) + (tail + "0") == Itoa(a) + tail + "0";
  }

  lemma TailDigits(b: int, k: nat)
    requires 0 < k <= |Itoa(b)|
    ensures AllDigits(Itoa(b)[k..])
  {
    hide Format;
  }

  lemma ThousandIsPow()
    ensures Pow10(3) == 1000
  {
    assert Pow10(1) == 10 * Pow10(0) && Pow10(2) == 10 * Pow10(1) && Pow10(3) == 10 * Pow10(2);
  }

  lemma SuffixLength(n: nat)
    ensures 1 <= |Format(n % 1000)| <= 3
  {
    ThousandIsPow();
    FormatLength(n % 1000, 3);
  }

  /** So a clock that still counts from 1970 never collides with one that has been set. */
  lemma FarLengthsNeverCollide(a: int, m: nat, b: int, n: nat)
    requires |Itoa(a)| + 2 < |Itoa(b)|
    ensures Id(a, m) != Id(b, n)
  {
    hide Id, Itoa;
    CollisionIsExact(a, b);
  }

  /**
    Without a common length the boundary between the two numbers is lost: every reading of 18 digits
    collides with readings of 19 digits, those it becomes when a digit is appended.
   */
  lemma LengthsMatter(a: nat, c: nat, n: nat)
    requires Pow10(17) <= a < Pow10(18) && 0 < c < 10 && n < 10
    ensures Digits19(10 * a + c) && Id(a, 10 * c + n) == Id(10 * a + c, n)
  {
    hide *;
    NineteenDigits(a, c);
    BoundaryLost(a, c, n);
  }

  lemma NineteenDigits(a: nat, c: nat)
    requires Pow10(17) <= a < Pow10(18) && c < 10
    ensures 0 < a && Digits19(10 * a + c)
  {
    TenTimes(17);
    TenTimes(18);
    hide Pow10;
  }

  lemma TenTimes(k: nat)
    ensures Pow10(k + 1) == 10 * Pow10(k)
  {
  }

  lemma BoundaryLost(a: nat, c: nat, n: nat)
    requires 0 < a && 0 < c < 10 && n < 10
    ensures Id(a, 10 * c + n) == Id(10 * a + c, n)
  {
    hide Format;
    DigitAppended(a, c);
    DigitAppended(c, n);
    OneDigit(c);
    OneDigit(n);
    assert Format(a) + ([Digit(c)] + [Digit(n)]) == Format(a) + [Digit(c)] + [Digit(n)];
  }

  lemma DigitAppended(a: nat, c: nat)
    requires 0 < a && c < 10
    ensures Format(10 * a + c) == Format(a) + [Digit(c)]
  {
    assert (10 * a + c) / 10 == a && (10 * a + c) % 10 == c;
  }

  lemma OneDigit(c: nat)
    requires c < 10
    ensures Format(c) == [Digit(c)]
  {
  }
}
