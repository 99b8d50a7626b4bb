/**
 * Next-identifier generation shared by the four repositories
 * (getNextCustomerId, getNextStaffId, getNextOrderId, getNextPaymentId):
 * take MAX(id) or the seed "<prefix>000", drop the first character, parse the
 * rest with Integer.parseInt, add 1 in 32-bit arithmetic and format the result
 * as "<prefix>%03d".
 */
module NextIds {
  import opened Wrappers

  // ----- Java int -----

  const INT_MIN: int := -0x8000_0000
  const INT_MAX: int := 0x7fff_ffff

  predicate IsInt32(x: int)
  {
    INT_MIN <= x <= INT_MAX
  }

  /** The value a Java int expression yields for the mathematical value x (two's-complement wrap-around). */
  function Wrap32(x: int): (r: int)
    ensures IsInt32(r)
    ensures (x - r) % 0x1_0000_0000 == 0
    ensures IsInt32(x) ==> r == x
  {
    if IsInt32(x) then x else (x - INT_MIN) % 0x1_0000_0000 + INT_MIN
  }

  /** Adding 1 to the largest int gives the smallest. */
  lemma Wrap32Overflow()
    ensures Wrap32(INT_MAX + 1) == INT_MIN
  {
  }

  // ----- Decimal digits -----

  predicate IsDigit(c: char)
  {
    '0' <= c <= '9'
  }

  predicate AllDigits(s: string)
  {
    forall i :: 0 <= i < |s| ==> IsDigit(s[i])
  }

  function DigitChar(d: nat): (c: char)
    requires d < 10
    ensures IsDigit(c) && c as int - '0' as int == d
  {
    (d + '0' as int) as char
  }

  /** The number a string of decimal digits denotes, read left to right (leading zeros allowed). */
  function DigitsValue(s: string): nat
    requires AllDigits(s)
  {
    if s == [] then 0 else DigitsValue(s[..|s| - 1]) * 10 + (s[|s| - 1] as int - '0' as int)
  }

  /** The decimal digits of n, without leading zeros ("0" for zero). */
  function Digits(n: nat): (r: string)
    ensures 1 <= |r| && AllDigits(r)
  {
    if n < 10 then [DigitChar(n)] else Digits(n / 10) + [DigitChar(n % 10)]
  }

  /** Digits writes n: reading its output back gives n. */
  lemma {:induction false} DigitsValueOfDigits(n: nat)
    ensures DigitsValue(Digits(n)) == n
  {
    if n >= 10 {
      var d := Digits(n);
      assert d[..|d| - 1] == Digits(n / 10);
      DigitsValueOfDigits(n / 10);
    }
  }

  function Zeros(k: nat): (r: string)
    ensures |r| == k && AllDigits(r)
    ensures forall i :: 0 <= i < k ==> r[i] == '0'
  {
    if k == 0 then [] else Zeros(k - 1) + ['0']
  }

  /** Left-pads s with zeros to the given width; longer strings are kept whole. */
  function PadLeft(s: string, width: nat): string
  {
    Zeros(if |s| < width then width - |s| else 0) + s
  }

  lemma {:induction false} ZerosValue(k: nat)
    ensures DigitsValue(Zeros(k)) == 0
  {
    if k > 0 {
      assert Zeros(k)[..k - 1] == Zeros(k - 1);
      ZerosValue(k - 1);
    }
  }

  /** Leading zeros do not change the value of a digit string. */
  lemma {:induction false} LeadingZerosValue(k: nat, s: string)
    requires AllDigits(s)
    ensures AllDigits(Zeros(k) + s) && DigitsValue(Zeros(k) + s) == DigitsValue(s)
    decreases |s|
  {
    var z := Zeros(k) + s;
    if s == [] {
      assert z == Zeros(k);
      ZerosValue(k);
    } else {
      assert z[..|z| - 1] == Zeros(k) + s[..|s| - 1];
      LeadingZerosValue(k, s[..|s| - 1]);
    }
  }

  // ----- Integer.parseInt and String.format("%03d") -----

  /** The digits after an optional sign: one or more decimal digits, else None. */
  function ParseUnsigned(body: string): Option<nat>
  {
    if body == [] || !AllDigits(body) then None else Some(DigitsValue(body))
  }

  /**
   * Integer.parseInt(s): an optional '-' or '+', then at least one decimal
   * digit, denoting a value in the int range; None where Java throws
   * NumberFormatException.
   */
  function ParseInt(s: string): (r: Option<int>)
    ensures r.Some? ==> IsInt32(r.value)
  {
    if s == [] then None
    else
      var body := if s[0] == '-' || s[0] == '+' then s[1..] else s;
      match ParseUnsigned(body)
      case None => None
      case Some(m) =>
        var v: int := if s[0] == '-' then -(m as int) else m;
        if IsInt32(v) then Some(v) else None
  }

  /** String.format("%03d", n): decimal, at least three characters, zeros inserted after a minus sign. */
  function Format03(n: int): string
  {
    if n >= 0 then PadLeft(Digits(n), 3) else "-" + PadLeft(Digits(-n), 2)
  }

  /** What Format03 writes for n >= 0: n's digits, never truncated, zero-padded to three. */
  lemma Format03NonNegative(n: int)
    requires n >= 0
    ensures AllDigits(Format03(n)) && DigitsValue(Format03(n)) == n
    ensures |Format03(n)| == if |Digits(n)| < 3 then 3 else |Digits(n)|
  {
    var d := Digits(n);
    LeadingZerosValue(if |d| < 3 then 3 - |d| else 0, d);
    DigitsValueOfDigits(n);
  }

  /** What Format03 writes for n < 0: a minus sign, then -n's digits zero-padded to two. */
  lemma Format03Negative(n: int)
    requires n < 0
    ensures |Format03(n)| >= 3 && Format03(n)[0] == '-'
    ensures AllDigits(Format03(n)[1..]) && DigitsValue(Format03(n)[1..]) == -n
  {
    var d := Digits(-n);
    var p := PadLeft(d, 2);
    assert |p| >= 2;
    assert AllDigits(p) && DigitsValue(p) == -n by {
      LeadingZerosValue(if |d| < 2 then 2 - |d| else 0, d);
      DigitsValueOfDigits(-n);
    }
    var s := Format03(n);
    assert s == "-" + p;
    assert s[1..] == p;
  }

  lemma Format03Length(n: int)
    ensures |Format03(n)| >= 3
  {
    if n >= 0 { Format03NonNegative(n); } else { Format03Negative(n); }
  }

  /** Round trip: parsing what Format03 writes gives back every int. */
  lemma ParseFormat03(n: int)
    requires IsInt32(n)
    ensures ParseInt(Format03(n)) == Some(n)
  {
    var s := Format03(n);
    if n < 0 {
      Format03Negative(n);
      assert s[0] == '-';
      assert ParseUnsigned(s[1..]) == Some(-n);
    } else {
      Format03NonNegative(n);
      assert IsDigit(s[0]);
      assert ParseUnsigned(s) == Some(n);
    }
  }

  /** Numbers of 1000 or more come out with all their digits (four or more). */
  lemma Format03Wide(n: int)
    requires n >= 1000
    ensures Format03(n) == Digits(n) && |Format03(n)| >= 4
  {
    var d1 := Digits(n / 10 / 10 / 10);
    var d2 := Digits(n / 10 / 10);
    var d3 := Digits(n / 10);
    assert d2 == d1 + [DigitChar(n / 10 / 10 % 10)];
    assert d3 == d2 + [DigitChar(n / 10 % 10)];
    assert Digits(n) == d3 + [DigitChar(n % 10)];
    assert Zeros(0) + Digits(n) == Digits(n);
  }

  /** Hundreds, tens and units digit of n. */
  function ThreeDigits(n: int): string
    requires 0 <= n < 1000
  {
    [DigitChar(n / 100), DigitChar(n / 10 % 10), DigitChar(n % 10)]
  }

  /** Below 1000, Format03 writes exactly three digits: hundreds, tens, units. */
  lemma Format03Small(n: int)
    requires 0 <= n < 1000
    ensures Format03(n) == ThreeDigits(n)
  {
    assert Zeros(0) == [];
    assert Zeros(1) == ['0'];
    assert Zeros(2) == ['0', '0'];
    if n >= 100 {
      assert Digits(n / 10) == Digits(n / 10 / 10) + [DigitChar(n / 10 % 10)];
      assert n / 10 / 10 == n / 100;
    } else if n >= 10 {
      assert n / 10 / 10 == 0;
    }
  }

  /** Sample outputs of Format03. */
  lemma Format03SmallSamples()
    ensures Format03(0) == "000" && Format03(1) == "001" && Format03(2) == "002" && Format03(999) == "999"
  {
    Format03Small(0);
    Format03Small(1);
    Format03Small(2);
    Format03Small(999);
  }

  /** 1000 is written in full, with four digits. */
  lemma Format03Sample1000()
    ensures Format03(1000) == "1000"
  {
    Format03Wide(1000);
    assert Digits(1000) == Digits(100) + ['0'];
    assert Digits(100) == Digits(10) + ['0'];
    assert Digits(10) == Digits(1) + ['0'];
  }

  // ----- The next-id computation -----

  /** What "SELECT MAX(id) AS max_id" gives the repository. */
  datatype MaxQuery =
    | QueryFailed     // the statement threw SQLException (caught and logged)
    | NoMax           // no row, or max_id is NULL: the table is empty
    | MaxId(id: string)

  /** The exceptions the id arithmetic can throw; nothing in the repositories catches them. */
  datatype IdError =
    | StringIndexOutOfBounds  // lastId.substring(1) on an empty id
    | NumberFormat            // Integer.parseInt on a suffix that is not an int

  /** lastId: the seed "<prefix>000" unless the query produced a non-null maximum. */
  function LastId(prefix: char, q: MaxQuery): (r: string)
    ensures q.MaxId? ==> r == q.id
    ensures !q.MaxId? ==> r == [prefix, '0', '0', '0']
  {
    match q
    case MaxId(id) => id
    case _ => [prefix, '0', '0', '0']
  }

  /** The shared body of the four getNext*Id methods. */
  function NextId(prefix: char, q: MaxQuery): (r: Result<string, IdError>)
    ensures r.Ok? ==> |r.value| >= 4 && r.value[0] == prefix
  {
    var lastId := LastId(prefix, q);
    if |lastId| < 1 then Err(StringIndexOutOfBounds)
    else
      match ParseInt(lastId[1..])
      case None => Err(NumberFormat)
      case Some(v) => Format03Length(Wrap32(v + 1)); Ok([prefix] + Format03(Wrap32(v + 1)))
  }

  /** The two exceptions, exactly when Java throws them. */
  lemma NextIdErrors(prefix: char, q: MaxQuery)
    ensures NextId(prefix, q) == Err(StringIndexOutOfBounds) <==> LastId(prefix, q) == []
    ensures NextId(prefix, q) == Err(NumberFormat) <==>
      |LastId(prefix, q)| >= 1 && ParseInt(LastId(prefix, q)[1..]).None?
    ensures NextId(prefix, q).Ok? <==> |LastId(prefix, q)| >= 1 && ParseInt(LastId(prefix, q)[1..]).Some?
  {
  }

  /** A parsable suffix v always yields an id: the prefix, then Format03 of v + 1 in int arithmetic. */
  lemma NextIdParsed(prefix: char, lastId: string, v: int)
    requires |lastId| >= 1 && ParseInt(lastId[1..]) == Some(v)
    ensures NextId(prefix, MaxId(lastId)) == Ok([prefix] + Format03(Wrap32(v + 1)))
  {
  }

  /**
   * From a suffix v with v + 1 >= 0, the new id is the prefix followed by the
   * decimal digits of v + 1 and nothing else, zero-padded to at least three.
   */
  lemma NextIdFormat(prefix: char, lastId: string, v: int)
    requires |lastId| >= 1 && ParseInt(lastId[1..]) == Some(v)
    requires -1 <= v < INT_MAX
    ensures NextId(prefix, MaxId(lastId)).Ok?
    ensures NextId(prefix, MaxId(lastId)).value[0] == prefix
    ensures AllDigits(NextId(prefix, MaxId(lastId)).value[1..])
    ensures DigitsValue(NextId(prefix, MaxId(lastId)).value[1..]) == v + 1
    ensures |NextId(prefix, MaxId(lastId)).value[1..]| == if |Digits(v + 1)| < 3 then 3 else |Digits(v + 1)|
  {
    var n := v + 1;
    assert Wrap32(n) == n;
    var r := [prefix] + Format03(n);
    assert NextId(prefix, MaxId(lastId)) == Ok(r) by {
      NextIdParsed(prefix, lastId, v);
    }
    assert r[1..] == Format03(n);
    Format03NonNegative(n);
  }

  /** An empty table and a failed query both give the first id, "<prefix>001". */
  lemma NextIdSeed(prefix: char)
    ensures NextId(prefix, NoMax) == Ok([prefix] + "001")
    ensures NextId(prefix, QueryFailed) == Ok([prefix] + "001")
  {
    Format03SmallSamples();
    ParseFormat03(0);
    var seed := [prefix, '0', '0', '0'];
    assert seed[1..] == Format03(0);
    NextIdParsed(prefix, seed, 0);
    assert Wrap32(0 + 1) == 1;
  }

  /** Round trip: the new id's suffix parses to the old suffix plus one in int arithmetic. */
  lemma NextIdRoundTrip(prefix: char, lastId: string, v: int)
    requires |lastId| >= 1 && ParseInt(lastId[1..]) == Some(v)
    ensures NextId(prefix, MaxId(lastId)).Ok?
    ensures ParseInt(NextId(prefix, MaxId(lastId)).value[1..]) == Some(Wrap32(v + 1))
  {
    NextIdParsed(prefix, lastId, v);
    var w := Wrap32(v + 1);
    var r := [prefix] + Format03(w);
    assert r[1..] == Format03(w);
    ParseFormat03(w);
    assert ParseInt(r[1..]) == Some(w);
  }

  /** Below the int maximum the new id's number is exactly one more than the last id's. */
  lemma NextIdIncrements(prefix: char, lastId: string, v: int)
    requires |lastId| >= 1 && ParseInt(lastId[1..]) == Some(v)
    requires v < INT_MAX
    ensures ParseInt(NextId(prefix, MaxId(lastId)).value[1..]) == Some(v + 1)
  {
    NextIdRoundTrip(prefix, lastId, v);
  }

  /** At the int maximum the increment wraps: the next number is the int minimum. */
  lemma NextIdWrapsAround(prefix: char, lastId: string)
    requires |lastId| >= 1 && ParseInt(lastId[1..]) == Some(INT_MAX)
    ensures ParseInt(NextId(prefix, MaxId(lastId)).value[1..]) == Some(INT_MIN)
    ensures NextId(prefix, MaxId(lastId)).value[1] == '-'
  {
    NextIdRoundTrip(prefix, lastId, INT_MAX);
    Wrap32Overflow();
    NextIdParsed(prefix, lastId, INT_MAX);
    Format03Negative(INT_MIN);
  }

  /** Only substring(1) is parsed: the first character of the last id plays no part. */
  lemma NextIdIgnoresFirstChar(prefix: char, c: char, d: char, rest: string)
    ensures NextId(prefix, MaxId([c] + rest)) == NextId(prefix, MaxId([d] + rest))
  {
    assert ([c] + rest)[1..] == rest == ([d] + rest)[1..];
  }

  /** Counting past 999 gives four digits with nothing cut off: "C999" is followed by "C1000". */
  lemma NextIdPast999(prefix: char, lastId: string, v: int)
    requires |lastId| >= 1 && ParseInt(lastId[1..]) == Some(v)
    requires 999 <= v < INT_MAX
    ensures NextId(prefix, MaxId(lastId)) == Ok([prefix] + Digits(v + 1))
    ensures |NextId(prefix, MaxId(lastId)).value| >= 5
  {
    NextIdParsed(prefix, lastId, v);
    var n := Wrap32(v + 1);
    assert n == v + 1;
    Format03Wide(n);
    assert [prefix] + Format03(n) == [prefix] + Digits(v + 1);
  }

  /**
   * Creating the first entity with the seed's successor makes the next id
   * "<prefix>002": "C001" then "C002" for customers.
   */
  lemma NextIdScenario(prefix: char)
    ensures NextId(prefix, NoMax) == Ok([prefix] + "001")
    ensures NextId(prefix, MaxId([prefix] + "001")) == Ok([prefix] + "002")
  {
    NextIdSeed(prefix);
    Format03SmallSamples();
    ParseFormat03(1);
    var first := [prefix] + "001";
    assert first[1..] == Format03(1);
    NextIdParsed(prefix, first, 1);
    assert Wrap32(1 + 1) == 2;
  }

  /** The id prefixes of the four tables. */
  const CUSTOMER_PREFIX: char := 'C'
  const STAFF_PREFIX: char := 'S'
  const ORDER_PREFIX: char := 'O'
  const PAYMENT_PREFIX: char := 'P'

  /** getNextCustomerId: customer ids "C000" (seed), "C001", ... */
  function NextCustomerId(q: MaxQuery): (r: Result<string, IdError>)
    ensures !q.MaxId? ==> r == Ok([CUSTOMER_PREFIX] + "001")
    ensures r.Ok? ==> |r.value| >= 4 && r.value[0] == CUSTOMER_PREFIX
  {
    NextIdSeed(CUSTOMER_PREFIX);
    NextId(CUSTOMER_PREFIX, q)
  }

  /** getNextStaffId: staff ids "S000" (seed), "S001", ... */
  function NextStaffId(q: MaxQuery): (r: Result<string, IdError>)
    ensures !q.MaxId? ==> r == Ok([STAFF_PREFIX] + "001")
    ensures r.Ok? ==> |r.value| >= 4 && r.value[0] == STAFF_PREFIX
  {
    NextIdSeed(STAFF_PREFIX);
    NextId(STAFF_PREFIX, q)
  }

  /** getNextOrderId: order ids "O000" (seed), "O001", ... */
  function NextOrderId(q: MaxQuery): (r: Result<string, IdError>)
    ensures !q.MaxId? ==> r == Ok([ORDER_PREFIX] + "001")
    ensures r.Ok? ==> |r.value| >= 4 && r.value[0] == ORDER_PREFIX
  {
    NextIdSeed(ORDER_PREFIX);
    NextId(ORDER_PREFIX, q)
  }

  /** getNextPaymentId: payment ids "P000" (seed), "P001", ... */
  function NextPaymentId(q: MaxQuery): (r: Result<string, IdError>)
    ensures !q.MaxId? ==> r == Ok([PAYMENT_PREFIX] + "001")
    ensures r.Ok? ==> |r.value| >= 4 && r.value[0] == PAYMENT_PREFIX
  {
    NextIdSeed(PAYMENT_PREFIX);
    NextId(PAYMENT_PREFIX, q)
  }
}
