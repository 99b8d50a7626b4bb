/**
 * How the repositories find the last id: "SELECT MAX(id)" compares ids as
 * strings. For ids whose number is below 1000 the zero-padded form makes string
 * order and numeric order agree; from 1000 on they part ways.
 */
module IdOrder {
  import opened Wrappers
  import opened NextIds

  /** String order by character codes: how MAX compares ids made of one letter and digits. */
  predicate LexLess(a: string, b: string)
  {
    if a == [] then b != []
    else if b == [] then false
    else if a[0] != b[0] then a[0] < b[0]
    else LexLess(a[1..], b[1..])
  }

  lemma {:induction false} LexLessIrreflexive(a: string)
    ensures !LexLess(a, a)
  {
    if a != [] {
      LexLessIrreflexive(a[1..]);
    }
  }

  /** A shared first character does not affect the comparison. */
  lemma LexLessSamePrefix(c: char, a: string, b: string)
    ensures LexLess([c] + a, [c] + b) == LexLess(a, b)
  {
    assert ([c] + a)[1..] == a && ([c] + b)[1..] == b;
  }

  /** Comparing two three-character strings, position by position. */
  lemma LexLess3(x: string, y: string)
    requires |x| == 3 && |y| == 3
    ensures LexLess(x, y) <==>
      x[0] < y[0] || (x[0] == y[0] && (x[1] < y[1] || (x[1] == y[1] && x[2] < y[2])))
  {
    var x1, y1 := x[1..], y[1..];
    var x2, y2 := x1[1..], y1[1..];
    assert !LexLess(x2[1..], y2[1..]);
    assert LexLess(x2, y2) <==> x[2] < y[2];
    assert LexLess(x1, y1) <==> x[1] < y[1] || (x[1] == y[1] && x[2] < y[2]);
  }

  /** Numbers written with three decimal digits compare like their digit triples. */
  lemma DecimalTripleOrder(a2: int, a1: int, a0: int, b2: int, b1: int, b0: int)
    requires 0 <= a2 < 10 && 0 <= a1 < 10 && 0 <= a0 < 10
    requires 0 <= b2 < 10 && 0 <= b1 < 10 && 0 <= b0 < 10
    ensures 100 * a2 + 10 * a1 + a0 < 100 * b2 + 10 * b1 + b0 <==>
      a2 < b2 || (a2 == b2 && (a1 < b1 || (a1 == b1 && a0 < b0)))
  {
  }

  /** Three-digit strings compare as strings exactly as their numbers compare. */
  lemma ThreeDigitOrder(a: int, b: int)
    requires 0 <= a < 1000 && 0 <= b < 1000
    ensures LexLess(ThreeDigits(a), ThreeDigits(b)) <==> a < b
  {
    LexLess3(ThreeDigits(a), ThreeDigits(b));
    var a2, a1, a0 := a / 100, a / 10 % 10, a % 10;
    var b2, b1, b0 := b / 100, b / 10 % 10, b % 10;
    assert a == 100 * a2 + 10 * a1 + a0;
    assert b == 100 * b2 + 10 * b1 + b0;
    DecimalTripleOrder(a2, a1, a0, b2, b1, b0);
  }

  /** Below 1000 the padded numbers compare as strings exactly as they compare as numbers. */
  lemma PaddedOrderBelow1000(a: int, b: int)
    requires 0 <= a < 1000 && 0 <= b < 1000
    ensures LexLess(Format03(a), Format03(b)) <==> a < b
  {
    Format03Small(a);
    Format03Small(b);
    ThreeDigitOrder(a, b);
  }

  /** The same for whole ids: one prefix letter, then the padded number. */
  lemma IdOrderBelow1000(prefix: char, a: int, b: int)
    requires 0 <= a < 1000 && 0 <= b < 1000
    ensures LexLess([prefix] + Format03(a), [prefix] + Format03(b)) <==> a < b
  {
    LexLessSamePrefix(prefix, Format03(a), Format03(b));
    PaddedOrderBelow1000(a, b);
  }

  /** At 1000 the orders disagree: "C1000" sorts before "C999". */
  lemma IdOrderFailsAt1000(prefix: char)
    ensures LexLess([prefix] + "1000", [prefix] + "999")
    ensures !LexLess([prefix] + "999", [prefix] + "1000")
  {
    LexLessSamePrefix(prefix, "1000", "999");
    LexLessSamePrefix(prefix, "999", "1000");
  }

  /** MAX over strings: the greatest under LexLess. */
  function LexMax(ids: seq<string>): string
    requires |ids| > 0
  {
    if |ids| == 1 then ids[0]
    else
      var m := LexMax(ids[..|ids| - 1]);
      if LexLess(m, ids[|ids| - 1]) then ids[|ids| - 1] else m
  }

  /** The numerically greatest element. */
  function NumMax(ns: seq<int>): (m: int)
    requires |ns| > 0
    ensures m in ns
    ensures forall i :: 0 <= i < |ns| ==> ns[i] <= m
  {
    if |ns| == 1 then ns[0]
    else
      var m := NumMax(ns[..|ns| - 1]);
      assert forall i :: 0 <= i < |ns| - 1 ==> ns[..|ns| - 1][i] == ns[i];
      if m < ns[|ns| - 1] then ns[|ns| - 1] else m
  }

  /** The ids "<prefix>%03d" of the given numbers. */
  function Ids(prefix: char, ns: seq<int>): (r: seq<string>)
    ensures |r| == |ns|
  {
    seq(|ns|, i requires 0 <= i < |ns| => [prefix] + Format03(ns[i]))
  }

  /** The same ids written digit by digit, for numbers below 1000. */
  function SmallIds(prefix: char, ns: seq<int>): (r: seq<string>)
    requires forall i :: 0 <= i < |ns| ==> 0 <= ns[i] < 1000
    ensures |r| == |ns|
  {
    seq(|ns|, i requires 0 <= i < |ns| => [prefix] + ThreeDigits(ns[i]))
  }

  lemma IdsAreSmallIds(prefix: char, ns: seq<int>)
    requires forall i :: 0 <= i < |ns| ==> 0 <= ns[i] < 1000
    ensures Ids(prefix, ns) == SmallIds(prefix, ns)
  {
    forall i | 0 <= i < |ns|
      ensures Ids(prefix, ns)[i] == SmallIds(prefix, ns)[i]
    {
      Format03Small(ns[i]);
    }
  }

  /** Three-digit ids compare as strings exactly as their numbers compare. */
  lemma SmallIdOrder(prefix: char, a: int, b: int)
    requires 0 <= a < 1000 && 0 <= b < 1000
    ensures LexLess([prefix] + ThreeDigits(a), [prefix] + ThreeDigits(b)) <==> a < b
  {
    LexLessSamePrefix(prefix, ThreeDigits(a), ThreeDigits(b));
    ThreeDigitOrder(a, b);
  }

  /** m is the greatest of ns: one of them, and no smaller than any. */
  predicate IsMaxOf(ns: seq<int>, m: int)
  {
    m in ns && forall i :: 0 <= i < |ns| ==> ns[i] <= m
  }

  /** A sequence has one greatest element. */
  lemma MaxUnique(ns: seq<int>, m: int, m': int)
    requires IsMaxOf(ns, m) && IsMaxOf(ns, m')
    ensures m == m'
  {
  }

  /**
   * One step of the induction below: with m the greatest of all but the last
   * number, MAX compares m's id with the last id, as the numbers compare.
   */
  lemma SmallMaxStep(prefix: char, ns: seq<int>, m: int)
    requires |ns| > 1
    requires forall i :: 0 <= i < |ns| ==> 0 <= ns[i] < 1000
    requires IsMaxOf(ns[..|ns| - 1], m)
    requires LexMax(SmallIds(prefix, ns[..|ns| - 1])) == [prefix] + ThreeDigits(m)
    ensures IsMaxOf(ns, if m < ns[|ns| - 1] then ns[|ns| - 1] else m)
    ensures LexMax(SmallIds(prefix, ns)) == [prefix] + ThreeDigits(if m < ns[|ns| - 1] then ns[|ns| - 1] else m)
  {
    var k := |ns| - 1;
    var ids, pre := SmallIds(prefix, ns), ns[..k];
    var fm, last := [prefix] + ThreeDigits(m), [prefix] + ThreeDigits(ns[k]);
    assert LexMax(ids[..k]) == fm by {
      assert ids[..k] == SmallIds(prefix, pre);
    }
    assert ids[k] == last;
    assert LexLess(fm, last) <==> m < ns[k] by {
      assert m in pre;
      SmallIdOrder(prefix, m, ns[k]);
    }
    assert IsMaxOf(ns, if m < ns[k] then ns[k] else m) by {
      assert forall i :: 0 <= i < k ==> pre[i] == ns[i];
    }
  }

  /** While all numbers are below 1000, MAX over the digit-by-digit ids is the greatest number's id. */
  lemma {:induction false} SmallMaxIsNumericMax(prefix: char, ns: seq<int>, m: int)
    requires IsMaxOf(ns, m)
    requires forall i :: 0 <= i < |ns| ==> 0 <= ns[i] < 1000
    ensures LexMax(SmallIds(prefix, ns)) == [prefix] + ThreeDigits(m)
  {
    if |ns| > 1 {
      var pre := ns[..|ns| - 1];
      var m' := NumMax(pre);
      SmallMaxIsNumericMax(prefix, pre, m');
      SmallMaxStep(prefix, ns, m');
      MaxUnique(ns, m, if m' < ns[|ns| - 1] then ns[|ns| - 1] else m');
    }
  }

  /** While all numbers are below 1000, the string MAX is the id of the numeric maximum. */
  lemma StringMaxIsNumericMax(prefix: char, ns: seq<int>, m: int)
    requires IsMaxOf(ns, m)
    requires forall i :: 0 <= i < |ns| ==> 0 <= ns[i] < 1000
    ensures LexMax(Ids(prefix, ns)) == [prefix] + Format03(m)
  {
    IdsAreSmallIds(prefix, ns);
    SmallMaxIsNumericMax(prefix, ns, m);
    Format03Small(m);
  }

  // ----- Next id over a whole table -----

  /** getNext*Id on a table holding exactly these ids: MAX(id) is their string maximum. */
  function TableNextId(prefix: char, ids: seq<string>): Result<string, IdError>
  {
    NextId(prefix, if ids == [] then NoMax else MaxId(LexMax(ids)))
  }

  /** Two numbers with the same formatted id are equal. */
  lemma Format03Injective(a: int, b: int)
    requires IsInt32(a) && IsInt32(b)
    requires Format03(a) == Format03(b)
    ensures a == b
  {
    ParseFormat03(a);
    ParseFormat03(b);
  }

  /** An id "<prefix>%03d" of n, for n greater than every number of the table, is not in the table. */
  lemma IdAboveMaxIsFresh(prefix: char, ns: seq<int>, n: int)
    requires IsInt32(n)
    requires forall i :: 0 <= i < |ns| ==> IsInt32(ns[i]) && ns[i] < n
    ensures [prefix] + Format03(n) !in Ids(prefix, ns)
  {
    if [prefix] + Format03(n) in Ids(prefix, ns) {
      var i :| 0 <= i < |ns| && Ids(prefix, ns)[i] == [prefix] + Format03(n);
      assert ([prefix] + Format03(ns[i]))[1..] == Format03(ns[i]);
      assert ([prefix] + Format03(n))[1..] == Format03(n);
      Format03Injective(ns[i], n);
    }
  }

  /** Next id from a well-formed table once the string maximum is known to be the id of the number m. */
  lemma NextIdAfterMax(prefix: char, m: int)
    requires 0 <= m < INT_MAX
    ensures NextId(prefix, MaxId([prefix] + Format03(m))) == Ok([prefix] + Format03(m + 1))
  {
    assert ([prefix] + Format03(m))[1..] == Format03(m);
    ParseFormat03(m);
    NextIdParsed(prefix, [prefix] + Format03(m), m);
  }

  /**
   * While every id of the table is below 1000, the string MAX finds the
   * largest one, m, and the generated id is m + 1's.
   */
  lemma TableNextIdBelow1000(prefix: char, ns: seq<int>, m: int)
    requires IsMaxOf(ns, m) && m < 1000
    requires forall i :: 0 <= i < |ns| ==> 0 <= ns[i]
    ensures TableNextId(prefix, Ids(prefix, ns)) == Ok([prefix] + Format03(m + 1))
  {
    assert forall i :: 0 <= i < |ns| ==> 0 <= ns[i] < 1000;
    NumericAgreesBelow1000(prefix, ns);
    NumericTableNextIdValue(prefix, ns, m);
  }

  /** While every id of the table is below 1000, the generated id is new. */
  lemma TableNextIdFreshBelow1000(prefix: char, ns: seq<int>)
    requires forall i :: 0 <= i < |ns| ==> 0 <= ns[i] < 1000
    ensures TableNextId(prefix, Ids(prefix, ns)).Ok?
    ensures TableNextId(prefix, Ids(prefix, ns)).value !in Ids(prefix, ns)
  {
    NumericAgreesBelow1000(prefix, ns);
    NumericTableNextIdFresh(prefix, ns);
  }

  /** The string maximum of "<prefix>999" and "<prefix>1000" is "<prefix>999". */
  lemma LexMaxAt1000(prefix: char)
    ensures LexMax([[prefix] + "999", [prefix] + "1000"]) == [prefix] + "999"
  {
    var ids := [[prefix] + "999", [prefix] + "1000"];
    assert ids[..1] == [ids[0]];
    IdOrderFailsAt1000(prefix);
  }

  /**
   * As written, once "<prefix>1000" exists, MAX(id) is still "<prefix>999", so
   * the next id is "<prefix>1000" again: a key that is already taken.
   */
  lemma TableNextIdRepeatsAt1000(prefix: char)
    ensures Ids(prefix, [999, 1000]) == [[prefix] + "999", [prefix] + "1000"]
    ensures TableNextId(prefix, [[prefix] + "999", [prefix] + "1000"]) == Ok([prefix] + "1000")
  {
    Format03SmallSamples();
    Format03Sample1000();
    LexMaxAt1000(prefix);
    NextIdAfterMax(prefix, 999);
    assert [prefix] + Format03(999) == [prefix] + "999";
    assert [prefix] + Format03(1000) == [prefix] + "1000";
  }

  /**
   * The intended next id: one past the numerically largest id, as a numeric
   * maximum over the suffixes would give, in place of the string MAX.
   */
  function NumericTableNextId(prefix: char, ns: seq<int>): Result<string, IdError>
  {
    NextId(prefix, if ns == [] then NoMax else MaxId([prefix] + Format03(NumMax(ns))))
  }

  /** For a table whose largest number is m, the intended next id is m + 1's, and it is new. */
  lemma NumericTableNextIdValue(prefix: char, ns: seq<int>, m: int)
    requires IsMaxOf(ns, m)
    requires forall i :: 0 <= i < |ns| ==> 0 <= ns[i] < INT_MAX
    ensures NumericTableNextId(prefix, ns) == Ok([prefix] + Format03(m + 1))
    ensures [prefix] + Format03(m + 1) !in Ids(prefix, ns)
  {
    var next := [prefix] + Format03(m + 1);
    assert next !in Ids(prefix, ns) by {
      assert forall i :: 0 <= i < |ns| ==> IsInt32(ns[i]) && ns[i] < m + 1;
      IdAboveMaxIsFresh(prefix, ns, m + 1);
    }
    assert NextId(prefix, MaxId([prefix] + Format03(m))) == Ok(next) by {
      NextIdAfterMax(prefix, m);
    }
    MaxUnique(ns, NumMax(ns), m);
  }

  /** The intended next id is new for every table of non-negative ids below the int maximum. */
  lemma NumericTableNextIdFresh(prefix: char, ns: seq<int>)
    requires forall i :: 0 <= i < |ns| ==> 0 <= ns[i] < INT_MAX
    ensures NumericTableNextId(prefix, ns).Ok?
    ensures NumericTableNextId(prefix, ns).value !in Ids(prefix, ns)
  {
    if ns == [] {
      NextIdSeed(prefix);
      assert Ids(prefix, ns) == [];
    } else {
      NumericTableNextIdValue(prefix, ns, NumMax(ns));
    }
  }

  /** Below 1000 the intended next id is the one the code computes. */
  lemma NumericAgreesBelow1000(prefix: char, ns: seq<int>)
    requires forall i :: 0 <= i < |ns| ==> 0 <= ns[i] < 1000
    ensures NumericTableNextId(prefix, ns) == TableNextId(prefix, Ids(prefix, ns))
  {
    if ns != [] {
      StringMaxIsNumericMax(prefix, ns, NumMax(ns));
    }
  }
}
