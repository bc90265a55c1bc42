/** Event ids: zero-padded block number, transaction index and log index. */
module EventIds {
  import opened Js
  import opened Text
  import opened Decimal

  /** Block number and log index are padded as they come, the transaction index in decimal. */
  function FormatEventId(blockNumber: Option<string>, txIndex: string, logIndex: Option<string>): string {
    Join([PadStart(blockNumber.GetOr("0"), 12), PadStart(txIndex, 6), PadStart(logIndex.GetOr("0"), 6)], '/')
  }

  function IdOf(block: nat, tx: nat, log: nat): string {
    FormatEventId(Some(ToDec(block)), ToDec(tx), Some(ToDec(log)))
  }

  lemma DigitsNoSlash(s: string)
    requires Digits(s)
    ensures '/' !in s
  {
  }

  lemma IdParts(block: nat, tx: nat, log: nat) returns (b: string, t: string, l: string)
    ensures b == PadStart(ToDec(block), 12) && t == PadStart(ToDec(tx), 6) && l == PadStart(ToDec(log), 6)
    ensures Digits(b) && Value(b) == block && Digits(t) && Value(t) == tx && Digits(l) && Value(l) == log
    ensures Split(IdOf(block, tx, log), '/') == [b, t, l]
    ensures IdOf(block, tx, log) == b + ['/'] + (t + ['/'] + l)
  {
    b, t, l := PadStart(ToDec(block), 12), PadStart(ToDec(tx), 6), PadStart(ToDec(log), 6);
    PadValue(ToDec(block), 12);
    PadValue(ToDec(tx), 6);
    PadValue(ToDec(log), 6);
    ToDecValue(block);
    ToDecValue(tx);
    ToDecValue(log);
    DigitsNoSlash(b);
    DigitsNoSlash(t);
    DigitsNoSlash(l);
    SplitJoin([b, t, l], '/');
    assert [b, t, l][1..] == [t, l] && [t, l][1..] == [l];
    assert Join([t, l], '/') == t + ['/'] + l;
  }

  /** An id determines its block, transaction and log, whatever their size. */
  lemma IdsDistinct(b1: nat, t1: nat, l1: nat, b2: nat, t2: nat, l2: nat)
    ensures IdOf(b1, t1, l1) == IdOf(b2, t2, l2) <==> b1 == b2 && t1 == t2 && l1 == l2
  {
    var x1, y1, z1 := IdParts(b1, t1, l1);
    var x2, y2, z2 := IdParts(b2, t2, l2);
    if IdOf(b1, t1, l1) == IdOf(b2, t2, l2) {
      assert [x1, y1, z1][0] == [x2, y2, z2][0] && [x1, y1, z1][1] == [x2, y2, z2][1] && [x1, y1, z1][2] == [x2, y2, z2][2];
    }
  }

  predicate ChainBefore(b1: nat, t1: nat, l1: nat, b2: nat, t2: nat, l2: nat) {
    b1 < b2 || (b1 == b2 && (t1 < t2 || (t1 == t2 && l1 < l2)))
  }

  predicate Fits(b: nat, t: nat, l: nat) {
    b < Pow10(12) && t < Pow10(6) && l < Pow10(6)
  }

  lemma PadWidth(n: nat, width: nat)
    requires width > 0 && n < Pow10(width)
    ensures |PadStart(ToDec(n), width)| == width
  {
    ToDecFits(n, width);
  }

  lemma JoinedLess(a: string, r: string, b: string, t: string)
    requires Digits(a) && Digits(b) && |a| == |b|
    ensures TextLess(a + ['/'] + r, b + ['/'] + t) <==>
      Value(a) < Value(b) || (Value(a) == Value(b) && TextLess(r, t))
  {
    FixedWidthOrder(a, b);
    assert a + ['/'] + r == a + (['/'] + r) && b + ['/'] + t == b + (['/'] + t);
    TextLessAppend(a, ['/'] + r, b, ['/'] + t);
    TextLessAppend(['/'], r, ['/'], t);
    assert !TextLess(['/'], ['/']);
  }

  /** Sorting ids as text sorts events in chain order, as long as the parts fit their width. */
  lemma IdsSortLikeChain(b1: nat, t1: nat, l1: nat, b2: nat, t2: nat, l2: nat)
    requires Fits(b1, t1, l1) && Fits(b2, t2, l2)
    ensures TextLess(IdOf(b1, t1, l1), IdOf(b2, t2, l2)) <==> ChainBefore(b1, t1, l1, b2, t2, l2)
  {
    var x1, y1, z1 := IdParts(b1, t1, l1);
    var x2, y2, z2 := IdParts(b2, t2, l2);
    PadWidth(b1, 12);
    PadWidth(b2, 12);
    PadWidth(t1, 6);
    PadWidth(t2, 6);
    PadWidth(l1, 6);
    PadWidth(l2, 6);
    JoinedLess(x1, y1 + ['/'] + z1, x2, y2 + ['/'] + z2);
    JoinedLess(y1, z1, y2, z2);
    FixedWidthOrder(z1, z2);
  }

  /** `digit` followed by `k` zeros. */
  function Round(digit: nat, k: nat): (r: nat)
    requires 1 <= digit < 10
    ensures r >= 1
  {
    if k == 0 then digit else 10 * Round(digit, k - 1)
  }

  lemma {:induction false} RoundText(digit: nat, k: nat)
    requires 1 <= digit < 10
    ensures |ToDec(Round(digit, k))| == k + 1 && ToDec(Round(digit, k))[0] == Digit(digit)
    ensures Round(digit, k) == digit * Pow10(k)
  {
    if k == 0 {
    } else {
      RoundText(digit, k - 1);
      TenTimes(digit, Pow10(k - 1), Round(digit, k - 1));
    }
  }

  lemma TenTimes(d: nat, p: nat, r: nat)
    requires r == d * p
    ensures 10 * r == d * (10 * p)
  {
  }

  /** The first number too long for a width, and the last round one that fits, padded. */
  lemma PaddedMisorder(k: nat, width: nat) returns (x: nat, y: nat)
    requires width <= k + 1
    ensures x == Pow10(k + 1) && y == 2 * Pow10(k) && y < x
    ensures var s, t := PadStart(ToDec(x), width), PadStart(ToDec(y), width);
      s != [] && t != [] && s[0] < t[0]
  {
    RoundText(1, k + 1);
    RoundText(2, k);
    x, y := Round(1, k + 1), Round(2, k);
  }

  lemma {:induction false} SamePrefix(p: string, r: string, t: string)
    ensures TextLess(p + r, p + t) <==> TextLess(r, t)
  {
    if p == [] {
      assert p + r == r && p + t == t;
    } else {
      assert (p + r)[1..] == p[1..] + r && (p + t)[1..] == p[1..] + t;
      SamePrefix(p[1..], r, t);
    }
  }

  /** Three parts joined; the first character that differs decides. */
  function Joined(x: string, y: string, z: string): string {
    x + ['/'] + (y + ['/'] + z)
  }

  lemma FirstPartDecides(x1: string, y1: string, z1: string, x2: string, y2: string, z2: string)
    requires x1 != [] && x2 != [] && x1[0] < x2[0]
    ensures TextLess(Joined(x1, y1, z1), Joined(x2, y2, z2))
  {
    assert Joined(x1, y1, z1)[0] == x1[0] && Joined(x2, y2, z2)[0] == x2[0];
  }

  lemma SecondPartDecides(x: string, y1: string, z1: string, y2: string, z2: string)
    requires y1 != [] && y2 != [] && y1[0] < y2[0]
    ensures TextLess(Joined(x, y1, z1), Joined(x, y2, z2))
  {
    SamePrefix(x + ['/'], y1 + ['/'] + z1, y2 + ['/'] + z2);
    assert (y1 + ['/'] + z1)[0] == y1[0] && (y2 + ['/'] + z2)[0] == y2[0];
  }

  lemma ThirdPartDecides(x: string, y: string, z1: string, z2: string)
    requires z1 != [] && z2 != [] && z1[0] < z2[0]
    ensures TextLess(Joined(x, y, z1), Joined(x, y, z2))
  {
    SamePrefix(x + ['/'], y + ['/'] + z1, y + ['/'] + z2);
    SamePrefix(y + ['/'], z1, z2);
  }

  lemma IdIsJoined(block: nat, tx: nat, log: nat)
    ensures IdOf(block, tx, log) ==
      Joined(PadStart(ToDec(block), 12), PadStart(ToDec(tx), 6), PadStart(ToDec(log), 6))
  {
    var b, t, l := IdParts(block, tx, log);
  }

  /** Past its width each part breaks the order, at every power of ten: the first block with thirteen
      digits sorts before block 200000000000, the first index with seven before index 200000, and so
      on for each longer length. */
  lemma WideBlocksMisorder(t: nat, l: nat, k: nat) returns (x: nat, y: nat)
    requires k >= 11
    ensures x == Pow10(k + 1) && y == 2 * Pow10(k) && y < x
    ensures TextLess(IdOf(x, t, l), IdOf(y, t, l))
  {
    x, y := PaddedMisorder(k, 12);
    IdIsJoined(x, t, l);
    IdIsJoined(y, t, l);
    var t', l' := PadStart(ToDec(t), 6), PadStart(ToDec(l), 6);
    FirstPartDecides(PadStart(ToDec(x), 12), t', l', PadStart(ToDec(y), 12), t', l');
  }

  lemma WideTransactionsMisorder(b: nat, l: nat, k: nat) returns (x: nat, y: nat)
    requires k >= 5
    ensures x == Pow10(k + 1) && y == 2 * Pow10(k) && y < x
    ensures TextLess(IdOf(b, x, l), IdOf(b, y, l))
  {
    x, y := PaddedMisorder(k, 6);
    IdIsJoined(b, x, l);
    IdIsJoined(b, y, l);
    var l' := PadStart(ToDec(l), 6);
    SecondPartDecides(PadStart(ToDec(b), 12), PadStart(ToDec(x), 6), l', PadStart(ToDec(y), 6), l');
  }

  lemma WideLogsMisorder(b: nat, t: nat, k: nat) returns (x: nat, y: nat)
    requires k >= 5
    ensures x == Pow10(k + 1) && y == 2 * Pow10(k) && y < x
    ensures TextLess(IdOf(b, t, x), IdOf(b, t, y))
  {
    x, y := PaddedMisorder(k, 6);
    IdIsJoined(b, t, x);
    IdIsJoined(b, t, y);
    ThirdPartDecides(PadStart(ToDec(b), 12), PadStart(ToDec(t), 6), PadStart(ToDec(x), 6), PadStart(ToDec(y), 6));
  }

  /** Below these bounds sorting ids as text sorts events in chain order. */
  ghost predicate SortsLikeChain(blocks: nat, transactions: nat, logs: nat) {
    forall b1: nat, t1: nat, l1: nat, b2: nat, t2: nat, l2: nat {:trigger IdOf(b1, t1, l1), IdOf(b2, t2, l2)} ::
      b1 < blocks && t1 < transactions && l1 < logs && b2 < blocks && t2 < transactions && l2 < logs ==>
      (TextLess(IdOf(b1, t1, l1), IdOf(b2, t2, l2)) <==> ChainBefore(b1, t1, l1, b2, t2, l2))
  }

  lemma WidthsNeeded(blocks: nat, transactions: nat, logs: nat)
    requires blocks > 0 && transactions > 0 && logs > 0 && SortsLikeChain(blocks, transactions, logs)
    ensures blocks <= Pow10(12) && transactions <= Pow10(6) && logs <= Pow10(6)
  {
    var bx, b := WideBlocksMisorder(0, 0, 11);
    var tx, t := WideTransactionsMisorder(0, 0, 5);
    var lx, l := WideLogsMisorder(0, 0, 5);
  }

  lemma WidthsSuffice(blocks: nat, transactions: nat, logs: nat)
    requires blocks <= Pow10(12) && transactions <= Pow10(6) && logs <= Pow10(6)
    ensures SortsLikeChain(blocks, transactions, logs)
  {
    forall b1: nat, t1: nat, l1: nat, b2: nat, t2: nat, l2: nat |
      b1 < blocks && t1 < transactions && l1 < logs && b2 < blocks && t2 < transactions && l2 < logs
      ensures TextLess(IdOf(b1, t1, l1), IdOf(b2, t2, l2)) <==> ChainBefore(b1, t1, l1, b2, t2, l2)
    {
      IdsSortLikeChain(b1, t1, l1, b2, t2, l2);
    }
  }

  /** The exact widths: ids below some bounds sort like the chain if and only if no block number needs
      more than 12 digits and no index more than 6. */
  lemma SortsLikeChainIff(blocks: nat, transactions: nat, logs: nat)
    requires blocks > 0 && transactions > 0 && logs > 0
    ensures SortsLikeChain(blocks, transactions, logs) <==>
      blocks <= Pow10(12) && transactions <= Pow10(6) && logs <= Pow10(6)
  {
    if SortsLikeChain(blocks, transactions, logs) {
      WidthsNeeded(blocks, transactions, logs);
    } else if blocks <= Pow10(12) && transactions <= Pow10(6) && logs <= Pow10(6) {
      WidthsSuffice(blocks, transactions, logs);
    }
  }

  /** What an id looks like while its parts fit: twelve digits, six and six, with slashes between. */
  lemma IdText(block: nat, tx: nat, log: nat)
    requires Fits(block, tx, log)
    ensures var id := IdOf(block, tx, log);
      && |id| == 26 && id[12] == '/' == id[19]
      && Digits(id[..12]) && Value(id[..12]) == block
      && Digits(id[13..19]) && Value(id[13..19]) == tx
      && Digits(id[20..]) && Value(id[20..]) == log
  {
    var b, t, l := IdParts(block, tx, log);
    PadWidth(block, 12);
    PadWidth(tx, 6);
    PadWidth(log, 6);
    Sliced(b, t, l, IdOf(block, tx, log));
  }

  lemma Sliced(b: string, t: string, l: string, id: string)
    requires |b| == 12 && |t| == 6 && |l| == 6 && id == b + ['/'] + (t + ['/'] + l)
    ensures |id| == 26 && id[12] == '/' == id[19] && id[..12] == b && id[13..19] == t && id[20..] == l
  {
  }
}
