/**
 * Document ids of the replication benchmark (`createDocId`): the decimal
 * form of a sequence number, left-padded with '0' to at least ten
 * characters, behind the prefix "doc_".
 */
module DocIds {
  import opened Wrappers
  import opened Decimal

  const Prefix: string := "doc_"

  /** The width the digit part is padded to. */
  const Width: nat := 10

  /** `s` with '0' added on the left until it is at least `w` characters long. */
  function PadLeft(s: string, w: nat): string {
    if |s| < w then Zeros(w - |s|) + s else s
  }

  /** What `createDocId(i)` returns. */
  function DocId(i: nat): string {
    Prefix + PadLeft(NatToString(i), Width)
  }

  /** The digit part of an id: everything after the prefix. */
  function DigitPart(id: string): string
    requires |id| >= |Prefix|
  {
    id[|Prefix|..]
  }

  /** Reads a sequence number back out of an id; `None` if `id` is not a prefixed digit string. */
  function ParseDocId(id: string): Option<nat> {
    if |id| > |Prefix| && id[..|Prefix|] == Prefix && AllDigits(DigitPart(id))
    then Some(Value(DigitPart(id)))
    else None
  }

  /** `createDocId`: pads `i.toString()` one '0' at a time, then adds the prefix. */
  method CreateDocId(i: nat) returns (id: string)
    ensures id == DocId(i)
  {
    var intString := NatToString(i);
    ghost var digits, pad := intString, 0;
    while |intString| < Width
      invariant intString == Zeros(pad) + digits
      invariant pad == 0 || |digits| + pad <= Width
      decreases Width - |intString|
    {
      ZerosSucc(pad);
      intString := "0" + intString;
      pad := pad + 1;
    }
    PaddedToWidth(digits, pad, Width);
    id := Prefix + intString;
  }

  /** Once the loop stops, the zeros it added are exactly the padding `PadLeft` adds. */
  lemma PaddedToWidth(digits: string, pad: nat, w: nat)
    requires pad == 0 || |digits| + pad <= w
    requires |digits| + pad >= w
    ensures Zeros(pad) + digits == PadLeft(digits, w)
  {
  }

  // ---------------------------------------------------------------------
  // Properties of the ids
  // ---------------------------------------------------------------------

  /** Every id starts with "doc_" and is followed by a digit string of at least ten digits. */
  lemma DocIdShape(i: nat)
    ensures |DocId(i)| >= |Prefix| + Width
    ensures DocId(i)[..|Prefix|] == Prefix
    ensures AllDigits(DigitPart(DocId(i)))
  {
  }

  /** Below `10^10` every id is exactly fourteen characters long; from `10^10` on it is longer. */
  lemma DocIdLength(i: nat)
    ensures |DocId(i)| == |Prefix| + Width <==> i < Pow10(Width)
  {
    NatToStringLength(i, Width);
  }

  /** From `10^9` on the number already has ten digits and no padding is added. */
  lemma NoPaddingFromTenDigits(i: nat)
    requires i >= Pow10(Width - 1)
    ensures DocId(i) == Prefix + NatToString(i)
  {
    NatToStringLength(i, Width - 1);
  }

  /** Only zeros are added, and only on the left: stripping them gives back the decimal form of `i` ("" for 0). */
  lemma PaddingIsLeadingZerosOnly(i: nat)
    ensures |DocId(i)| >= |Prefix|
    ensures StripZeros(DigitPart(DocId(i))) == if i == 0 then "" else NatToString(i)
  {
    var s := NatToString(i);
    assert DigitPart(DocId(i)) == PadLeft(s, Width);
    if |s| < Width {
      StripZerosOfPadded(Width - |s|, s);
    }
    if i == 0 {
      assert s == "0";
      assert StripZeros(s) == StripZeros(s[1..]);
      assert s[1..] == [];
    }
  }

  /** Parsing an id gives back its sequence number. */
  lemma DocIdRoundTrip(i: nat)
    ensures ParseDocId(DocId(i)) == Some(i)
  {
    var s := NatToString(i);
    DocIdShape(i);
    assert DigitPart(DocId(i)) == PadLeft(s, Width);
    ValueOfNatToString(i);
    if |s| < Width {
      ValueIgnoresLeadingZeros(Width - |s|, s);
    }
  }

  /** Different sequence numbers give different ids, for every natural number. */
  lemma DocIdInjective(i: nat, j: nat)
    requires i != j
    ensures DocId(i) != DocId(j)
  {
    DocIdRoundTrip(i);
    DocIdRoundTrip(j);
  }

  /** Within ten digits, the string order of ids is the numeric order of their sequence numbers. */
  lemma DocIdOrder(i: nat, j: nat)
    requires i < Pow10(Width) && j < Pow10(Width)
    ensures LexLess(DocId(i), DocId(j)) <==> i < j
  {
    PaddedOrder(i, j, Width);
  }

  /** The order of prefixed, padded forms at any width `w`, for numbers below `10^w`. */
  lemma PaddedOrder(i: nat, j: nat, w: nat)
    requires w >= 1 && i < Pow10(w) && j < Pow10(w)
    ensures LexLess(Prefix + PadLeft(NatToString(i), w), Prefix + PadLeft(NatToString(j), w)) <==> i < j
  {
    PaddedIsFixedDigits(i, w);
    PaddedIsFixedDigits(j, w);
    assert PadLeft(NatToString(i), w) == FixedDigits(i, w);
    assert PadLeft(NatToString(j), w) == FixedDigits(j, w);
    LexLessCommonPrefix(Prefix, FixedDigits(i, w), FixedDigits(j, w));
    FixedDigitsOrder(i, j, w);
  }

  /**
   * The ten-digit bound of `DocIdOrder` is needed: `10^10` has eleven digits,
   * is not padded, and its id sorts before the id of the smaller `2 * 10^9`.
   */
  lemma OrderBreaksBeyondTenDigits()
    ensures Pow10(Width) > 2 * Pow10(Width - 1)
    ensures LexLess(DocId(Pow10(Width)), DocId(2 * Pow10(Width - 1)))
  {
    var big, small := Pow10(Width), 2 * Pow10(Width - 1);
    assert big == 1 * Pow10(Width);
    NoPaddingFromTenDigits(big);
    NoPaddingFromTenDigits(small);
    LeadingDigit(1, Width);
    LeadingDigit(2, Width - 1);
    LexLessCommonPrefix(Prefix, NatToString(big), NatToString(small));
  }

  /** The printed form of `d * 10^k`, for a digit `d` other than 0, starts with `d`. */
  lemma {:induction false} LeadingDigit(d: nat, k: nat)
    requires 1 <= d <= 9
    ensures NatToString(d * Pow10(k))[0] == DigitChar(d)
  {
    if k > 0 {
      var n := d * Pow10(k);
      assert n == 10 * (d * Pow10(k - 1));
      assert n / 10 == d * Pow10(k - 1);
      Pow10AtLeastOne(k - 1);
      LeadingDigit(d, k - 1);
    }
  }

  lemma {:induction false} Pow10AtLeastOne(k: nat)
    ensures Pow10(k) >= 1
  {
    if k > 0 {
      Pow10AtLeastOne(k - 1);
    }
  }

  /** Whether `id` falls in the key range from `startkey` to `endkey`, both ends included. */
  predicate InKeyRange(id: string, startkey: string, endkey: string) {
    !LexLess(id, startkey) && !LexLess(endkey, id)
  }

  /**
   * A key range built from two ids selects exactly the documents whose
   * sequence numbers lie between the two, as long as all have ten digits.
   */
  lemma KeyRangeIsNumericRange(lo: nat, hi: nat, k: nat)
    requires lo < Pow10(Width) && hi < Pow10(Width) && k < Pow10(Width)
    ensures InKeyRange(DocId(k), DocId(lo), DocId(hi)) <==> lo <= k <= hi
  {
    DocIdOrder(k, lo);
    DocIdOrder(hi, k);
  }
}
