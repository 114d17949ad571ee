/**
 * The check behind @CreditCardNumber: Hibernate Validator's Luhn check
 * (LuhnCheckValidator with ModUtil.calculateLuhnMod10Check), which treats the
 * last character as the check digit and recomputes it from the others.
 * Its partner is the formulation of ISO/IEC 7812-1, Annex B: double every
 * second digit counting from the right-hand check digit, and accept iff the
 * sum of the resulting digits is a multiple of 10.
 */
module Luhn {
  import opened Text

  /** A digit's contribution: doubled digits above 4 have their two digits added (2d - 9). */
  function Term(d: nat, doubled: bool): (r: nat)
    requires d <= 9
    ensures r <= 9
    ensures !doubled ==> r == d
    ensures doubled ==> r == (2 * d) / 10 + (2 * d) % 10
  {
    if !doubled then d else if 2 * d > 9 then 2 * d - 9 else 2 * d
  }

  /**
   * calculateLuhnMod10Check's loop: walk from the last digit to the first,
   * doubling the last one when `doubleLast` holds and alternating after that.
   */
  function RightSum(ds: seq<nat>, doubleLast: bool): nat
    requires forall i :: 0 <= i < |ds| ==> ds[i] <= 9
    decreases |ds|
  {
    if ds == [] then 0
    else Term(ds[|ds| - 1], doubleLast) + RightSum(ds[..|ds| - 1], !doubleLast)
  }

  /** The check digit Hibernate computes for a payload: (10 - sum % 10) % 10. */
  function CheckDigit(payload: seq<nat>): (r: nat)
    requires forall i :: 0 <= i < |payload| ==> payload[i] <= 9
    ensures r <= 9
  {
    (10 - RightSum(payload, true) % 10) % 10
  }

  /**
   * LuhnCheckValidator.isValid on a non-null string: the empty string fails
   * (no check digit), a non-digit anywhere fails, otherwise the last digit
   * must equal the check digit of the others.
   */
  predicate LuhnValid(s: string) {
    && |s| > 0
    && AllDigits(s)
    && DigitValue(s[|s| - 1]) == CheckDigit(DigitValues(s[..|s| - 1]))
  }

  /**
   * ISO/IEC 7812-1 Annex B, read left to right: the first of n digits stands
   * at position n counted from the right, and the digits at even positions
   * are doubled.
   */
  function IsoSum(ds: seq<nat>): nat
    requires forall i :: 0 <= i < |ds| ==> ds[i] <= 9
  {
    if ds == [] then 0 else Term(ds[0], |ds| % 2 == 0) + IsoSum(ds[1..])
  }

  predicate IsoValid(s: string) {
    |s| > 0 && AllDigits(s) && IsoSum(DigitValues(s)) % 10 == 0
  }

  /** Prepending a digit to the right-to-left sum adds its term at its position from the right. */
  lemma {:induction false} RightSumCons(d: nat, ds: seq<nat>, doubleLast: bool)
    requires d <= 9 && forall i :: 0 <= i < |ds| ==> ds[i] <= 9
    ensures RightSum([d] + ds, doubleLast)
         == Term(d, doubleLast == ((|ds| + 1) % 2 == 1)) + RightSum(ds, doubleLast)
  {
    if ds != [] {
      var n := |ds|;
      assert ([d] + ds)[..n] == [d] + ds[..n - 1];
      assert ([d] + ds)[n] == ds[n - 1];
      RightSumCons(d, ds[..n - 1], !doubleLast);
    }
  }

  /** Both readings of the sum agree when the last digit is not doubled. */
  lemma {:induction false} IsoSumIsRightSum(ds: seq<nat>)
    requires forall i :: 0 <= i < |ds| ==> ds[i] <= 9
    ensures IsoSum(ds) == RightSum(ds, false)
  {
    if ds != [] {
      IsoSumIsRightSum(ds[1..]);
      RightSumCons(ds[0], ds[1..], false);
      assert [ds[0]] + ds[1..] == ds;
    }
  }

  /** Recomputing the check digit and comparing is the same as asking the full sum to be 0 mod 10. */
  lemma CheckDigitMatchesIffMultipleOfTen(sum: nat, c: nat)
    requires c <= 9
    ensures (10 - sum % 10) % 10 == c <==> (sum + c) % 10 == 0
  {
    var r := sum % 10;
    assert sum == 10 * (sum / 10) + r;
    assert (sum + c) % 10 == (r + c) % 10;
  }

  /** Hibernate's check-digit comparison is the ISO/IEC 7812-1 mod-10 rule, in both directions. */
  lemma LuhnValidIffIso(s: string)
    ensures LuhnValid(s) <==> IsoValid(s)
  {
    if |s| > 0 && AllDigits(s) {
      var n := |s|;
      var ds := DigitValues(s);
      var payload := DigitValues(s[..n - 1]);
      assert ds[..n - 1] == payload;
      var c := DigitValue(s[n - 1]);
      assert ds[n - 1] == c;
      IsoSumIsRightSum(ds);
      assert RightSum(ds, false) == c + RightSum(payload, true);
      CheckDigitMatchesIffMultipleOfTen(RightSum(payload, true), c);
    }
  }

  /** The usual test number of the Visa range passes; changing its check digit makes it fail. */
  lemma VisaTestNumber()
    ensures LuhnValid("4111111111111111")
    ensures !LuhnValid("4111111111111112")
  {
    FourAndOnes("4111111111111111", '1');
    FourAndOnes("4111111111111112", '2');
  }

  /** 4 and fourteen 1s, then a last digit: the payload sums to 29, so only 1 is the right check digit. */
  lemma FourAndOnes(s: string, last: char)
    requires |s| == 16 && s[0] == '4' && (forall i :: 1 <= i < 15 ==> s[i] == '1') && s[15] == last
    requires last == '1' || last == '2'
    ensures LuhnValid(s) <==> last == '1'
  {
    var payload := s[..15];
    assert forall i :: 1 <= i < 15 ==> payload[i] == s[i];
    FourThenOnes(payload);
    PayloadSum();
    assert AllDigits(s) by {
      forall i | 0 <= i < 16 ensures IsDigit(s[i]) {
        if 1 <= i < 15 {
          assert s[i] == '1';
        }
      }
    }
    assert CheckDigit(DigitValues(payload)) == 1;
  }

  lemma PayloadSum()
    ensures RightSum([4, 1, 1, 1, 1, 1, 1, 1, 1, 1, 1, 1, 1, 1, 1], true) == 29
  {
    var payload: seq<nat> := [4, 1, 1, 1, 1, 1, 1, 1, 1, 1, 1, 1, 1, 1, 1];
    OnePairsSum(payload, 7, true);
    assert payload[..1] == [4];
    assert [4][..0] == [];
  }

  lemma FourThenOnes(s: string)
    requires |s| == 15 && s[0] == '4' && forall i :: 1 <= i < 15 ==> s[i] == '1'
    ensures AllDigits(s)
    ensures DigitValues(s) == [4, 1, 1, 1, 1, 1, 1, 1, 1, 1, 1, 1, 1, 1, 1]
  {
    var want: seq<nat> := [4, 1, 1, 1, 1, 1, 1, 1, 1, 1, 1, 1, 1, 1, 1];
    var r := DigitValues(s);
    forall i | 0 <= i < 15 ensures r[i] == want[i] {
      if i > 0 {
        assert s[i] == '1';
      }
    }
  }

  /** m pairs of ones at the end of ds: each pair adds 1 and 2, whichever of the two is doubled. */
  lemma {:induction false} OnePairsSum(ds: seq<nat>, m: nat, doubleLast: bool)
    requires forall i :: 0 <= i < |ds| ==> ds[i] <= 9
    requires 2 * m <= |ds| && forall i :: |ds| - 2 * m <= i < |ds| ==> ds[i] == 1
    ensures RightSum(ds, doubleLast) == RightSum(ds[..|ds| - 2 * m], doubleLast) + 3 * m
  {
    var n := |ds|;
    if m > 0 {
      TwoOnes(ds, doubleLast);
      assert ds[..n - 2][..n - 2 - 2 * (m - 1)] == ds[..n - 2 * m];
      OnePairsSum(ds[..n - 2], m - 1, doubleLast);
    } else {
      assert ds[..n] == ds;
    }
  }

  /** Two trailing ones add 1 + 2 to the sum of what precedes them. */
  lemma TwoOnes(ds: seq<nat>, doubleLast: bool)
    requires forall i :: 0 <= i < |ds| ==> ds[i] <= 9
    requires |ds| >= 2 && ds[|ds| - 1] == 1 && ds[|ds| - 2] == 1
    ensures RightSum(ds, doubleLast) == 3 + RightSum(ds[..|ds| - 2], doubleLast)
  {
    var n := |ds|;
    var init := ds[..n - 1];
    assert init[..n - 2] == ds[..n - 2] && init[n - 2] == 1;
    assert RightSum(ds, doubleLast) == Term(1, doubleLast) + RightSum(init, !doubleLast);
    assert RightSum(init, !doubleLast) == Term(1, !doubleLast) + RightSum(ds[..n - 2], doubleLast);
  }

  /** The empty string, a non-digit and a lone zero. */
  lemma EdgeCases()
    ensures !LuhnValid("") && !LuhnValid("4111-1111") && LuhnValid("0")
  {
    assert "4111-1111"[4] == '-';
    assert "0"[..0] == [];
  }
}
