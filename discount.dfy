/**
  The coupon rules of `apply_discount` and the discount clamp of `checkout`
  and `payPage`: normalising the submitted code, looking it up in the fixed
  coupon table, computing a percentage (rounded as Python's `round` does) or
  a fixed amount capped at the subtotal, and clamping a stored discount to
  the current subtotal.
*/
module Discount {
  import opened Wrappers

  // ---------------------------------------------------------------------
  // Normalising the code: `(data.get("code") or "").strip().upper()`
  // ---------------------------------------------------------------------

  /** Python's `str.isspace` on one character. */
  predicate IsSpace(c: char)
  {
    || ('\t' <= c <= '\r')
    || ('\U{1C}' <= c <= ' ')
    || c == '\U{85}' || c == '\U{A0}' || c == '\U{1680}'
    || ('\U{2000}' <= c <= '\U{200A}')
    || c == '\U{2028}' || c == '\U{2029}' || c == '\U{202F}' || c == '\U{205F}' || c == '\U{3000}'
  }

  predicate AllSpace(s: string)
  {
    forall i :: 0 <= i < |s| ==> IsSpace(s[i])
  }

  /** The first index at or after `i` that is not whitespace (or the end). */
  function SkipSpaces(s: string, i: nat): (j: nat)
    requires i <= |s|
    ensures i <= j <= |s|
    ensures forall k :: i <= k < j ==> IsSpace(s[k])
    ensures j == |s| || !IsSpace(s[j])
    decreases |s| - i
  {
    if i < |s| && IsSpace(s[i]) then SkipSpaces(s, i + 1) else i
  }

  /** The index, going back from `j` but not below `lo`, after the last
      character before it that is not whitespace. */
  function SkipSpacesBack(s: string, lo: nat, j: nat): (k: nat)
    requires lo <= j <= |s|
    ensures lo <= k <= j
    ensures forall m :: k <= m < j ==> IsSpace(s[m])
    ensures k == lo || !IsSpace(s[k - 1])
    decreases j
  {
    if j > lo && IsSpace(s[j - 1]) then SkipSpacesBack(s, lo, j - 1) else j
  }

  /** `str.strip()`: a slice of the string with only whitespace cut off
      either side, and no whitespace left at either end. */
  function Strip(s: string): (r: string)
    ensures r == [] || (!IsSpace(r[0]) && !IsSpace(r[|r| - 1]))
    ensures exists a, b :: 0 <= a <= b <= |s| && r == s[a..b] && AllSpace(s[..a]) && AllSpace(s[b..])
  {
    var a := SkipSpaces(s, 0);
    var b := SkipSpacesBack(s, a, |s|);
    assert AllSpace(s[..a]) && AllSpace(s[b..]);
    s[a..b]
  }

  /** ASCII upper-casing of one character. */
  function UpperChar(c: char): char
  {
    if 'a' <= c <= 'z' then (c as int - 32) as char else c
  }

  /** `str.upper()` on the ASCII letters: every lower-case ASCII letter
      becomes its capital, and every other character is kept. */
  function Upper(s: string): (r: string)
    ensures |r| == |s|
    ensures forall i :: 0 <= i < |s| && 'a' <= s[i] <= 'z' ==> r[i] as int == s[i] as int - 32
    ensures forall i :: 0 <= i < |r| ==> !('a' <= r[i] <= 'z')
    ensures forall i :: 0 <= i < |s| && !('a' <= s[i] <= 'z') ==> r[i] == s[i]
    ensures forall i :: 0 <= i < |s| ==> IsSpace(r[i]) == IsSpace(s[i])
  {
    seq(|s|, i requires 0 <= i < |s| => UpperChar(s[i]))
  }

  /** The normalised code: the upper-cased slice of the field left after
      cutting whitespace off either side; a missing field is the empty code. */
  function Normalize(field: Option<string>): (r: string)
    ensures field.None? ==> r == ""
    ensures field.Some? ==>
              exists a, b :: && 0 <= a <= b <= |field.value|
                             && AllSpace(field.value[..a]) && AllSpace(field.value[b..])
                             && r == Upper(field.value[a..b])
    ensures r == [] || (!IsSpace(r[0]) && !IsSpace(r[|r| - 1]))
    ensures forall i :: 0 <= i < |r| ==> !('a' <= r[i] <= 'z')
  {
    match field
    case None => ""
    case Some(c) => Upper(Strip(c))
  }

  /** `SkipSpaces` stops at the first character that is not whitespace. */
  lemma {:induction false} SkipSpacesAt(s: string, i: nat, j: nat)
    requires i <= j <= |s|
    requires forall k :: i <= k < j ==> IsSpace(s[k])
    requires j == |s| || !IsSpace(s[j])
    ensures SkipSpaces(s, i) == j
    decreases j - i
  {
    if i < j {
      SkipSpacesAt(s, i + 1, j);
    }
  }

  /** `SkipSpacesBack` stops after the last character that is not whitespace. */
  lemma {:induction false} SkipSpacesBackAt(s: string, lo: nat, j: nat, k: nat)
    requires lo <= k <= j <= |s|
    requires forall m :: k <= m < j ==> IsSpace(s[m])
    requires k == lo || !IsSpace(s[k - 1])
    ensures SkipSpacesBack(s, lo, j) == k
    decreases j - k
  {
    if k < j {
      SkipSpacesBackAt(s, lo, j - 1, k);
    }
  }

  /** The characters of `pre + m + post` at each position. */
  lemma PaddedAt(pre: string, m: string, post: string)
    ensures var s, b := pre + m + post, |pre| + |m|;
            && (forall k :: 0 <= k < |pre| ==> s[k] == pre[k])
            && (forall k :: |pre| <= k < b ==> s[k] == m[k - |pre|])
            && (forall k :: b <= k < |s| ==> s[k] == post[k - b])
            && s[|pre|..b] == m
  {
  }

  /** Stripping whitespace padding off a string with no whitespace at its
      ends gives that string back. */
  lemma StripPadding(pre: string, m: string, post: string)
    requires AllSpace(pre) && AllSpace(post)
    requires m == [] || (!IsSpace(m[0]) && !IsSpace(m[|m| - 1]))
    ensures Strip(pre + m + post) == m
  {
    var s := pre + m + post;
    var a, b := |pre|, |pre| + |m|;
    PaddedAt(pre, m, post);
    assert forall k :: 0 <= k < a ==> IsSpace(s[k]);
    assert forall k :: b <= k < |s| ==> IsSpace(s[k]);
    if m == [] {
      SkipSpacesAt(s, 0, |s|);
    } else {
      SkipSpacesAt(s, 0, a);
      SkipSpacesBackAt(s, a, |s|, b);
    }
  }

  /** A string with no whitespace at either end is its own strip. */
  lemma StrippedStrip(m: string)
    requires m == [] || (!IsSpace(m[0]) && !IsSpace(m[|m| - 1]))
    ensures Strip(m) == m
  {
    assert [] + m + [] == m;
    StripPadding([], m, []);
  }

  lemma AllSpaceConcat(x: string, y: string)
    requires AllSpace(x) && AllSpace(y)
    ensures AllSpace(x + y)
  {
    assert forall k :: |x| <= k < |x + y| ==> (x + y)[k] == y[k - |x|];
  }

  lemma Regroup(pre: string, code: string, post: string, a: nat, b: nat)
    requires a <= b <= |code|
    ensures pre + code + post == (pre + code[..a]) + code[a..b] + (code[b..] + post)
  {
    assert code == code[..a] + code[a..b] + code[b..];
  }

  /** Whitespace around a string does not change its strip. */
  lemma StripPadded(pre: string, code: string, post: string)
    requires AllSpace(pre) && AllSpace(post)
    ensures Strip(pre + code + post) == Strip(code)
  {
    var m := Strip(code);
    var a, b :| 0 <= a <= b <= |code| && m == code[a..b] && AllSpace(code[..a]) && AllSpace(code[b..]);
    Regroup(pre, code, post, a, b);
    AllSpaceConcat(pre, code[..a]);
    AllSpaceConcat(code[b..], post);
    StripPadding(pre + code[..a], m, code[b..] + post);
  }

  /** Codes that differ only in surrounding whitespace normalise alike. */
  lemma NormalizePadded(pre: string, code: string, post: string)
    requires AllSpace(pre) && AllSpace(post)
    ensures Normalize(Some(pre + code + post)) == Normalize(Some(code))
  {
    StripPadded(pre, code, post);
  }

  /** Two strings whose characters are whitespace at the same positions. */
  predicate SameSpaces(x: string, y: string)
  {
    |x| == |y| && forall i :: 0 <= i < |x| ==> IsSpace(x[i]) == IsSpace(y[i])
  }

  lemma {:induction false} SkipSpacesSame(x: string, y: string, i: nat)
    requires SameSpaces(x, y) && i <= |x|
    ensures SkipSpaces(x, i) == SkipSpaces(y, i)
    decreases |x| - i
  {
    if i < |x| && IsSpace(x[i]) {
      SkipSpacesSame(x, y, i + 1);
    }
  }

  lemma {:induction false} SkipSpacesBackSame(x: string, y: string, lo: nat, j: nat)
    requires SameSpaces(x, y) && lo <= j <= |x|
    ensures SkipSpacesBack(x, lo, j) == SkipSpacesBack(y, lo, j)
    decreases j
  {
    if j > lo && IsSpace(x[j - 1]) {
      SkipSpacesBackSame(x, y, lo, j - 1);
    }
  }

  /** Strings with whitespace at the same positions are stripped at the
      same positions. */
  lemma StripSame(x: string, y: string) returns (a: nat, b: nat)
    requires SameSpaces(x, y)
    ensures a <= b <= |x| && Strip(x) == x[a..b] && Strip(y) == y[a..b]
  {
    a := SkipSpaces(x, 0);
    SkipSpacesSame(x, y, 0);
    b := SkipSpacesBack(x, a, |x|);
    SkipSpacesBackSame(x, y, a, |x|);
  }

  lemma UpperSlices(x: string, y: string, a: nat, b: nat)
    requires |x| == |y| && a <= b <= |x|
    requires forall i :: 0 <= i < |x| ==> UpperChar(x[i]) == UpperChar(y[i])
    ensures Upper(x[a..b]) == Upper(y[a..b])
  {
    assert forall i :: 0 <= i < b - a ==> x[a..b][i] == x[a + i] && y[a..b][i] == y[a + i];
  }

  lemma CaseKeepsSpaces(x: string, y: string)
    requires |x| == |y| && forall i :: 0 <= i < |x| ==> UpperChar(x[i]) == UpperChar(y[i])
    ensures SameSpaces(x, y)
  {
    forall i | 0 <= i < |x| ensures IsSpace(x[i]) == IsSpace(y[i]) {
      assert IsSpace(UpperChar(x[i])) == IsSpace(x[i]);
      assert IsSpace(UpperChar(y[i])) == IsSpace(y[i]);
    }
  }

  /** Codes that differ only in the case of ASCII letters normalise alike:
      the coupon lookup does not depend on case. */
  lemma NormalizeIgnoresCase(x: string, y: string)
    requires |x| == |y| && forall i :: 0 <= i < |x| ==> UpperChar(x[i]) == UpperChar(y[i])
    ensures Normalize(Some(x)) == Normalize(Some(y))
  {
    CaseKeepsSpaces(x, y);
    var a, b := StripSame(x, y);
    UpperSlices(x, y, a, b);
  }

  lemma UpperPointwise(x: string, y: string)
    requires |x| == |y| && forall i :: 0 <= i < |x| ==> UpperChar(x[i]) == y[i]
    ensures Upper(x) == y
  {
  }

  lemma StripExample()
    ensures Strip(" save10 ") == "save10"
  {
    assert " save10 " == " " + "save10" + " ";
    StripPadding(" ", "save10", " ");
  }

  lemma UpperExample()
    ensures Upper("save10") == "SAVE10"
  {
    assert UpperChar('s') == 'S' && UpperChar('a') == 'A' && UpperChar('v') == 'V' && UpperChar('e') == 'E';
    UpperPointwise("save10", "SAVE10");
  }

  /** A padded lower-case code is the coupon it names. */
  lemma NormalizeExample()
    ensures Normalize(Some(" save10 ")) == "SAVE10"
  {
    StripExample();
    UpperExample();
  }

  /** The padded lower-case code earns the coupon's discount. */
  lemma NormalizedQuoteExample()
    ensures QuoteFor(Normalize(Some(" save10 ")), 1000000) == Quote(true, "SAVE10", 1000000, 100000, 900000)
  {
    NormalizeExample();
    QuoteExamples();
  }

  /** Normalising a normalised code changes nothing. */
  lemma {:induction false} NormalizeIdempotent(field: Option<string>)
    ensures Normalize(Some(Normalize(field))) == Normalize(field)
  {
    var n := Normalize(field);
    StrippedStrip(n);
    assert Upper(n) == n;
  }

  // ---------------------------------------------------------------------
  // The coupon table and the discount of a rule
  // ---------------------------------------------------------------------

  /** A coupon takes a percentage of the subtotal or a fixed amount off it. */
  datatype Rule = Percent(rate: int) | Fixed(amount: int)

  /** The `COUPONS` table. */
  const Coupons: map<string, Rule> :=
    map["SAVE10" := Percent(10), "SAVE5" := Percent(5), "LESS100K" := Fixed(100000)]

  /** A rule that never takes off more than the subtotal nor adds to it. */
  predicate Sound(rule: Rule)
  {
    match rule
    case Percent(rate) => 0 <= rate <= 100
    case Fixed(amount) => 0 <= amount
  }

  /** Python's `round` of the exact quotient `n / d`: the nearest integer,
      and on a tie the even one. */
  function RoundHalfEven(n: int, d: int): (r: int)
    requires d > 0
    ensures -d <= 2 * (n - r * d) <= d
    ensures (2 * (n - r * d) == d || 2 * (n - r * d) == -d) ==> r % 2 == 0
  {
    var q, m := n / d, n % d;
    assert n - q * d == m;
    assert n - (q + 1) * d == m - d by {
      assert (q + 1) * d == q * d + d;
    }
    if 2 * m < d then q
    else if 2 * m > d then q + 1
    else if q % 2 == 0 then q
    else q + 1
  }

  /** Two integers at most half of `d` from `n / d`, seen as `n - x * d`, and
      `k >= 1` steps of `d` apart, are exactly one step apart, on the two ties. */
  lemma TieGap(a: int, b: int, k: int, d: int)
    requires d > 0 && k >= 1 && b - a == k * d
    requires -d <= 2 * a && 2 * b <= d
    ensures k == 1 && 2 * b == d && 2 * a == -d
  {
  }

  /** Those two conditions single out one integer. */
  lemma RoundHalfEvenUnique(n: int, d: int, r: int)
    requires d > 0
    requires -d <= 2 * (n - r * d) <= d
    requires (2 * (n - r * d) == d || 2 * (n - r * d) == -d) ==> r % 2 == 0
    ensures r == RoundHalfEven(n, d)
  {
    var s := RoundHalfEven(n, d);
    var a, b := n - r * d, n - s * d;
    if r > s {
      MulSub(r, s, d);
      TieGap(a, b, r - s, d);
    } else if r < s {
      MulSub(s, r, d);
      TieGap(b, a, s - r, d);
    }
  }

  lemma MulSub(x: int, y: int, d: int)
    ensures x * d - y * d == (x - y) * d
  {
  }

  /** The discount a rule gives on a subtotal: `round(subtotal * rate / 100)`
      for a percentage, `min(amount, subtotal)` for a fixed amount. */
  function RuleDiscount(rule: Rule, subtotal: int): (d: int)
    ensures rule.Percent? ==> -100 <= 2 * (subtotal * rule.rate - 100 * d) <= 100
    ensures rule.Fixed? ==> d <= subtotal && d <= rule.amount && (d == subtotal || d == rule.amount)
    ensures Sound(rule) && 0 <= subtotal ==> 0 <= d <= subtotal
  {
    match rule
    case Percent(rate) =>
      var d := RoundHalfEven(subtotal * rate, 100);
      assert rate <= 100 && 0 <= subtotal ==> subtotal * rate <= subtotal * 100;
      d
    case Fixed(amount) => if amount < subtotal then amount else subtotal
  }

  lemma CouponsSound()
    ensures forall code :: code in Coupons ==> Sound(Coupons[code])
  {
  }

  /** The JSON reply of `apply_discount` once the order is known. */
  datatype Quote = Quote(ok: bool, code: string, subtotal: int, discount: int, total: int)

  /** The reply for a normalised code on a subtotal. An empty or unknown
      code is rejected with no discount; a known one gets its rule's. */
  function QuoteFor(code: string, subtotal: int): (q: Quote)
    ensures q.subtotal == subtotal && q.total == subtotal - q.discount
    ensures q.ok <==> code in Coupons
    ensures !q.ok ==> q.code == "" && q.discount == 0 && q.total == subtotal
    ensures q.ok ==> q.code == code && q.discount == RuleDiscount(Coupons[code], subtotal)
    ensures 0 <= subtotal ==> 0 <= q.discount <= subtotal && 0 <= q.total <= subtotal
  {
    CouponsSound();
    if code == "" || code !in Coupons then Quote(false, "", subtotal, 0, subtotal)
    else
      var d := RuleDiscount(Coupons[code], subtotal);
      Quote(true, code, subtotal, d, subtotal - d)
  }

  // ---------------------------------------------------------------------
  // The clamp at checkout and payment
  // ---------------------------------------------------------------------

  /** The stored discount, lowered to the subtotal when it is larger. */
  function EffectiveDiscount(stored: int, subtotal: int): (d: int)
    ensures d <= subtotal && d <= stored
    ensures d == stored || d == subtotal
  {
    if stored > subtotal then subtotal else stored
  }

  /** `final_total = subtotal - discount_amount` after the clamp: never negative. */
  function FinalTotal(stored: int, subtotal: int): (t: int)
    ensures t >= 0
    ensures t + EffectiveDiscount(stored, subtotal) == subtotal
    ensures stored <= subtotal ==> t == subtotal - stored
  {
    subtotal - EffectiveDiscount(stored, subtotal)
  }

  /** A quote on a non-negative subtotal is not clamped again at checkout
      while the subtotal stays the same, so checkout shows the quoted total. */
  lemma {:induction false} QuoteSurvivesCheckout(code: string, subtotal: int)
    requires 0 <= subtotal
    ensures var q := QuoteFor(code, subtotal);
            EffectiveDiscount(q.discount, subtotal) == q.discount && FinalTotal(q.discount, subtotal) == q.total
  {
  }

  /** When the cart shrinks after a discount was applied, checkout takes at
      most the new subtotal off, and the total is zero exactly when the
      stored discount covers the subtotal. */
  lemma ClampAfterShrink(stored: int, subtotal: int)
    ensures FinalTotal(stored, subtotal) == 0 <==> stored >= subtotal
  {
  }

  // ---------------------------------------------------------------------
  // Worked values
  // ---------------------------------------------------------------------

  /** SAVE10 on 1,000,000 takes 100,000 off; LESS100K on 50,000 takes the
      whole 50,000; an unknown code takes nothing off. */
  lemma QuoteExamples()
    ensures QuoteFor("SAVE10", 1000000) == Quote(true, "SAVE10", 1000000, 100000, 900000)
    ensures QuoteFor("LESS100K", 50000) == Quote(true, "LESS100K", 50000, 50000, 0)
    ensures QuoteFor("SAVE20", 50000) == Quote(false, "", 50000, 0, 50000)
  {
  }

  /** Ties round to even, as Python's `round` does: 10% of 25 is 2, 10% of
      35 is 4, 5% of 10 is 0. */
  lemma TiesToEven()
    ensures RuleDiscount(Percent(10), 25) == 2
    ensures RuleDiscount(Percent(10), 35) == 4
    ensures RuleDiscount(Percent(5), 10) == 0
  {
  }
}
