/** The reading formulas of MirotorBot/formulas.py. Every formula takes the five
    picked cards in selection order: the first three are the "affirmative" group,
    the last two the "negative" group. The images and charts the formulas also
    draw are not part of this model; only the values and texts they return are. */
module Formulas {
  import opened Text
  import opened Wrappers
  import opened Seqs
  import opened Catalog

  // ===========================================================================
  // formula2: the energy balance score

  /** `int(re.sub(r'\D', '', card.get('power', 0)))`. The unknown card `{}` has no
      power (`re.sub` on the default 0 raises), and a power text without any digit
      makes `int('')` raise. */
  function Power(c: Card): Option<nat> {
    if c.Unknown? || DigitsOnly(c.power) == [] then None
    else Some(DecimalValue(DigitsOnly(c.power)))
  }

  /** A card has no power exactly when it is `{}` or its power text holds no digit;
      a power written in digits only is read as that number. */
  lemma PowerCases(c: Card)
    ensures Power(c).None? <==> c.Unknown? || forall i :: 0 <= i < |c.power| ==> !IsDigit(c.power[i])
    ensures c.Card? && c.power != [] && AllDigits(c.power) ==> Power(c) == Some(DecimalValue(c.power))
  {
    if c.Card? {
      DigitsOnlyEmpty(c.power);
      DigitsOnlyOfDigits(c.power);
    }
  }

  /** Every card in `cards[lo..hi]` has a numeric power. */
  predicate HasPowersIn(cards: seq<Card>, lo: nat, hi: nat)
    requires lo <= hi <= |cards|
  {
    forall i :: lo <= i < hi ==> Power(cards[i]).Some?
  }

  predicate HasPowers(cards: seq<Card>) {
    HasPowersIn(cards, 0, |cards|)
  }

  /** The sum of the powers of `cards[lo..hi]`. */
  function PowerSum(cards: seq<Card>, lo: nat, hi: nat): int
    requires lo <= hi <= |cards| && HasPowersIn(cards, lo, hi)
    decreases hi
  {
    if lo == hi then 0 else PowerSum(cards, lo, hi - 1) + Power(cards[hi - 1]).value
  }

  /** The energy balance of a reading: the first three picks add their power,
      the last two subtract theirs. */
  function Score(cards: seq<Card>): int
    requires |cards| == 5 && HasPowers(cards)
  {
    PowerSum(cards, 0, 3) - PowerSum(cards, 3, 5)
  }

  /** Why a card has no numeric power: the unknown card `{}` makes `re.sub` raise
      `TypeError` on the default 0; a power text without a digit makes `int('')`
      raise `ValueError`. */
  datatype PowerFault = NotText | NoDigits

  /** The exception `formula2` raises: card `index` has no numeric power. */
  datatype PowerError = PowerNotNumeric(index: nat, fault: PowerFault)

  function FaultOf(c: Card): PowerFault {
    if c.Unknown? then NotText else NoDigits
  }

  /** Card `i` is the first of the selection without a numeric power. */
  predicate FirstWithoutPower(cards: seq<Card>, i: nat) {
    i < |cards| && Power(cards[i]).None? && HasPowersIn(cards, 0, i)
  }

  /** `formula2`: `None` unless exactly five cards are given; otherwise the score,
      or the exception raised at the first card whose power is not a number. */
  method Formula2(cards: seq<Card>) returns (r: Result<Option<int>, PowerError>)
    ensures |cards| != 5 ==> r == Success(None)
    ensures |cards| == 5 && HasPowers(cards) ==> r == Success(Some(Score(cards)))
    ensures |cards| == 5 && !HasPowers(cards) ==> r.Failure? && FirstWithoutPower(cards, r.error.index)
    ensures r.Failure? ==> r.error.index < |cards| && (r.error.fault == NotText <==> cards[r.error.index].Unknown?)
  {
    if |cards| != 5 {
      return Success(None);
    }
    var positive, negative := cards[..3], cards[3..];
    var result: int := 0;
    for i := 0 to 3
      invariant HasPowersIn(cards, 0, i) && result == PowerSum(cards, 0, i)
    {
      var power := Power(positive[i]);
      if power.None? {
        return Failure(PowerNotNumeric(i, FaultOf(positive[i])));
      }
      result := result + power.value;
    }
    for i := 0 to 2
      invariant HasPowersIn(cards, 0, 3 + i) && HasPowersIn(cards, 3, 3 + i)
      invariant result == PowerSum(cards, 0, 3) - PowerSum(cards, 3, 3 + i)
    {
      var power := Power(negative[i]);
      if power.None? {
        return Failure(PowerNotNumeric(3 + i, FaultOf(negative[i])));
      }
      result := result - power.value;
    }
    return Success(Some(result));
  }

  /** The score is the signed sum of the five powers, term by term. */
  lemma ScoreTerms(cards: seq<Card>)
    requires |cards| == 5 && HasPowers(cards)
    ensures Score(cards) == Power(cards[0]).value + Power(cards[1]).value + Power(cards[2]).value
                          - Power(cards[3]).value - Power(cards[4]).value
  {
    assert PowerSum(cards, 0, 1) == Power(cards[0]).value;
    assert PowerSum(cards, 3, 4) == Power(cards[3]).value;
  }

  /** Powers "10W", "5W", "3W" against "2W", "1W" balance to 18 - 3 = 15. */
  lemma ScoreExample(c0: Card, c1: Card, c2: Card, c3: Card, c4: Card)
    requires c0.Card? && c0.power == "10W"
    requires c1.Card? && c1.power == "5W"
    requires c2.Card? && c2.power == "3W"
    requires c3.Card? && c3.power == "2W"
    requires c4.Card? && c4.power == "1W"
    ensures HasPowers([c0, c1, c2, c3, c4]) && Score([c0, c1, c2, c3, c4]) == 15
  {
    TwoDigitPower(c0, '1', '0');
    SingleDigitPower(c1, '5');
    SingleDigitPower(c2, '3');
    SingleDigitPower(c3, '2');
    SingleDigitPower(c4, '1');
    var cards := [c0, c1, c2, c3, c4];
    assert HasPowers(cards) by {
      assert forall i :: 0 <= i < 5 ==> Power(cards[i]).Some?;
    }
    ScoreTerms(cards);
  }

  lemma TwoDigitPower(c: Card, d: char, e: char)
    requires c.Card? && IsDigit(d) && IsDigit(e) && c.power == [d, e, 'W']
    ensures Power(c) == Some(10 * DigitValue(d) + DigitValue(e))
  {
    DigitsBeforeUnit(d, [e, 'W']);
    DigitsBeforeUnit(e, "W");
    assert [d, e, 'W'] == [d] + [e, 'W'] && [e, 'W'] == [e] + "W";
    assert DigitsOnly(c.power) == [d, e] by {
      assert [d] + ([e] + "") == [d, e];
    }
    assert DecimalValue([d]) == DigitValue(d) by {
      assert [d][..0] == [];
    }
    assert DecimalValue([d, e]) == 10 * DigitValue(d) + DigitValue(e) by {
      assert [d, e][..1] == [d];
    }
  }

  lemma SingleDigitPower(c: Card, d: char)
    requires c.Card? && IsDigit(d) && c.power == [d, 'W']
    ensures Power(c) == Some(DigitValue(d))
  {
    DigitsBeforeUnit(d, "W");
    assert [d, 'W'] == [d] + "W";
    assert DecimalValue([d]) == DigitValue(d) by {
      assert [d][..0] == [];
    }
  }

  lemma DigitsBeforeUnit(d: char, rest: string)
    requires IsDigit(d)
    ensures DigitsOnly([d] + rest) == [d] + DigitsOnly(rest)
    ensures DigitsOnly("W") == ""
  {
    assert ([d] + rest)[1..] == rest;
    assert "W"[1..] == "";
  }

  // ===========================================================================
  // formula1: the description list

  /** One line per card: the prefix, then the card's description. */
  function PrefixedDescs(cards: seq<Card>, prefix: string): (lines: seq<string>)
    ensures |lines| == |cards|
    ensures forall i :: 0 <= i < |cards| ==> lines[i] == prefix + Desc(cards[i])
  {
    if cards == [] then [] else [prefix + Desc(cards[0])] + PrefixedDescs(cards[1..], prefix)
  }

  const NotPrefix: string := "• НЕ "
  const Bullet: string := "• "

  /** The five description lines: the affirmative picks framed as "not needed". */
  function DescriptionLines(cards: seq<Card>): seq<string>
    requires |cards| == 5
  {
    PrefixedDescs(cards[..3], NotPrefix) + PrefixedDescs(cards[3..], Bullet)
  }

  /** `formula1`: `None` unless exactly five cards; otherwise the lines joined by newlines. */
  method Formula1(cards: seq<Card>) returns (r: Option<string>)
    ensures |cards| != 5 ==> r == None
    ensures |cards| == 5 ==> r == Some(Join(DescriptionLines(cards), "\n"))
  {
    if |cards| != 5 {
      return None;
    }
    var positive, negative := cards[..3], cards[3..];
    var result: seq<string> := [];
    for i := 0 to 3
      invariant result == PrefixedDescs(positive[..i], NotPrefix)
    {
      result := result + [NotPrefix + Desc(positive[i])];
    }
    assert positive[..3] == positive;
    for i := 0 to 2
      invariant result == PrefixedDescs(positive, NotPrefix) + PrefixedDescs(negative[..i], Bullet)
    {
      result := result + [Bullet + Desc(negative[i])];
    }
    assert negative[..2] == negative;
    return Some(Join(result, "\n"));
  }

  /** Read line by line, the description text is exactly five lines in selection order:
      "• НЕ " and a description for each of the first three picks, "• " and a
      description for each of the last two (given that no description spans lines). */
  lemma DescriptionTextLines(cards: seq<Card>)
    requires |cards| == 5
    requires forall i :: 0 <= i < 5 ==> '\n' !in Desc(cards[i])
    ensures var lines := Split(Join(DescriptionLines(cards), "\n"), '\n');
      && |lines| == 5
      && (forall i :: 0 <= i < 3 ==> lines[i] == "• НЕ " + Desc(cards[i]))
      && (forall i :: 3 <= i < 5 ==> lines[i] == "• " + Desc(cards[i]))
  {
    var lines := DescriptionLines(cards);
    forall i | 0 <= i < |lines|
      ensures '\n' !in lines[i]
    {
      if i < 3 {
        assert lines[i] == NotPrefix + Desc(cards[i]);
      } else {
        assert lines[i] == Bullet + Desc(cards[3..][i - 3]);
      }
    }
    SplitJoin(lines, '\n');
  }

  // ===========================================================================
  // get_recommendation

  /** One bullet per card with its Russian recommendation, each followed by a blank line. */
  function RecommendationItems(cards: seq<Card>): string {
    if cards == [] then "" else "• " + RecRu(cards[0]) + "\n\n" + RecommendationItems(cards[1..])
  }

  /** The recommendation text of a longer selection is that of its first part
      followed by that of the rest. */
  lemma {:induction false} RecommendationItemsAppend(a: seq<Card>, b: seq<Card>)
    ensures RecommendationItems(a + b) == RecommendationItems(a) + RecommendationItems(b)
  {
    if a != [] {
      assert (a + b)[1..] == a[1..] + b;
      RecommendationItemsAppend(a[1..], b);
    } else {
      assert a + b == b;
    }
  }

  const RecommendationHeader: string := "Рекомендация:\n"

  /** `get_recommendation`: the header, then every picked card's bullet in order. */
  method Recommendation(cards: seq<Card>) returns (r: string)
    ensures r == RecommendationHeader + RecommendationItems(cards)
  {
    r := RecommendationHeader;
    for i := 0 to |cards|
      invariant r == RecommendationHeader + RecommendationItems(cards[..i])
    {
      var item := "• " + RecRu(cards[i]) + "\n\n";
      RecommendationItemsAppend(cards[..i], [cards[i]]);
      assert cards[..i + 1] == cards[..i] + [cards[i]];
      assert RecommendationItems([cards[i]]) == item + RecommendationItems([]);
      r := r + item;
    }
    assert cards[..|cards|] == cards;
  }

  // ===========================================================================
  // get_degree, get_color, get_res_string

  function Abs(x: int): nat {
    if x < 0 then -x else x
  }

  /** `get_degree`: `(|x| - 1) * 15` degrees for a non-zero tally, `--` for zero. */
  function Degree(x: int): (r: string)
    ensures x == 0 <==> r == "--"
    ensures x != 0 ==> r == NatToString((Abs(x) - 1) * 15) + "°"
  {
    if x != 0 then
      var r := if x < 0 then IntToString((Abs(x) - 1) * 15) + "°" else IntToString((x - 1) * 15) + "°";
      assert r[|r| - 1] == '°';
      r
    else "--"
  }

  /** The degree text depends only on the magnitude, not on the sign. */
  lemma DegreeSymmetric(x: int)
    ensures Degree(-x) == Degree(x)
  {
  }

  /** Different magnitudes are shown as different degree texts. */
  lemma DegreeDeterminesMagnitude(x: int, y: int)
    requires Degree(x) == Degree(y)
    ensures Abs(x) == Abs(y)
  {
    if x != 0 && y != 0 {
      var dx, dy := NatToString((Abs(x) - 1) * 15), NatToString((Abs(y) - 1) * 15);
      assert dx == (dx + "°")[..|dx + "°"| - 1];
      assert dy == (dy + "°")[..|dy + "°"| - 1];
      NatToStringRoundTrip((Abs(x) - 1) * 15);
      NatToStringRoundTrip((Abs(y) - 1) * 15);
    }
  }

  /** `get_color`: the text colour by sign. */
  function Color(x: int): (r: (int, int, int))
    ensures x < 0 <==> r == (0, 163, 255)
    ensures x > 0 <==> r == (255, 153, 0)
    ensures x == 0 <==> r == (0, 0, 0)
  {
    if x < 0 then (0, 163, 255) else if x > 0 then (255, 153, 0) else (0, 0, 0)
  }

  /** The prefix of `get_res_string`. */
  function SignPrefix(x: int): string {
    if x > 0 then "ВП" else if x < 0 then "НЗ" else ""
  }

  /** `get_res_string(items, key)`: the sign prefix, a space, the degree text.
      The precondition stands for the `KeyError` a missing key would raise; the
      drawing code only ever asks for the four keys of the tally. */
  function ResString(items: map<string, int>, key: string): (r: string)
    requires key in items
    ensures items[key] > 0 <==> |r| >= 2 && r[..2] == "ВП"
    ensures items[key] < 0 <==> |r| >= 2 && r[..2] == "НЗ"
    ensures items[key] == 0 <==> r == " --"
  {
    var r := SignPrefix(items[key]) + " " + Degree(items[key]);
    assert |r| >= 2 ==> r[..2] == [r[0], r[1]];
    r
  }

  /** The text drawn for a tag determines the tag's tally value. */
  lemma ResStringDeterminesValue(items: map<string, int>, key: string, other: map<string, int>, key': string)
    requires key in items && key' in other
    requires ResString(items, key) == ResString(other, key')
    ensures items[key] == other[key']
  {
    var v, w := items[key], other[key'];
    var s := ResString(items, key);
    if v != 0 && w != 0 {
      assert (v > 0) == (w > 0);
      assert s == SignPrefix(v) + " " + Degree(v);
      assert Degree(v) == s[3..] == Degree(w);
      DegreeDeterminesMagnitude(v, w);
    }
  }

  // ===========================================================================
  // bones_sum: the union of the bone codes of a group

  /** The elements of `xs` that do not occur in `ys`, in their order (duplicates kept). */
  function Without(xs: seq<string>, ys: seq<string>): (r: seq<string>)
    ensures |r| <= |xs|
  {
    if xs == [] then [] else (if xs[0] in ys then [] else [xs[0]]) + Without(xs[1..], ys)
  }

  /** What survives the filter is exactly what `ys` lacks. */
  lemma {:induction false} WithoutMembers(xs: seq<string>, ys: seq<string>)
    ensures forall x :: x in Without(xs, ys) <==> x in xs && x !in ys
  {
    if xs != [] {
      WithoutMembers(xs[1..], ys);
      assert xs == [xs[0]] + xs[1..];
    }
  }

  lemma {:induction false} WithoutAppend(a: seq<string>, b: seq<string>, ys: seq<string>)
    ensures Without(a + b, ys) == Without(a, ys) + Without(b, ys)
  {
    if a == [] {
      assert a + b == b;
    } else {
      assert (a + b)[1..] == a[1..] + b;
      WithoutAppend(a[1..], b, ys);
    }
  }

  /** Filtering keeps the order of what survives. */
  lemma {:induction false} WithoutKeepsOrder(xs: seq<string>, ys: seq<string>)
    ensures Subsequence(Without(xs, ys), xs)
  {
    if xs != [] {
      WithoutKeepsOrder(xs[1..], ys);
      if xs[0] !in ys {
        var r := [xs[0]] + Without(xs[1..], ys);
        assert Without(xs, ys) == r;
        assert r[0] == xs[0] && r[1..] == Without(xs[1..], ys);
      } else {
        assert Without(xs, ys) == Without(xs[1..], ys);
      }
    }
  }

  /** The codes collected from a group: each card adds, in order, those of its
      codes that no earlier card of the group contributed. */
  function BonesUnion(cards: seq<Card>): seq<string> {
    if cards == [] then []
    else
      var earlier := BonesUnion(cards[..|cards| - 1]);
      earlier + Without(Bones(cards[|cards| - 1]), earlier)
  }

  /** `bones_sum`: `bones.extend([x for x in card.get('bones', []) if x not in bones])`
      for each card; the comprehension is evaluated before the extension, so a code
      repeated within one card is added every time. */
  method BonesSum(cards: seq<Card>) returns (bones: seq<string>)
    ensures bones == BonesUnion(cards)
  {
    bones := [];
    for i := 0 to |cards|
      invariant bones == BonesUnion(cards[..i])
    {
      var added := Without(Bones(cards[i]), bones);
      assert cards[..i + 1][..i] == cards[..i];
      bones := bones + added;
    }
    assert cards[..|cards|] == cards;
  }

  /** Some card of the group carries `x`. */
  predicate CarriedBy(x: string, cards: seq<Card>) {
    exists i :: 0 <= i < |cards| && x in Bones(cards[i])
  }

  /** The union holds exactly the codes some card of the group carries. */
  lemma {:induction false} BonesUnionMembers(cards: seq<Card>)
    ensures forall x :: x in BonesUnion(cards) <==> CarriedBy(x, cards)
  {
    if cards != [] {
      var init := cards[..|cards| - 1];
      BonesUnionMembers(init);
      WithoutMembers(Bones(cards[|cards| - 1]), BonesUnion(init));
      forall x
        ensures x in BonesUnion(cards) <==> CarriedBy(x, cards)
      {
        if CarriedBy(x, cards) {
          var i :| 0 <= i < |cards| && x in Bones(cards[i]);
          if i < |cards| - 1 {
            assert init[i] == cards[i];
          }
        }
        if CarriedBy(x, init) {
          var i :| 0 <= i < |init| && x in Bones(init[i]);
          assert cards[i] == init[i];
        }
      }
    }
  }

  /** When no card repeats a code of its own, the union has no repeats either. */
  lemma {:induction false} BonesUnionNoRepeats(cards: seq<Card>)
    requires forall i :: 0 <= i < |cards| ==> NoRepeats(Bones(cards[i]))
    ensures NoRepeats(BonesUnion(cards))
  {
    if cards != [] {
      var init := cards[..|cards| - 1];
      BonesUnionNoRepeats(init);
      var earlier := BonesUnion(init);
      var added := Without(Bones(cards[|cards| - 1]), earlier);
      WithoutNoRepeats(Bones(cards[|cards| - 1]), earlier);
      WithoutMembers(Bones(cards[|cards| - 1]), earlier);
      var u := earlier + added;
      forall i, j | 0 <= i < j < |u|
        ensures u[i] != u[j]
      {
        if j >= |earlier| && i < |earlier| {
          assert u[j] in added && u[i] in earlier;
        } else if i >= |earlier| {
          assert u[i] == added[i - |earlier|] && u[j] == added[j - |earlier|];
        }
      }
    }
  }

  lemma {:induction false} WithoutNoRepeats(xs: seq<string>, ys: seq<string>)
    requires NoRepeats(xs)
    ensures NoRepeats(Without(xs, ys))
  {
    if xs != [] {
      WithoutNoRepeats(xs[1..], ys);
      WithoutMembers(xs[1..], ys);
      assert xs[0] !in xs[1..] by {
        forall k | 0 <= k < |xs[1..]| ensures xs[1..][k] != xs[0] {
          assert xs[1..][k] == xs[k + 1];
        }
      }
      var rest := Without(xs[1..], ys);
      var r := (if xs[0] in ys then [] else [xs[0]]) + rest;
      forall i, j | 0 <= i < j < |r|
        ensures r[i] != r[j]
      {
        if xs[0] !in ys && i == 0 {
          assert r[j] == rest[j - 1] && r[j] in rest;
        }
      }
    }
  }

  /** A code a card carries twice survives twice: the check runs against the codes
      of the earlier cards only. */
  lemma RepeatWithinCardSurvives(c: Card)
    requires c.Card? && c.bones == ["C1", "C1"]
    ensures BonesUnion([c]) == ["C1", "C1"]
  {
    assert [c][..0] == [];
    var twice: seq<string> := ["C1", "C1"];
    assert twice[1..] == ["C1"] && ["C1"][1..] == [];
    assert Without(["C1"], []) == ["C1"];
    assert Without(twice, []) == ["C1"] + Without(["C1"], []);
  }

  // ===========================================================================
  // sort_f and the ordering of formula3

  /** The category rank of `sort_f`: C, T, L, S. */
  function Rank(c: char): nat
    requires IsBoneLetter(c)
  {
    if c == 'C' then 0 else if c == 'T' then 1 else if c == 'L' then 2 else 3
  }

  /** The codes `sort_f` accepts: a first character, and decimal digits after it when
      that character is a category letter (otherwise `int()` raises). Every code the
      bone pattern matches is one. */
  predicate HasSortKey(x: string) {
    |x| >= 1 && (IsBoneLetter(x[0]) ==> |x| >= 2 && AllDigits(x[1..]))
  }

  /** `sort_f`: the numeric part plus 100 times the category rank; 0 for a code that
      starts with none of the four letters. */
  function SortKey(x: string): (k: int)
    requires HasSortKey(x)
    ensures k >= 0
    ensures !IsBoneLetter(x[0]) ==> k == 0
    ensures IsBoneCode(x) ==> 100 * Rank(x[0]) <= k < 100 * Rank(x[0]) + 100
  {
    BoneCodeBelowHundred(x);
    if IsBoneLetter(x[0]) then DecimalValue(x[1..]) + Rank(x[0]) * 100 else 0
  }

  lemma {:induction false} TwoDigitsBelowHundred(s: string)
    requires AllDigits(s) && |s| <= 2
    ensures DecimalValue(s) < 100
  {
    if s != [] {
      TwoDigitsBelowHundred(s[..|s| - 1]);
      if |s| == 2 {
        assert s[..1][..0] == [];
      }
    }
  }

  lemma BoneCodeBelowHundred(x: string)
    ensures IsBoneCode(x) ==> DecimalValue(x[1..]) < 100
  {
    if IsBoneCode(x) {
      TwoDigitsBelowHundred(x[1..]);
    }
  }

  /** On bone codes the key orders by category first, then by number. */
  lemma SortKeyOrder(a: string, b: string)
    requires IsBoneCode(a) && IsBoneCode(b)
    ensures SortKey(a) <= SortKey(b) <==>
      Rank(a[0]) < Rank(b[0]) || (Rank(a[0]) == Rank(b[0]) && DecimalValue(a[1..]) <= DecimalValue(b[1..]))
    ensures SortKey(a) == SortKey(b) <==>
      Rank(a[0]) == Rank(b[0]) && DecimalValue(a[1..]) == DecimalValue(b[1..])
  {
    TwoDigitsBelowHundred(a[1..]);
    TwoDigitsBelowHundred(b[1..]);
  }

  predicate KeysDefined(s: seq<string>) {
    forall i :: 0 <= i < |s| ==> HasSortKey(s[i])
  }

  predicate SortedByKey(s: seq<string>)
    requires KeysDefined(s)
  {
    forall i, j :: 0 <= i < j < |s| ==> SortKey(s[i]) <= SortKey(s[j])
  }

  /** Insert `x` in front of the first element with a key not below its own. */
  function Insert(x: string, s: seq<string>): (r: seq<string>)
    requires HasSortKey(x) && KeysDefined(s)
    ensures KeysDefined(r) && multiset(r) == multiset(s) + multiset{x}
  {
    if s == [] || SortKey(x) <= SortKey(s[0]) then [x] + s
    else
      assert s == [s[0]] + s[1..];
      [s[0]] + Insert(x, s[1..])
  }

  /** A key no larger than every key of a sorted list can go in front of it. */
  lemma SortedCons(a: string, t: seq<string>)
    requires HasSortKey(a) && KeysDefined(t) && SortedByKey(t)
    requires forall j :: 0 <= j < |t| ==> SortKey(a) <= SortKey(t[j])
    ensures KeysDefined([a] + t) && SortedByKey([a] + t)
  {
    var r := [a] + t;
    forall i, j | 0 <= i < j < |r|
      ensures SortKey(r[i]) <= SortKey(r[j])
    {
      assert r[j] == t[j - 1];
      if i > 0 {
        assert r[i] == t[i - 1];
      }
    }
  }

  /** Inserting into a sorted list keeps it sorted. */
  lemma {:induction false} InsertSorted(x: string, s: seq<string>)
    requires HasSortKey(x) && KeysDefined(s) && SortedByKey(s)
    ensures SortedByKey(Insert(x, s))
  {
    if s == [] || SortKey(x) <= SortKey(s[0]) {
      assert Insert(x, s) == [x] + s;
      SortedCons(x, s);
    } else {
      var t := Insert(x, s[1..]);
      assert SortedByKey(t) by {
        InsertSorted(x, s[1..]);
      }
      assert forall j :: 0 <= j < |t| ==> SortKey(s[0]) <= SortKey(t[j]) by {
        forall j | 0 <= j < |t|
          ensures SortKey(s[0]) <= SortKey(t[j])
        {
          assert t[j] in multiset(t);
          if t[j] != x {
            assert t[j] in multiset(s[1..]);
            var m :| 0 <= m < |s[1..]| && s[1..][m] == t[j];
            assert s[m + 1] == t[j];
          }
        }
      }
      assert Insert(x, s) == [s[0]] + t;
      SortedCons(s[0], t);
    }
  }

  /** Python's `sorted(xs, key=sort_f)`, here as a stable insertion sort. */
  function SortByKey(s: seq<string>): (r: seq<string>)
    requires KeysDefined(s)
    ensures KeysDefined(r) && SortedByKey(r) && multiset(r) == multiset(s)
  {
    if s == [] then []
    else
      assert s == [s[0]] + s[1..];
      var rest := SortByKey(s[1..]);
      InsertSorted(s[0], rest);
      Insert(s[0], rest)
  }

  /** The elements of `s` with key `k`, in order. */
  function WithKey(s: seq<string>, k: int): seq<string>
    requires KeysDefined(s)
  {
    if s == [] then [] else (if SortKey(s[0]) == k then [s[0]] else []) + WithKey(s[1..], k)
  }

  lemma WithKeyCons(a: string, t: seq<string>, k: int)
    requires HasSortKey(a) && KeysDefined(t)
    ensures KeysDefined([a] + t)
    ensures WithKey([a] + t, k) == (if SortKey(a) == k then [a] else []) + WithKey(t, k)
  {
    assert ([a] + t)[1..] == t;
  }

  lemma {:induction false} InsertStable(x: string, s: seq<string>, k: int)
    requires HasSortKey(x) && KeysDefined(s)
    ensures WithKey(Insert(x, s), k) == (if SortKey(x) == k then [x] else []) + WithKey(s, k)
  {
    var xs: seq<string> := if SortKey(x) == k then [x] else [];
    if s != [] && SortKey(x) > SortKey(s[0]) {
      var t := Insert(x, s[1..]);
      var w := WithKey(s[1..], k);
      var hs: seq<string> := if SortKey(s[0]) == k then [s[0]] else [];
      assert WithKey(Insert(x, s), k) == hs + (xs + w) by {
        InsertStable(x, s[1..], k);
        WithKeyCons(s[0], t, k);
        assert Insert(x, s) == [s[0]] + t;
      }
      assert WithKey(s, k) == hs + w by {
        assert s == [s[0]] + s[1..];
        WithKeyCons(s[0], s[1..], k);
      }
      // x and s[0] have different keys, so at most one of them is kept
      assert hs + (xs + w) == xs + (hs + w) by {
        if xs == [] {
          assert xs + (hs + w) == hs + w;
        } else {
          assert hs == [];
          assert hs + (xs + w) == xs + w;
        }
      }
    } else {
      assert Insert(x, s) == [x] + s;
      WithKeyCons(x, s, k);
    }
  }

  /** The sort is stable: codes with equal keys keep their relative order. */
  lemma {:induction false} SortStable(s: seq<string>, k: int)
    requires KeysDefined(s)
    ensures WithKey(SortByKey(s), k) == WithKey(s, k)
  {
    if s != [] {
      SortStable(s[1..], k);
      InsertStable(s[0], SortByKey(s[1..]), k);
    }
  }

  // ===========================================================================
  // formula3: the bone codes of one group that the other group lacks

  /** `list.remove(x)`: drop the first occurrence. */
  function RemoveFirst(s: seq<string>, x: string): (r: seq<string>)
    requires x in s
    ensures multiset(r) == multiset(s) - multiset{x}
  {
    if s[0] == x then
      assert s == [s[0]] + s[1..];
      s[1..]
    else
      assert s == [s[0]] + s[1..];
      [s[0]] + RemoveFirst(s[1..], x)
  }

  lemma {:induction false} RemoveFirstAfter(p: seq<string>, x: string, rest: seq<string>)
    requires x !in p
    ensures RemoveFirst(p + [x] + rest, x) == p + rest
  {
    var s := p + [x] + rest;
    if p == [] {
      assert s == [x] + rest;
    } else {
      assert s[0] == p[0] && p[0] != x;
      assert s[1..] == p[1..] + [x] + rest;
      RemoveFirstAfter(p[1..], x, rest);
      ConsAppend(p, rest);
    }
  }

  lemma ConsAppend(p: seq<string>, rest: seq<string>)
    requires p != []
    ensures [p[0]] + (p[1..] + rest) == p + rest
  {
    assert p == [p[0]] + p[1..];
  }

  /** `kept = items.copy()`, then `kept.remove(item)` for every `item` of `items`
      that occurs in `other`. Each removal takes out the occurrence the loop is
      standing on, so the result is `items` without every code `other` has. */
  method RemoveShared(items: seq<string>, other: seq<string>) returns (kept: seq<string>)
    ensures kept == Without(items, other)
  {
    kept := items;
    for i := 0 to |items|
      invariant kept == Without(items[..i], other) + items[i..]
    {
      RemoveSharedStep(items, other, i);
      if items[i] in other {
        kept := RemoveFirst(kept, items[i]);
      }
    }
    assert items[..|items|] == items;
  }

  /** One turn of the loop of `RemoveShared`. */
  lemma RemoveSharedStep(items: seq<string>, other: seq<string>, i: nat)
    requires i < |items|
    ensures items[i] in Without(items[..i], other) + items[i..]
    ensures items[i] in other ==>
      RemoveFirst(Without(items[..i], other) + items[i..], items[i]) == Without(items[..i + 1], other) + items[i + 1..]
    ensures items[i] !in other ==>
      Without(items[..i], other) + items[i..] == Without(items[..i + 1], other) + items[i + 1..]
  {
    var item, done, rest := items[i], Without(items[..i], other), items[i + 1..];
    assert Without(items[..i + 1], other) == done + Without([item], other) by {
      assert items[..i + 1] == items[..i] + [item];
      WithoutAppend(items[..i], [item], other);
    }
    assert items[i..] == [item] + rest;
    assert done + items[i..] == done + [item] + rest;
    if item in other {
      assert Without([item], other) == [] by {
        assert [item][1..] == [];
      }
      assert item !in done by {
        WithoutMembers(items[..i], other);
      }
      RemoveFirstAfter(done, item, rest);
      assert done + [] == done;
    } else {
      assert Without([item], other) == [item] by {
        assert [item][1..] == [];
      }
    }
  }

  /** What formula3 returns besides its image: the two sorted sides and the text. */
  datatype BoneDiff = BoneDiff(actual: seq<string>, hidden: seq<string>, text: string)

  function BoneLines(actual: seq<string>, hidden: seq<string>): seq<string> {
    (if actual != [] then ["Реальные: " + Join(actual, ", ")] else [])
    + (if hidden != [] then ["Скрытые: " + Join(hidden, ", ")] else [])
  }

  /** Every code of every card of the selection has a sort key. */
  predicate BonesHaveSortKeys(cards: seq<Card>) {
    forall i :: 0 <= i < |cards| ==> KeysDefined(Bones(cards[i]))
  }

  lemma {:induction false} BonesUnionKeys(cards: seq<Card>)
    requires BonesHaveSortKeys(cards)
    ensures KeysDefined(BonesUnion(cards))
  {
    BonesUnionMembers(cards);
    var u := BonesUnion(cards);
    forall k | 0 <= k < |u|
      ensures HasSortKey(u[k])
    {
      assert u[k] in u;
      var i :| 0 <= i < |cards| && u[k] in Bones(cards[i]);
      var j :| 0 <= j < |Bones(cards[i])| && Bones(cards[i])[j] == u[k];
    }
  }

  lemma WithoutKeys(xs: seq<string>, ys: seq<string>)
    requires KeysDefined(xs)
    ensures KeysDefined(Without(xs, ys))
  {
    var r := Without(xs, ys);
    forall k | 0 <= k < |r|
      ensures HasSortKey(r[k])
    {
      assert r[k] in r;
      WithoutMembers(xs, ys);
      var j :| 0 <= j < |xs| && xs[j] == r[k];
    }
  }

  /** Both sides of formula3 can be given to `sort_f`. */
  lemma BoneDiffKeys(cards: seq<Card>)
    requires |cards| == 5 && BonesHaveSortKeys(cards)
    ensures KeysDefined(Without(BonesUnion(cards[..3]), BonesUnion(cards[3..])))
    ensures KeysDefined(Without(BonesUnion(cards[3..]), BonesUnion(cards[..3])))
  {
    BonesUnionKeys(cards[..3]);
    BonesUnionKeys(cards[3..]);
    WithoutKeys(BonesUnion(cards[..3]), BonesUnion(cards[3..]));
    WithoutKeys(BonesUnion(cards[3..]), BonesUnion(cards[..3]));
  }

  /** The result of formula3 for five cards. */
  function BoneDiffOf(cards: seq<Card>): BoneDiff
    requires |cards| == 5 && BonesHaveSortKeys(cards)
  {
    var positive, negative := BonesUnion(cards[..3]), BonesUnion(cards[3..]);
    BoneDiffKeys(cards);
    Arrange(Without(positive, negative), Without(negative, positive))
  }

  /** The unfolding step of `BoneDiffOf` that `Formula3`, `BoneDiffExclusive` and
      `BoneDiffSorted` use: both filtered unions have sort keys, and the result is
      their arrangement. */
  lemma BoneDiffArranged(cards: seq<Card>)
    requires |cards| == 5 && BonesHaveSortKeys(cards)
    ensures KeysDefined(Without(BonesUnion(cards[..3]), BonesUnion(cards[3..])))
    ensures KeysDefined(Without(BonesUnion(cards[3..]), BonesUnion(cards[..3])))
    ensures BoneDiffOf(cards) ==
      Arrange(Without(BonesUnion(cards[..3]), BonesUnion(cards[3..])), Without(BonesUnion(cards[3..]), BonesUnion(cards[..3])))
  {
    BoneDiffKeys(cards);
  }

  /** The two surviving lists sorted by `sort_f`, and the text naming them. */
  function Arrange(kept: seq<string>, other: seq<string>): BoneDiff
    requires KeysDefined(kept) && KeysDefined(other)
  {
    var actual, hidden := SortByKey(kept), SortByKey(other);
    BoneDiff(actual, hidden, Join(BoneLines(actual, hidden), "\n"))
  }

  /** `formula3`: `None` unless exactly five cards; otherwise each group's codes that
      the other group lacks, sorted by `sort_f`, and the text naming them. */
  method Formula3(cards: seq<Card>) returns (r: Option<BoneDiff>)
    requires |cards| == 5 ==> BonesHaveSortKeys(cards)
    ensures |cards| != 5 ==> r == None
    ensures |cards| == 5 ==> r == Some(BoneDiffOf(cards))
  {
    if |cards| != 5 {
      return None;
    }
    var positive := BonesSum(cards[..3]);
    var negative := BonesSum(cards[3..]);
    var posCopy := RemoveShared(positive, negative);
    var negCopy := RemoveShared(negative, positive);
    BoneDiffArranged(cards);
    var d := ArrangeSides(posCopy, negCopy);
    return Some(d);
  }

  /** The tail of `formula3`: each non-empty side sorted by `sort_f` and named on a
      line of its own; an empty side keeps its (empty) list and gets no line. */
  method ArrangeSides(kept: seq<string>, other: seq<string>) returns (d: BoneDiff)
    requires KeysDefined(kept) && KeysDefined(other)
    ensures d == Arrange(kept, other)
  {
    var posCopy, negCopy := kept, other;
    var text: seq<string> := [];
    if posCopy != [] {
      posCopy := SortByKey(posCopy);
      text := text + ["Реальные: " + Join(posCopy, ", ")];
    }
    if negCopy != [] {
      negCopy := SortByKey(negCopy);
      text := text + ["Скрытые: " + Join(negCopy, ", ")];
    }
    assert posCopy == SortByKey(kept) && negCopy == SortByKey(other);
    assert text == BoneLines(posCopy, negCopy);
    return BoneDiff(posCopy, negCopy, Join(text, "\n"));
  }

  /** Mutual exclusion: a code is on the "actual" side exactly when some affirmative
      pick carries it and no negative pick does, and on the "hidden" side exactly
      in the opposite case; so no code is on both sides. */
  lemma BoneDiffExclusive(cards: seq<Card>)
    requires |cards| == 5 && BonesHaveSortKeys(cards)
    ensures forall x :: x in BoneDiffOf(cards).actual <==> CarriedBy(x, cards[..3]) && !CarriedBy(x, cards[3..])
    ensures forall x :: x in BoneDiffOf(cards).hidden <==> CarriedBy(x, cards[3..]) && !CarriedBy(x, cards[..3])
    ensures forall x :: !(x in BoneDiffOf(cards).actual && x in BoneDiffOf(cards).hidden)
  {
    var positive, negative := BonesUnion(cards[..3]), BonesUnion(cards[3..]);
    BoneDiffArranged(cards);
    BonesUnionMembers(cards[..3]);
    BonesUnionMembers(cards[3..]);
    WithoutMembers(positive, negative);
    WithoutMembers(negative, positive);
    SortByKeyMembers(Without(positive, negative));
    SortByKeyMembers(Without(negative, positive));
  }

  /** Sorting neither adds nor drops a code. */
  lemma SortByKeyMembers(s: seq<string>)
    requires KeysDefined(s)
    ensures forall x :: x in SortByKey(s) <==> x in s
  {
    forall x
      ensures x in SortByKey(s) <==> x in s
    {
      assert x in SortByKey(s) <==> x in multiset(SortByKey(s));
      assert x in s <==> x in multiset(s);
    }
  }

  /** Each side holds its group's surviving codes, each as many times as the
      group's union has it, in `sort_f` order, and equal keys in union order. */
  lemma BoneDiffSorted(cards: seq<Card>)
    requires |cards| == 5 && BonesHaveSortKeys(cards)
    ensures var d := BoneDiffOf(cards);
      var positive, negative := BonesUnion(cards[..3]), BonesUnion(cards[3..]);
      && KeysDefined(d.actual) && KeysDefined(d.hidden)
      && KeysDefined(Without(positive, negative)) && KeysDefined(Without(negative, positive))
      && multiset(d.actual) == multiset(Without(positive, negative))
      && multiset(d.hidden) == multiset(Without(negative, positive))
      && SortedByKey(d.actual) && SortedByKey(d.hidden)
      && (forall k :: WithKey(d.actual, k) == WithKey(Without(positive, negative), k))
      && (forall k :: WithKey(d.hidden, k) == WithKey(Without(negative, positive), k))
  {
    var positive, negative := BonesUnion(cards[..3]), BonesUnion(cards[3..]);
    BonesUnionKeys(cards[..3]);
    BonesUnionKeys(cards[3..]);
    WithoutKeys(positive, negative);
    WithoutKeys(negative, positive);
    forall k
      ensures WithKey(SortByKey(Without(positive, negative)), k) == WithKey(Without(positive, negative), k)
      ensures WithKey(SortByKey(Without(negative, positive)), k) == WithKey(Without(negative, positive), k)
    {
      SortStable(Without(positive, negative), k);
      SortStable(Without(negative, positive), k);
    }
  }

  // ===========================================================================
  // formula4: the tally of need tags

  /** The keys of the tally dict, in its insertion order. */
  const NeedTags: seq<string> := ["ЛР", "ЗД", "СМ", "ФБ"]

  const NeedKeys: set<string> := {"ЛР", "ЗД", "СМ", "ФБ"}

  /** How often `t` occurs in the tags of `cards[lo..hi]`. */
  function CountIn(cards: seq<Card>, lo: nat, hi: nat, t: string): nat
    requires lo <= hi <= |cards|
    decreases hi
  {
    if hi == lo then 0 else CountIn(cards, lo, hi - 1, t) + multiset(Eob(cards[hi - 1]))[t]
  }

  /** Every tag of `cards[lo..hi]` is a key of the tally (no `KeyError`). */
  predicate KnownIn(cards: seq<Card>, lo: nat, hi: nat)
    requires lo <= hi <= |cards|
  {
    forall k :: lo <= k < hi ==> AllKnown(Eob(cards[k]))
  }

  /** Every tag of one card is a key of the tally. */
  predicate AllKnown(tags: seq<string>) {
    forall j :: 0 <= j < |tags| ==> tags[j] in NeedKeys
  }

  /** `tag` is the first tag, in the order the loops read them, that is not a key. */
  predicate FirstUnknown(cards: seq<Card>, tag: string) {
    exists i, j :: 0 <= i < |cards| && 0 <= j < |Eob(cards[i])| && Eob(cards[i])[j] == tag
      && tag !in NeedKeys && KnownIn(cards, 0, i)
      && (forall k :: 0 <= k < j ==> Eob(cards[i])[k] in NeedKeys)
  }

  /** The tally for five cards: occurrences among the affirmative picks minus
      occurrences among the negative picks. */
  function Tally(cards: seq<Card>): (m: map<string, int>)
    requires |cards| == 5
    ensures m.Keys == NeedKeys
  {
    map t | t in NeedKeys :: CountIn(cards, 0, 3, t) - CountIn(cards, 3, 5, t)
  }

  /** The `positive` (`upward`) or `negative` dict built from the tally: the entries
      with a value above (below) zero, in key order. */
  function Side(tally: map<string, int>, keys: seq<string>, upward: bool): seq<(string, int)>
    requires forall k :: k in keys ==> k in tally
  {
    if keys == [] then []
    else
      var k := keys[|keys| - 1];
      Side(tally, keys[..|keys| - 1], upward)
      + (if (upward && tally[k] > 0) || (!upward && tally[k] < 0) then [(k, tally[k])] else [])
  }

  /** The loop over `result.items()` that fills the `positive` and `negative` dicts. */
  method Partition(tally: map<string, int>) returns (positive: seq<(string, int)>, negative: seq<(string, int)>)
    requires NeedKeys <= tally.Keys
    ensures positive == Side(tally, NeedTags, true)
    ensures negative == Side(tally, NeedTags, false)
  {
    positive, negative := [], [];
    for i := 0 to |NeedTags|
      invariant positive == Side(tally, NeedTags[..i], true)
      invariant negative == Side(tally, NeedTags[..i], false)
    {
      var key := NeedTags[i];
      var value := tally[key];
      assert NeedTags[..i + 1][..i] == NeedTags[..i];
      if value < 0 {
        negative := negative + [(key, value)];
      }
      if value > 0 {
        positive := positive + [(key, value)];
      }
    }
    assert NeedTags[..|NeedTags|] == NeedTags;
  }

  /** A tag is on a side exactly when its tally has that sign, with its tally as value. */
  lemma {:induction false} SideMembers(tally: map<string, int>, keys: seq<string>, upward: bool)
    requires forall k :: k in keys ==> k in tally
    ensures forall k, v :: (k, v) in Side(tally, keys, upward) <==>
      k in keys && v == tally[k] && (if upward then v > 0 else v < 0)
  {
    if keys != [] {
      var init := keys[..|keys| - 1];
      SideMembers(tally, init, upward);
      assert keys == init + [keys[|keys| - 1]];
    }
  }

  lemma InitLast(s: seq<string>)
    requires s != []
    ensures s == s[..|s| - 1] + [s[|s| - 1]]
  {
  }

  /** The keys of a side keep the order of the tally. */
  lemma {:induction false} SideKeysInOrder(tally: map<string, int>, keys: seq<string>, upward: bool)
    requires forall k :: k in keys ==> k in tally
    ensures Subsequence(SideKeys(Side(tally, keys, upward)), keys)
  {
    if keys != [] {
      var init, last := keys[..|keys| - 1], keys[|keys| - 1];
      InitLast(keys);
      SideKeysInOrder(tally, init, upward);
      var prev := Side(tally, init, upward);
      var tail := if (upward && tally[last] > 0) || (!upward && tally[last] < 0) then [(last, tally[last])] else [];
      assert Side(tally, keys, upward) == prev + tail;
      SideKeysAppend(prev, tail);
      SubsequenceSnoc(SideKeys(prev), init, SideKeys(tail), last);
    }
  }

  function SideKeys(side: seq<(string, int)>): (ks: seq<string>)
    ensures |ks| == |side|
    ensures forall i :: 0 <= i < |side| ==> ks[i] == side[i].0
  {
    if side == [] then [] else [side[0].0] + SideKeys(side[1..])
  }

  lemma SideKeysAppend(a: seq<(string, int)>, b: seq<(string, int)>)
    ensures SideKeys(a + b) == SideKeys(a) + SideKeys(b)
  {
    assert forall i :: 0 <= i < |a + b| ==> SideKeys(a + b)[i] == (SideKeys(a) + SideKeys(b))[i];
  }

  /** A subsequence of `xs` extended by at most the element appended to `xs`. */
  lemma {:induction false} SubsequenceSnoc(a: seq<string>, xs: seq<string>, tail: seq<string>, x: string)
    requires Subsequence(a, xs)
    requires tail == [] || tail == [x]
    ensures Subsequence(a + tail, xs + [x])
  {
    if a == [] {
      assert a + tail == tail;
      if tail == [x] {
        SubsequenceOfEnd(xs, x);
      }
    } else if a[0] == xs[0] && Subsequence(a[1..], xs[1..]) {
      SubsequenceSnoc(a[1..], xs[1..], tail, x);
      assert (a + tail)[1..] == a[1..] + tail;
      assert (xs + [x])[1..] == xs[1..] + [x];
    } else {
      SubsequenceSnoc(a, xs[1..], tail, x);
      assert (xs + [x])[1..] == xs[1..] + [x];
    }
  }

  lemma {:induction false} SubsequenceOfEnd(xs: seq<string>, x: string)
    ensures Subsequence([x], xs + [x])
  {
    if xs == [] {
      assert ([x])[1..] == [];
    } else {
      SubsequenceOfEnd(xs[1..], x);
      assert (xs + [x])[1..] == xs[1..] + [x];
    }
  }

  /** What formula4 returns besides its image. */
  datatype Needs = Needs(tally: map<string, int>, text: string)

  /** `f"{value}{key}"`, or `f"({value}){key}"` for the hidden needs. */
  function NeedItems(side: seq<(string, int)>, parens: bool): (items: seq<string>)
    ensures |items| == |side|
  {
    if side == [] then []
    else
      var (k, v) := side[0];
      [if parens then "(" + IntToString(v) + ")" + k else IntToString(v) + k] + NeedItems(side[1..], parens)
  }

  const NeedsHeader: string := "Реальные и скрытые потребности:\n"

  function NeedLines(positive: seq<(string, int)>, negative: seq<(string, int)>): seq<string> {
    (if positive != [] then ["Реальные потребности: " + Join(NeedItems(positive, false), ", ")] else [])
    + (if negative != [] then ["Скрытые потребности: " + Join(NeedItems(negative, true), ", ")] else [])
  }

  function NeedsText(positive: seq<(string, int)>, negative: seq<(string, int)>): string {
    NeedsHeader + Join(NeedLines(positive, negative), "\n")
  }

  /** The result of formula4 for five cards whose tags are all keys of the tally. */
  function NeedsOf(cards: seq<Card>): Needs
    requires |cards| == 5
  {
    var tally := Tally(cards);
    Needs(tally, NeedsText(Side(tally, NeedTags, true), Side(tally, NeedTags, false)))
  }

  /** Why formula4 stops: `result[x]` for a tag that is not one of the four keys
      raises `KeyError`. */
  datatype TagError = UnknownTag(tag: string)

  /** The inner loop of `formula4` over one card's tags: add one (affirmative pick,
      `up`) or subtract one (negative pick) per occurrence; a tag that is not a key
      raises `KeyError` before anything after it is counted. */
  method ApplyTags(tally: map<string, int>, eob: seq<string>, up: bool) returns (r: Result<map<string, int>, TagError>)
    ensures r.Success? <==> forall j :: 0 <= j < |eob| ==> eob[j] in tally
    ensures r.Success? ==> r.value == Added(tally, eob, up)
    ensures r.Failure? ==> r.error.tag !in tally && exists j :: (0 <= j < |eob| && eob[j] == r.error.tag
      && forall k :: 0 <= k < j ==> eob[k] in tally)
  {
    var result := tally;
    assert eob[..0] == [];
    for j := 0 to |eob|
      invariant forall k :: 0 <= k < j ==> eob[k] in tally
      invariant result.Keys == tally.Keys
      invariant forall t :: t in result ==> result[t] == Shifted(tally, eob[..j], up, t)
    {
      var x := eob[j];
      if x !in result {
        return Failure(UnknownTag(x));
      }
      ApplyTagsStep(tally, eob, up, j, result);
      result := result[x := if up then result[x] + 1 else result[x] - 1];
    }
    assert eob[..|eob|] == eob;
    SameEntries(result, Added(tally, eob, up));
    return Success(result);
  }

  /** The count of tag `t` once the occurrences of `tags` are added (`up`) or subtracted. */
  function Shifted(tally: map<string, int>, tags: seq<string>, up: bool, t: string): int
    requires t in tally
  {
    if up then tally[t] + multiset(tags)[t] else tally[t] - multiset(tags)[t]
  }

  /** The tally with the occurrences of `tags` added (`up`) or subtracted. */
  function Added(tally: map<string, int>, tags: seq<string>, up: bool): (m: map<string, int>)
    ensures m.Keys == tally.Keys
    ensures forall t :: t in m ==> m[t] == Shifted(tally, tags, up, t)
  {
    map t | t in tally :: Shifted(tally, tags, up, t)
  }

  /** One turn of the loop of `ApplyTags`: one more occurrence of `eob[j]`. */
  lemma ApplyTagsStep(tally: map<string, int>, eob: seq<string>, up: bool, j: nat, result: map<string, int>)
    requires j < |eob| && eob[j] in result && result.Keys == tally.Keys
    requires forall t :: t in result ==> result[t] == Shifted(tally, eob[..j], up, t)
    ensures var next := result[eob[j] := if up then result[eob[j]] + 1 else result[eob[j]] - 1];
      next.Keys == tally.Keys && forall t :: t in next ==> next[t] == Shifted(tally, eob[..j + 1], up, t)
  {
    assert eob[..j + 1] == eob[..j] + [eob[j]];
  }

  lemma SameEntries(m: map<string, int>, n: map<string, int>)
    requires m.Keys == n.Keys
    requires forall t :: t in m ==> m[t] == n[t]
    ensures m == n
  {
  }

  /** The tally after the first `i` cards have been read. */
  function PartialTally(cards: seq<Card>, i: nat, t: string): int
    requires |cards| == 5 && i <= 5
  {
    if i <= 3 then CountIn(cards, 0, i, t) else CountIn(cards, 0, 3, t) - CountIn(cards, 3, i, t)
  }

  function TallyAfter(cards: seq<Card>, i: nat): (m: map<string, int>)
    requires |cards| == 5 && i <= 5
    ensures m.Keys == NeedKeys
  {
    map t | t in NeedKeys :: PartialTally(cards, i, t)
  }

  /** Before any card is read every key counts zero. */
  lemma TallyAfterNone(cards: seq<Card>)
    requires |cards| == 5
    ensures TallyAfter(cards, 0) == map["ЛР" := 0, "ЗД" := 0, "СМ" := 0, "ФБ" := 0]
  {
    var m := map["ЛР" := 0, "ЗД" := 0, "СМ" := 0, "ФБ" := 0];
    forall t | t in m
      ensures m[t] == TallyAfter(cards, 0)[t]
    {
      assert t in NeedKeys;
    }
    SameEntries(m, TallyAfter(cards, 0));
  }

  /** After all five cards the partial tally is the tally. */
  lemma TallyAfterAll(cards: seq<Card>)
    requires |cards| == 5
    ensures TallyAfter(cards, 5) == Tally(cards)
  {
    forall t | t in NeedKeys
      ensures TallyAfter(cards, 5)[t] == Tally(cards)[t]
    {
    }
    SameEntries(TallyAfter(cards, 5), Tally(cards));
  }

  /** Reading card `i` adds (affirmative) or subtracts (negative) its occurrences. */
  lemma TallyStep(cards: seq<Card>, i: nat, m: map<string, int>, next: map<string, int>)
    requires |cards| == 5 && i < 5 && m == TallyAfter(cards, i)
    requires next == Added(m, Eob(cards[i]), i < 3)
    ensures next == TallyAfter(cards, i + 1)
  {
    forall t | t in next
      ensures next[t] == TallyAfter(cards, i + 1)[t]
    {
      assert t in NeedKeys;
    }
    SameEntries(next, TallyAfter(cards, i + 1));
  }

  lemma KnownStep(cards: seq<Card>, i: nat)
    requires i < |cards| && KnownIn(cards, 0, i)
    requires AllKnown(Eob(cards[i]))
    ensures KnownIn(cards, 0, i + 1)
  {
  }

  /** A tag that is not a key, met after only known ones, is the first unknown one. */
  lemma UnknownAt(cards: seq<Card>, i: nat, j: nat)
    requires i < |cards| && KnownIn(cards, 0, i) && j < |Eob(cards[i])|
    requires Eob(cards[i])[j] !in NeedKeys && forall k :: 0 <= k < j ==> Eob(cards[i])[k] in NeedKeys
    ensures FirstUnknown(cards, Eob(cards[i])[j])
    ensures !KnownIn(cards, 0, |cards|)
  {
  }

  /** One turn of the outer loop of `formula4`: the tags of card `i`. */
  method TallyCard(cards: seq<Card>, i: nat, result: map<string, int>) returns (r: Result<map<string, int>, TagError>)
    requires |cards| == 5 && i < 5
    requires KnownIn(cards, 0, i) && result == TallyAfter(cards, i)
    ensures r.Success? ==> KnownIn(cards, 0, i + 1) && r.value == TallyAfter(cards, i + 1)
    ensures r.Failure? ==> FirstUnknown(cards, r.error.tag) && !KnownIn(cards, 0, 5)
  {
    r := ApplyTags(result, Eob(cards[i]), i < 3);
    if r.Failure? {
      var j :| 0 <= j < |Eob(cards[i])| && Eob(cards[i])[j] == r.error.tag
        && (forall k :: 0 <= k < j ==> Eob(cards[i])[k] in result);
      UnknownAt(cards, i, j);
    } else {
      TallyStep(cards, i, result, r.value);
      KnownStep(cards, i);
    }
  }

  /** The two nested loops of `formula4` that fill `result`. */
  method TallyTags(cards: seq<Card>) returns (r: Result<map<string, int>, TagError>)
    requires |cards| == 5
    ensures r.Success? <==> KnownIn(cards, 0, 5)
    ensures r.Success? ==> r.value == Tally(cards)
    ensures r.Failure? ==> FirstUnknown(cards, r.error.tag)
  {
    var result := map["ЛР" := 0, "ЗД" := 0, "СМ" := 0, "ФБ" := 0];
    TallyAfterNone(cards);
    for i := 0 to 5
      invariant KnownIn(cards, 0, i) && result == TallyAfter(cards, i)
    {
      var next := TallyCard(cards, i, result);
      if next.Failure? {
        return next;
      }
      result := next.value;
    }
    TallyAfterAll(cards);
    return Success(result);
  }

  /** `formula4`: `None` unless exactly five cards; the `KeyError` of the first tag
      that is not a key of the tally; otherwise the tally and its text. */
  method Formula4(cards: seq<Card>) returns (r: Result<Option<Needs>, TagError>)
    ensures |cards| != 5 ==> r == Success(None)
    ensures |cards| == 5 && KnownIn(cards, 0, 5) ==> r == Success(Some(NeedsOf(cards)))
    ensures |cards| == 5 && !KnownIn(cards, 0, 5) ==> r.Failure? && FirstUnknown(cards, r.error.tag)
  {
    if |cards| != 5 {
      return Success(None);
    }
    var tally := TallyTags(cards);
    if tally.Failure? {
      return Failure(tally.error);
    }
    var result := tally.value;
    var positive, negative := Partition(result);
    return Success(Some(Needs(result, NeedsText(positive, negative))));
  }

  /** The keys of a side are the tags it holds an entry for. */
  lemma SideKeysMembers(side: seq<(string, int)>)
    ensures forall k :: k in SideKeys(side) <==> exists v :: (k, v) in side
  {
    forall k
      ensures k in SideKeys(side) <==> exists v :: (k, v) in side
    {
      if k in SideKeys(side) {
        var i :| 0 <= i < |side| && SideKeys(side)[i] == k;
        assert side[i] == (k, side[i].1);
      }
      if exists v :: (k, v) in side {
        var v :| (k, v) in side;
        var i :| 0 <= i < |side| && side[i] == (k, v);
        assert SideKeys(side)[i] == k;
      }
    }
  }

  /** The two sides split the tally: a tag is real when its value is positive, hidden
      when negative, and a zero tag is on neither side; no tag is on both. */
  lemma SidesSplitTally(tally: map<string, int>, keys: seq<string>)
    requires forall k :: k in keys ==> k in tally
    ensures forall k :: k in keys ==> (k in SideKeys(Side(tally, keys, true)) <==> tally[k] > 0)
    ensures forall k :: k in keys ==> (k in SideKeys(Side(tally, keys, false)) <==> tally[k] < 0)
    ensures forall k :: k in SideKeys(Side(tally, keys, true)) || k in SideKeys(Side(tally, keys, false)) ==> k in keys
    ensures forall k :: !(k in SideKeys(Side(tally, keys, true)) && k in SideKeys(Side(tally, keys, false)))
  {
    SideMembers(tally, keys, true);
    SideMembers(tally, keys, false);
    SideKeysMembers(Side(tally, keys, true));
    SideKeysMembers(Side(tally, keys, false));
    forall k | k in keys
      ensures (k in SideKeys(Side(tally, keys, true)) <==> tally[k] > 0)
      ensures (k in SideKeys(Side(tally, keys, false)) <==> tally[k] < 0)
    {
      if tally[k] > 0 {
        assert (k, tally[k]) in Side(tally, keys, true);
      }
      if tally[k] < 0 {
        assert (k, tally[k]) in Side(tally, keys, false);
      }
    }
  }

  /** A need is real exactly when its tag occurs more often among the affirmative
      picks than among the negative ones, and hidden exactly when it occurs less often. */
  lemma NeedsClassified(cards: seq<Card>, t: string)
    requires |cards| == 5 && t in NeedKeys
    ensures t in SideKeys(Side(Tally(cards), NeedTags, true)) <==> CountIn(cards, 0, 3, t) > CountIn(cards, 3, 5, t)
    ensures t in SideKeys(Side(Tally(cards), NeedTags, false)) <==> CountIn(cards, 0, 3, t) < CountIn(cards, 3, 5, t)
  {
    assert t in NeedTags;
    SidesSplitTally(Tally(cards), NeedTags);
  }

  /** A tag a card carries twice counts twice, and a negative pick takes one back. */
  lemma RepeatedTagCounts(c: Card, d: Card)
    requires c.Card? && c.eob == ["ЛР", "ЛР"]
    requires d.Card? && d.eob == ["ЛР"]
    ensures Tally([c, Unknown, Unknown, d, Unknown])["ЛР"] == 1
  {
    var cards := [c, Unknown, Unknown, d, Unknown];
    assert multiset(Eob(cards[0]))["ЛР"] == 2;
    assert multiset(Eob(cards[3]))["ЛР"] == 1;
    assert CountIn(cards, 0, 3, "ЛР") == 2;
    assert CountIn(cards, 3, 5, "ЛР") == 1;
  }

  lemma {:induction false} NeedItemsAvoid(side: seq<(string, int)>, parens: bool)
    requires forall i :: 0 <= i < |side| ==> '\n' !in side[i].0
    ensures forall i :: 0 <= i < |side| ==> '\n' !in NeedItems(side, parens)[i]
  {
    if side != [] {
      NeedItemsAvoid(side[1..], parens);
      IntToStringAvoids(side[0].1, '\n');
      assert NeedItems(side, parens)[1..] == NeedItems(side[1..], parens);
    }
  }

  /** The text of formula4 reads line by line as the header, then the "real" line
      if any tag is real, then the "hidden" line if any tag is hidden (a lone header
      keeps its line break, which leaves an empty last line). */
  lemma NeedsTextLines(positive: seq<(string, int)>, negative: seq<(string, int)>)
    requires forall i :: 0 <= i < |positive| ==> '\n' !in positive[i].0
    requires forall i :: 0 <= i < |negative| ==> '\n' !in negative[i].0
    ensures Split(NeedsText(positive, negative), '\n') ==
      ["Реальные и скрытые потребности:"]
      + (if positive == [] && negative == [] then [""] else NeedLines(positive, negative))
  {
    var lines := NeedLines(positive, negative);
    var h := "Реальные и скрытые потребности:";
    HeaderLine();
    assert NeedsText(positive, negative) == h + ['\n'] + Join(lines, "\n");
    SplitAfterPart(h, '\n', Join(lines, "\n"));
    if lines != [] {
      NeedLinesAvoid(positive, negative);
      SplitJoin(lines, '\n');
    }
  }

  lemma NeedLinesAvoid(positive: seq<(string, int)>, negative: seq<(string, int)>)
    requires forall i :: 0 <= i < |positive| ==> '\n' !in positive[i].0
    requires forall i :: 0 <= i < |negative| ==> '\n' !in negative[i].0
    ensures forall i :: 0 <= i < |NeedLines(positive, negative)| ==> '\n' !in NeedLines(positive, negative)[i]
  {
    NeedItemsAvoid(positive, false);
    NeedItemsAvoid(negative, true);
    JoinAvoids(NeedItems(positive, false), ", ", '\n');
    JoinAvoids(NeedItems(negative, true), ", ", '\n');
    NeedPrefixesAvoid();
  }

  /** The header of formula4's text is one line ended by a line break. */
  lemma HeaderLine()
    ensures NeedsHeader == "Реальные и скрытые потребности:" + ['\n']
    ensures '\n' !in "Реальные и скрытые потребности:"
  {
  }

  lemma NeedPrefixesAvoid()
    ensures '\n' !in "Реальные потребности: " && '\n' !in "Скрытые потребности: "
  {
  }

  lemma {:induction false} BoneLinesAvoid(actual: seq<string>, hidden: seq<string>)
    requires forall i :: 0 <= i < |actual| ==> '\n' !in actual[i]
    requires forall i :: 0 <= i < |hidden| ==> '\n' !in hidden[i]
    ensures forall i :: 0 <= i < |BoneLines(actual, hidden)| ==> '\n' !in BoneLines(actual, hidden)[i]
  {
    JoinAvoids(actual, ", ", '\n');
    JoinAvoids(hidden, ", ", '\n');
  }

  /** The text of formula3 reads line by line as the "real" line if that side is
      non-empty, then the "hidden" line if that side is non-empty. */
  lemma ArrangeTextLines(kept: seq<string>, other: seq<string>)
    requires KeysDefined(kept) && KeysDefined(other)
    requires forall x :: x in kept || x in other ==> '\n' !in x
    ensures Split(Arrange(kept, other).text, '\n') ==
      if kept == [] && other == [] then [""] else BoneLines(SortByKey(kept), SortByKey(other))
  {
    var actual, hidden := SortByKey(kept), SortByKey(other);
    SortByKeyMembers(kept);
    SortByKeyMembers(other);
    assert forall i :: 0 <= i < |actual| ==> actual[i] in kept;
    assert forall i :: 0 <= i < |hidden| ==> hidden[i] in other;
    BoneLinesAvoid(actual, hidden);
    var lines := BoneLines(actual, hidden);
    if lines != [] {
      SplitJoin(lines, '\n');
    }
  }

  lemma NeedTagHasNoBreak(k: string)
    requires k in NeedTags
    ensures '\n' !in k
  {
    assert k == NeedTags[0] || k == NeedTags[1] || k == NeedTags[2] || k == NeedTags[3];
  }

  /** For the tally of five cards: the lines of the text of formula4. */
  lemma NeedsOfLines(cards: seq<Card>)
    requires |cards| == 5
    ensures var tally := Tally(cards);
      var positive, negative := Side(tally, NeedTags, true), Side(tally, NeedTags, false);
      Split(NeedsOf(cards).text, '\n') ==
        ["Реальные и скрытые потребности:"]
        + (if positive == [] && negative == [] then [""] else NeedLines(positive, negative))
  {
    var tally := Tally(cards);
    var positive, negative := Side(tally, NeedTags, true), Side(tally, NeedTags, false);
    SideMembers(tally, NeedTags, true);
    SideMembers(tally, NeedTags, false);
    forall i | 0 <= i < |positive|
      ensures '\n' !in positive[i].0
    {
      var (k, v) := positive[i];
      assert (k, v) in Side(tally, NeedTags, true);
      NeedTagHasNoBreak(k);
    }
    forall i | 0 <= i < |negative|
      ensures '\n' !in negative[i].0
    {
      var (k, v) := negative[i];
      assert (k, v) in Side(tally, NeedTags, false);
      NeedTagHasNoBreak(k);
    }
    NeedsTextLines(positive, negative);
  }

  /** For five cards whose codes hold no line break: the lines of the text of formula3. */
  lemma BoneDiffLines(cards: seq<Card>)
    requires |cards| == 5 && BonesHaveSortKeys(cards)
    requires forall i, j :: 0 <= i < 5 && 0 <= j < |Bones(cards[i])| ==> '\n' !in Bones(cards[i])[j]
    ensures var d := BoneDiffOf(cards);
      Split(d.text, '\n') == if d.actual == [] && d.hidden == [] then [""] else BoneLines(d.actual, d.hidden)
  {
    var positive, negative := BonesUnion(cards[..3]), BonesUnion(cards[3..]);
    BoneDiffArranged(cards);
    BonesUnionMembers(cards[..3]);
    BonesUnionMembers(cards[3..]);
    WithoutMembers(positive, negative);
    WithoutMembers(negative, positive);
    var kept, other := Without(positive, negative), Without(negative, positive);
    forall x | x in kept || x in other
      ensures '\n' !in x
    {
      var c :| 0 <= c < 5 && x in Bones(cards[c]) by {
        if x in kept {
          var i :| 0 <= i < 3 && x in Bones(cards[..3][i]);
          assert cards[..3][i] == cards[i];
        } else {
          var i :| 0 <= i < 2 && x in Bones(cards[3..][i]);
          assert cards[3..][i] == cards[3 + i];
        }
      }
      var j :| 0 <= j < |Bones(cards[c])| && Bones(cards[c])[j] == x;
    }
    ArrangeTextLines(kept, other);
    SortByKeyMembers(kept);
    SortByKeyMembers(other);
    if kept != [] {
      assert kept[0] in SortByKey(kept);
    }
    if other != [] {
      assert other[0] in SortByKey(other);
    }
  }
}
