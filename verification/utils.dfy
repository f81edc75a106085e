/**
  The pure helpers of the dashboard: cadence normalisation, spend
  aggregation, day differences, truncation and initials.
*/
module Utils {
  import opened Types
  import opened Text
  import opened Seqs

  /** What the spend helpers read from a record: a price and the cadence as stored text. */
  datatype PricedItem = PricedItem(price: real, cadence: string)

  /** How many times a cadence bills in a month, under 30-day and 4-week months. */
  function MonthlyRate(c: Cadence): real
  {
    match c
    case Daily => 30.0
    case Weekly => 4.0
    case Monthly => 1.0
    case Quarterly => 1.0 / 3.0
    case Annual => 1.0 / 12.0
  }

  /**
    The monthly equivalent of `price` billed at `cadence`. A cadence outside the
    enumeration is taken as already monthly.
  */
  function NormalizeToMonthly(price: real, cadence: string): (r: real)
    ensures ParseCadence(cadence).Some? ==> r == price * MonthlyRate(ParseCadence(cadence).value)
    ensures ParseCadence(cadence).None? ==> r == price
    ensures price >= 0.0 ==> r >= 0.0
  {
    if cadence == "daily" then price * 30.0
    else if cadence == "weekly" then price * 4.0
    else if cadence == "monthly" then price
    else if cadence == "quarterly" then price / 3.0
    else if cadence == "annual" then price / 12.0
    else price
  }

  /** What one record adds to the running total; nothing for an unknown cadence. */
  function MonthlyContribution(item: PricedItem): (r: real)
    ensures ParseCadence(item.cadence).Some? ==> r == NormalizeToMonthly(item.price, item.cadence)
    ensures ParseCadence(item.cadence).None? ==> r == 0.0
  {
    if item.cadence == "daily" then item.price * 30.0
    else if item.cadence == "weekly" then item.price * 4.0
    else if item.cadence == "monthly" then item.price
    else if item.cadence == "quarterly" then item.price / 3.0
    else if item.cadence == "annual" then item.price / 12.0
    else 0.0
  }

  /** The reducer: adds each record's contribution to `total`, left to right. */
  function SpendFold(total: real, items: seq<PricedItem>): real
    decreases |items|
  {
    if |items| == 0 then total
    else SpendFold(total + MonthlyContribution(items[0]), items[1..])
  }

  /** Reference sum: every record's monthly equivalent. */
  function SumNormalized(items: seq<PricedItem>): real
    decreases |items|
  {
    if |items| == 0 then 0.0
    else NormalizeToMonthly(items[0].price, items[0].cadence) + SumNormalized(items[1..])
  }

  /** Reference sum: the prices of the records whose cadence is not recognised. */
  function UnrecognisedPrice(items: seq<PricedItem>): real
    decreases |items|
  {
    if |items| == 0 then 0.0
    else (if ParseCadence(items[0].cadence).None? then items[0].price else 0.0)
         + UnrecognisedPrice(items[1..])
  }

  /** Every record has one of the five cadences. */
  predicate AllRecognised(items: seq<PricedItem>)
  {
    forall i :: 0 <= i < |items| ==> ParseCadence(items[i].cadence).Some?
  }

  predicate AllNonNegative(items: seq<PricedItem>)
  {
    forall i :: 0 <= i < |items| ==> items[i].price >= 0.0
  }

  lemma {:induction false} SpendFoldSum(total: real, items: seq<PricedItem>)
    ensures SpendFold(total, items) == total + SumNormalized(items) - UnrecognisedPrice(items)
    decreases |items|
  {
    if |items| > 0 {
      SpendFoldSum(total + MonthlyContribution(items[0]), items[1..]);
    }
  }

  lemma {:induction false} UnrecognisedPriceNone(items: seq<PricedItem>)
    ensures AllRecognised(items) ==> UnrecognisedPrice(items) == 0.0
    decreases |items|
  {
    if |items| > 0 {
      UnrecognisedPriceNone(items[1..]);
    }
  }

  lemma {:induction false} SumsNonNegative(items: seq<PricedItem>)
    ensures AllNonNegative(items) ==> 0.0 <= UnrecognisedPrice(items) <= SumNormalized(items)
    decreases |items|
  {
    if |items| > 0 {
      SumsNonNegative(items[1..]);
    }
  }

  /**
    The month's spend over a list of records. It falls short of the sum of the
    records' monthly equivalents by exactly the prices with unrecognised cadence.
  */
  function MonthlySpend(items: seq<PricedItem>): (r: real)
    ensures r == SumNormalized(items) - UnrecognisedPrice(items)
    ensures AllRecognised(items) ==> r == SumNormalized(items)
    ensures AllNonNegative(items) ==> r >= 0.0
    ensures |items| == 0 ==> r == 0.0
  {
    SpendFoldSum(0.0, items);
    UnrecognisedPriceNone(items);
    SumsNonNegative(items);
    SpendFold(0.0, items)
  }

  /** The spend of two lists together is the sum of their spends. */
  lemma {:induction false} MonthlySpendConcat(a: seq<PricedItem>, b: seq<PricedItem>)
    ensures MonthlySpend(a + b) == MonthlySpend(a) + MonthlySpend(b)
    decreases |a|
  {
    if |a| > 0 {
      assert (a + b)[1..] == a[1..] + b;
      MonthlySpendConcat(a[1..], b);
    } else {
      assert a + b == b;
    }
  }

  /**
    The two conversions disagree on an unrecognised cadence: a record billed
    "biweekly" at 5 is worth 5 a month to one and 0 to the other.
  */
  lemma UnrecognisedCadenceDiverges()
    ensures NormalizeToMonthly(5.0, "biweekly") == 5.0
    ensures MonthlySpend([PricedItem(5.0, "biweekly")]) == 0.0
  {
    assert ParseCadence("biweekly").None?;
  }

  /** The year's spend: twelve months of the monthly spend. */
  function AnnualSpend(items: seq<PricedItem>): (r: real)
    ensures r == 12.0 * (SumNormalized(items) - UnrecognisedPrice(items))
    ensures AllNonNegative(items) ==> r >= 0.0
  {
    MonthlySpend(items) * 12.0
  }

  /** Milliseconds in a day. */
  const MsPerDay: int := 1000 * 60 * 60 * 24

  /**
    Whole days from `now` to `target`, both in milliseconds, rounded up: the
    number of day boundaries to reach `target`, negative for a past target.
  */
  function DaysUntil(target: int, now: int): (r: int)
    ensures (r - 1) * MsPerDay < target - now <= r * MsPerDay
  {
    -((now - target) / MsPerDay)
  }

  /** At most one day count fits the rounding bounds. */
  lemma DaysUntilUnique(target: int, now: int, k: int)
    requires (k - 1) * MsPerDay < target - now <= k * MsPerDay
    ensures DaysUntil(target, now) == k
  {
  }

  /** A target a whole number of days away is exactly that many days away. */
  lemma DaysUntilWholeDays(now: int, k: int)
    ensures DaysUntil(now + k * MsPerDay, now) == k
  {
    DaysUntilUnique(now + k * MsPerDay, now, k);
  }

  /** A target at `now` is 0 days away. */
  lemma DaysUntilNow(now: int)
    ensures DaysUntil(now, now) == 0
  {
    DaysUntilWholeDays(now, 0);
  }

  /** Past targets are negative once they lie a full day or more behind `now`. */
  lemma DaysUntilSign(target: int, now: int)
    ensures DaysUntil(target, now) < 0 <==> target <= now - MsPerDay
    ensures DaysUntil(target, now) > 0 <==> target > now
  {
  }

  /** A later target is never fewer days away. */
  lemma DaysUntilMonotone(t1: int, t2: int, now: int)
    requires t1 <= t2
    ensures DaysUntil(t1, now) <= DaysUntil(t2, now)
  {
  }

  /** `truncate`: strings longer than `length` are cut to `length` characters plus "...". */
  function Truncate(s: string, length: int): (r: string)
    ensures |s| <= length ==> r == s
    ensures |s| > length ==>
      var kept := if length < 0 then 0 else length;
      |r| == kept + 3 && r[..kept] == s[..kept] && r[kept..] == "..."
  {
    if |s| <= length then s
    else
      // `substring` clamps a negative end to 0
      var kept := if length < 0 then 0 else length;
      s[..kept] + "..."
  }

  /** The text kept by `Truncate` before its ellipsis is a prefix of the input. */
  lemma TruncateKeepsPrefix(s: string, length: nat)
    ensures |Truncate(s, length)| <= length + 3
    ensures Truncate(s, length) == s || Truncate(s, length)[..|Truncate(s, length)| - 3] <= s
  {
  }

  predicate IsWord(w: string)
  {
    w != ""
  }

  /** The words of `name` that are not empty. */
  function Words(name: string): (r: seq<string>)
    ensures forall i :: 0 <= i < |r| ==> |r[i]| > 0 && ' ' !in r[i]
  {
    SplitPiecesHaveNoSpace(name);
    FilterMembers(Split(name), IsWord);
    Filter(Split(name), IsWord)
  }

  /** `words.map(n => n[0]).join('')`: an empty word's missing first character joins as "". */
  function JoinFirstChars(ws: seq<string>): string
    decreases |ws|
  {
    if |ws| == 0 then ""
    else (if |ws[0]| == 0 then "" else [ws[0][0]]) + JoinFirstChars(ws[1..])
  }

  lemma {:induction false} JoinFirstCharsOfNonEmpty(ws: seq<string>)
    ensures var ne := Filter(ws, IsWord);
      |JoinFirstChars(ws)| == |ne|
      && forall i :: 0 <= i < |ne| ==> |ne[i]| > 0 && JoinFirstChars(ws)[i] == ne[i][0]
    decreases |ws|
  {
    FilterMembers(ws, IsWord);
    if |ws| > 0 {
      JoinFirstCharsOfNonEmpty(ws[1..]);
    }
  }

  /**
    `getInitials`: the upper-cased first characters of the first two non-empty
    space-separated words of `name`, in order.
  */
  function GetInitials(name: string): (r: string)
    ensures |r| <= 2
    ensures |r| == if |Words(name)| < 2 then |Words(name)| else 2
    ensures forall i :: 0 <= i < |r| ==> r[i] == UpperChar(Words(name)[i][0])
  {
    var joined := UpperCase(JoinFirstChars(Split(name)));
    JoinFirstCharsOfNonEmpty(Split(name));
    if |joined| <= 2 then joined else joined[..2]
  }

  /** A single space-free word gives its first character, upper-cased. */
  lemma InitialsOfOneWord(w: string)
    requires w != "" && ' ' !in w
    ensures GetInitials(w) == [UpperChar(w[0])]
  {
    SplitWord(w);
    FilterSingleton(w, IsWord);
    assert Words(w) == [w];
  }

  lemma SplitExampleTail()
    ensures Split("bo cy") == ["bo", "cy"]
  {
    SplitWord("cy");
    SplitFirstWord("bo", "cy");
    assert "bo" + " " + "cy" == "bo cy";
  }

  lemma SplitExample()
    ensures Split("al  bo cy") == ["al", "", "bo", "cy"]
  {
    SplitExampleTail();
    SplitFirstWord("", "bo cy");
    assert "" + " " + "bo cy" == " bo cy";
    SplitFirstWord("al", " bo cy");
    assert "al" + " " + " bo cy" == "al  bo cy";
  }

  /** Repeated spaces add nothing, and a third word is dropped. */
  lemma InitialsExample()
    ensures GetInitials("al  bo cy") == "AB"
  {
    SplitExample();
    var joined := JoinFirstChars(["al", "", "bo", "cy"]);
    assert joined == "abc";
    var upper := UpperCase(joined);
    assert upper[0] == 'A' && upper[1] == 'B';
    assert upper[..2] == "AB";
  }
}
