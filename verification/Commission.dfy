/** The studio's share of a colleague's takings: `studioPercentCut` and the percent deal of `chairCut`. */
module Commission {
  import opened Numbers

  function Rate(percent: real): real {
    RealMin(100.0, RealMax(0.0, percent))
  }

  function Gross(gross: real): int {
    if Round(gross) >= 0 then Round(gross) else 0
  }

  /** The rate in hundredths of a percent. */
  function Basis(percent: real): int {
    Round(Rate(percent) * 100.0)
  }

  datatype Cut = Cut(studio: int, artist: int)

  function StudioPercentCut(grossToman: real, percent: real): Cut {
    var gross := Gross(grossToman);
    var studio := Round((gross * Basis(percent)) as real / 10000.0);
    Cut(studio, gross - studio)
  }

  datatype Deal = Percent | Daily | Weekly | Own

  function ChairCut(deal: Deal, percent: real, amountToman: int, gross: int, days: int, weeks: int): int {
    match deal
    case Own => 0
    case Percent => Round((if gross >= 0 then gross else 0) as real * Rate(percent) / 100.0)
    case Daily => (if days >= 0 then days else 0) * (if amountToman >= 0 then amountToman else 0)
    case Weekly => (if weeks >= 0 then weeks else 0) * (if amountToman >= 0 then amountToman else 0)
  }

  lemma BasisRange(percent: real)
    ensures 0 <= Basis(percent) <= 10000
  {
    RoundMonotone(0.0, Rate(percent) * 100.0);
    RoundMonotone(Rate(percent) * 100.0, 10000.0);
  }

  /** A part of at most 10000 ten-thousandths, rounded. */
  lemma PartOf(gross: int, part: int)
    requires 0 <= part <= gross * 10000
    ensures 0 <= Round(part as real / 10000.0) <= gross
  {
    hide Round;
    RoundMonotone(0.0, part as real / 10000.0);
    RoundMonotone(part as real / 10000.0, gross as real);
    RoundShift(0.0, gross);
    RoundShift(0.0, 0);
    RoundZero();
  }

  /** Parts that grow by no more than the whole does. */
  lemma PartsGrow(part: int, more: int, d: int)
    requires part <= more <= part + d * 10000
    ensures Round(part as real / 10000.0) <= Round(more as real / 10000.0) <= Round(part as real / 10000.0) + d
  {
    hide Round;
    var x, y := part as real / 10000.0, more as real / 10000.0;
    assert y <= x + d as real;
    RoundMonotone(x, y);
    RoundMonotone(y, x + d as real);
    RoundShift(x, d);
  }

  lemma Product(gross: int, basis: int)
    requires gross >= 0 && 0 <= basis <= 10000
    ensures 0 <= gross * basis <= gross * 10000
  {
  }

  /** The split is exact, never outside the takings, and within half a toman of the rate. */
  lemma SplitExact(grossToman: real, percent: real)
    ensures var c, gross := StudioPercentCut(grossToman, percent), Gross(grossToman);
            && c.studio + c.artist == gross
            && 0 <= c.studio <= gross
            && -0.5 <= c.studio as real - (gross * Basis(percent)) as real / 10000.0 <= 0.5
  {
    hide Round, Basis, Gross;
    var gross, basis := Gross(grossToman), Basis(percent);
    BasisRange(percent);
    GrossRange(grossToman, grossToman);
    Product(gross, basis);
    var part := gross * basis;
    PartOf(gross, part);
    RoundBounds(part as real / 10000.0);
  }

  lemma GrossRange(less: real, more: real)
    requires less <= more
    ensures 0 <= Gross(less) <= Gross(more)
  {
    RoundMonotone(less, more);
  }

  /** Neither share falls when the takings grow. */
  lemma SharesGrow(less: real, more: real, percent: real)
    requires less <= more
    ensures StudioPercentCut(less, percent).studio <= StudioPercentCut(more, percent).studio
    ensures StudioPercentCut(less, percent).artist <= StudioPercentCut(more, percent).artist
  {
    hide Round, Basis, Gross;
    BasisRange(percent);
    GrossRange(less, more);
    var g, h, basis := Gross(less), Gross(more), Basis(percent);
    Product(h - g, basis);
    assert h * basis == g * basis + (h - g) * basis;
    PartsGrow(g * basis, h * basis, h - g);
  }

  /** For rates with at most two decimals, whole percents included, the two share rules agree. */
  lemma DealsAgree(gross: int, percent: real, amountToman: int, days: int, weeks: int)
    requires Basis(percent) as real == Rate(percent) * 100.0
    ensures StudioPercentCut(gross as real, percent).studio ==
        ChairCut(Percent, percent, amountToman, gross, days, weeks)
  {
    assert Round(gross as real) == gross;
    var g := Gross(gross as real);
    var r := Rate(percent);
    assert (g * Basis(percent)) as real == g as real * (r * 100.0);
    assert g as real * (r * 100.0) / 10000.0 == g as real * r / 100.0;
  }

  lemma WholePercents(p: int)
    ensures Basis(p as real) as real == Rate(p as real) * 100.0
  {
    var r := if p < 0 then 0 else if p > 100 then 100 else p;
    assert Rate(p as real) == r as real;
    assert Round((r * 100) as real) == r * 100;
  }

  /** Takings are whole tomans, half up, and never negative. */
  lemma GrossIs(gross: int)
    ensures Gross(gross as real) == if gross > 0 then gross else 0
  {
  }

  lemma RateIs(percent: real)
    ensures percent <= 0.0 ==> Rate(percent) == 0.0
    ensures 0.0 <= percent <= 100.0 ==> Rate(percent) == percent
    ensures percent >= 100.0 ==> Rate(percent) == 100.0
  {
  }

  /** An amount within half a ten-thousandth of the whole of another. */
  lemma CloseParts(gross: int, basis: int, percent: real)
    requires gross >= 0 && -0.5 <= basis as real - percent * 100.0 <= 0.5
    ensures -0.5 * gross as real <= (gross * basis) as real - gross as real * (percent * 100.0) <= 0.5 * gross as real
  {
    CastProduct(gross, basis);
    Near(gross as real, basis as real, percent * 100.0);
  }

  lemma Near(g: real, a: real, b: real)
    requires g >= 0.0 && -0.5 <= a - b <= 0.5
    ensures -0.5 * g <= g * a - g * b <= 0.5 * g
  {
    Distributes(g, a, b);
    HalfAtMost(g, a - b);
  }

  lemma CastProduct(a: int, b: int)
    ensures (a * b) as real == a as real * b as real
  {
  }

  lemma Distributes(g: real, a: real, b: real)
    ensures g * a - g * b == g * (a - b)
  {
  }

  lemma HalfAtMost(g: real, x: real)
    requires g >= 0.0 && -0.5 <= x <= 0.5
    ensures -0.5 * g <= g * x <= 0.5 * g
  {
  }

  /** The studio's part of whole takings: the given percent, to half a toman and half a hundredth of a percent. */
  lemma ShareIsPercent(gross: int, percent: real)
    requires gross >= 0
    ensures var c := StudioPercentCut(gross as real, percent);
            && c.studio + c.artist == gross
            && (percent <= 0.0 ==> c.studio == 0) && (percent >= 100.0 ==> c.artist == 0)
            && (0.0 <= percent <= 100.0 ==>
                  var off := c.studio as real * 10000.0 - gross as real * (percent * 100.0);
                  -5000.0 - 0.5 * gross as real <= off <= 5000.0 + 0.5 * gross as real)
  {
    hide Round, Rate;
    GrossIs(gross);
    RateIs(percent);
    RoundBounds(Rate(percent) * 100.0);
    var basis := Basis(percent);
    RoundBounds((gross * basis) as real / 10000.0);
    if 0.0 <= percent <= 100.0 {
      CloseParts(gross, basis, percent);
    }
    if percent <= 0.0 {
      RoundZero();
    } else if percent >= 100.0 {
      RoundShift(0.0, 10000);
      RoundZero();
      assert basis == 10000;
      RoundShift(0.0, gross);
    }
  }

  lemma PercentCut(gross: int, percent: real, amountToman: int, days: int, weeks: int)
    ensures var g := if gross >= 0 then gross else 0;
            ChairCut(Percent, percent, amountToman, gross, days, weeks) == Round(g as real * Rate(percent) / 100.0)
  {
  }

  /** What is rounded: a product of the takings and a rate, over a hundred. */
  function Part(g: int, rate: real): real {
    g as real * rate / 100.0
  }

  lemma PartIs(g: int)
    ensures Part(g, 0.0) == 0.0 && Part(g, 100.0) == g as real
    ensures forall rate :: Part(0, rate) == 0.0
  {
  }

  lemma WholeRounds(g: int)
    ensures Round(g as real) == g
  {
    hide Round;
    RoundShift(0.0, g);
    RoundZero();
  }

  lemma PercentRounds(gross: int, percent: real, amountToman: int, days: int, weeks: int)
    ensures var cut := ChairCut(Percent, percent, amountToman, gross, days, weeks);
            && (gross <= 0 || percent <= 0.0 ==> cut == 0)
            && (gross >= 0 && 0.0 <= percent <= 100.0 ==> -0.5 < cut as real - Part(gross, percent) <= 0.5)
            && (gross >= 0 && percent >= 100.0 ==> cut == gross)
  {
    var g := if gross >= 0 then gross else 0;
    assert ChairCut(Percent, percent, amountToman, gross, days, weeks) == Round(Part(g, Rate(percent))) by {
      hide Round, Rate;
      PercentCut(gross, percent, amountToman, days, weeks);
    }
    hide Round, Rate, ChairCut, Part;
    RateIs(percent);
    PartIs(g);
    RoundZero();
    WholeRounds(g);
    RoundBounds(Part(g, Rate(percent)));
  }

  /** The percent deal takes the same percent of what was earned, to half a toman, and nothing of a loss. */
  lemma PercentDeal(gross: int, percent: real, amountToman: int, days: int, weeks: int)
    ensures var cut := ChairCut(Percent, percent, amountToman, gross, days, weeks);
            && (gross <= 0 || percent <= 0.0 ==> cut == 0)
            && (gross >= 0 && 0.0 <= percent <= 100.0 ==>
                  -0.5 < cut as real - gross as real * percent / 100.0 <= 0.5)
            && (gross >= 0 && percent >= 100.0 ==> cut == gross)
  {
    hide Round, Rate, ChairCut;
    PercentRounds(gross, percent, amountToman, days, weeks);
  }

  lemma Times(a: int, b: int, more: int)
    requires a >= 0
    ensures (a + 1) * b == a * b + b && a * 0 == 0
  {
  }

  /**
   * The other deals: a day more costs exactly the amount under a daily deal, a week more under a weekly
   * one, and an own chair nothing.
   */
  lemma ChairDeals(percent: real, amountToman: int, gross: int, days: int, weeks: int)
    requires days >= 0 && weeks >= 0 && amountToman >= 0
    ensures ChairCut(Own, percent, amountToman, gross, days, weeks) == 0
    ensures ChairCut(Daily, percent, amountToman, gross, days + 1, weeks)
              == ChairCut(Daily, percent, amountToman, gross, days, weeks) + amountToman
    ensures ChairCut(Weekly, percent, amountToman, gross, days, weeks + 1)
              == ChairCut(Weekly, percent, amountToman, gross, days, weeks) + amountToman
    ensures forall w :: ChairCut(Daily, percent, amountToman, gross, days, w)
              == ChairCut(Daily, percent, amountToman, gross, days, weeks)
    ensures forall d :: ChairCut(Weekly, percent, amountToman, gross, d, weeks)
              == ChairCut(Weekly, percent, amountToman, gross, days, weeks)
    ensures ChairCut(Daily, percent, amountToman, gross, 0, weeks) == 0
    ensures ChairCut(Weekly, percent, amountToman, gross, days, 0) == 0
    ensures forall deal, a, d, w :: deal != Percent && (a <= 0 || (d <= 0 && w <= 0)) ==>
              ChairCut(deal, percent, a, gross, d, w) == 0
  {
    hide Round, Rate;
  }
}
