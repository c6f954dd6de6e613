/**
 * The price estimator of tattoo-estimate.ts. Prices are whole tomans; ratios and the adjusted price
 * are reals. Text fields stand for what the source reads off them: their tokens and their size band.
 */
module Estimate {
  import opened Numbers
  import opened Text

  datatype Sample = Sample(
    id: string, price: int, requestType: string, placement: seq<string>, style: seq<string>, band: int,
    colorMode: string, anchor: bool)

  datatype Draft = Draft(
    requestType: string, placement: seq<string>, style: seq<string>, band: int, colorMode: string,
    ideaLength: nat, imageCount: int)

  // Scores.

  function CountIn(tokens: seq<string>, known: set<string>): nat {
    if tokens == [] then 0
    else CountIn(tokens[..|tokens| - 1], known) + (if tokens[|tokens| - 1] in known then 1 else 0)
  }

  function TokenSet(tokens: seq<string>): set<string> {
    set t | t in tokens
  }

  function Overlap(a: seq<string>, b: seq<string>): real {
    var left := TokenSet(a);
    if left == {} || b == [] then 0.0
    else CountIn(b, left) as real / (if |left| >= |b| then |left| else |b|) as real
  }

  predicate Reworks(requestType: string) {
    requestType == "coverup" || requestType == "repair"
  }

  function Gap(a: int, b: int): int {
    if a >= b then a - b else b - a
  }

  function SampleScore(draft: Draft, sample: Sample): int {
    var request := if sample.requestType != "" && sample.requestType == draft.requestType then 24
                   else if Reworks(draft.requestType) && Reworks(sample.requestType) then 12 else 0;
    var gap := Gap(draft.band, sample.band);
    request
    + Round(Overlap(draft.placement, sample.placement) * 26.0)
    + Round(Overlap(draft.style, sample.style) * 22.0)
    + (if gap == 0 then 20 else if gap == 1 then 8 else 0)
    + (if draft.colorMode != "" && sample.colorMode != "" && draft.colorMode == sample.colorMode then 8 else 0)
    + (if sample.anchor then 16 else 0)
  }

  /** `sampleScore`: points added one by one. */
  method ComputeSampleScore(draft: Draft, sample: Sample) returns (score: int)
    ensures score == SampleScore(draft, sample)
  {
    hide Round, Overlap;
    score := 0;
    if sample.requestType != "" && sample.requestType == draft.requestType {
      score := score + 24;
    } else if Reworks(draft.requestType) && Reworks(sample.requestType) {
      score := score + 12;
    }
    score := score + Round(Overlap(draft.placement, sample.placement) * 26.0);
    score := score + Round(Overlap(draft.style, sample.style) * 22.0);
    var gap := Gap(draft.band, sample.band);
    if gap == 0 {
      score := score + 20;
    } else if gap == 1 {
      score := score + 8;
    }
    if draft.colorMode != "" && sample.colorMode != "" && draft.colorMode == sample.colorMode {
      score := score + 8;
    }
    if sample.anchor {
      score := score + 16;
    }
  }

  // Ranking: a stable sort by score, then by anchor.

  datatype Ranked = Ranked(sample: Sample, score: int)

  /** `a` stays in front of a later `b`. */
  predicate InFront(a: Ranked, b: Ranked) {
    a.score > b.score || (a.score == b.score && (a.sample.anchor || !b.sample.anchor))
  }

  function Placed(sorted: seq<Ranked>, x: Ranked): seq<Ranked> {
    if sorted == [] || InFront(sorted[|sorted| - 1], x) then sorted + [x]
    else Placed(sorted[..|sorted| - 1], x) + [sorted[|sorted| - 1]]
  }

  function Rank(draft: Draft, samples: seq<Sample>): seq<Ranked> {
    if samples == [] then []
    else
      var last := samples[|samples| - 1];
      Placed(Rank(draft, samples[..|samples| - 1]), Ranked(last, SampleScore(draft, last)))
  }

  function Priced(samples: seq<Sample>): seq<Sample> {
    if samples == [] then []
    else Priced(samples[..|samples| - 1]) + (if samples[|samples| - 1].price > 0 then [samples[|samples| - 1]] else [])
  }

  function SizedRows(band: int, rows: seq<Ranked>): seq<Ranked> {
    if rows == [] then []
    else
      SizedRows(band, rows[..|rows| - 1])
      + (if Gap(rows[|rows| - 1].sample.band, band) <= 1 then [rows[|rows| - 1]] else [])
  }

  /** The five best samples of about the draft's size. */
  function Picked(draft: Draft, samples: seq<Sample>): seq<Ranked> {
    var sized := SizedRows(draft.band, Rank(draft, Priced(samples)));
    if |sized| <= 5 then sized else sized[..5]
  }

  // Medians and money.

  function Inserted(sorted: seq<real>, x: real): (r: seq<real>)
    ensures |r| == |sorted| + 1
  {
    if sorted == [] || sorted[|sorted| - 1] <= x then sorted + [x]
    else Inserted(sorted[..|sorted| - 1], x) + [sorted[|sorted| - 1]]
  }

  function Sorted(values: seq<real>): (r: seq<real>)
    ensures |r| == |values|
  {
    if values == [] then [] else Inserted(Sorted(values[..|values| - 1]), values[|values| - 1])
  }

  /** `median`: an even number of values gives the rounded mean of the middle two. */
  function Median(values: seq<real>): real {
    if values == [] then 0.0
    else
      var sorted, mid := Sorted(values), |values| / 2;
      if |values| % 2 == 1 then sorted[mid] else Round((sorted[mid - 1] + sorted[mid]) / 2.0) as real
  }

  function RoundMoney(value: real): int {
    var step := if value >= 5000000.0 then 500000 else 100000;
    var rounded := Round(value / step as real) * step;
    if rounded >= step then rounded else step
  }

  function Usable(ratios: seq<real>): seq<real> {
    if ratios == [] then []
    else Usable(ratios[..|ratios| - 1]) + (if ratios[|ratios| - 1] > 0.0 then [ratios[|ratios| - 1]] else [])
  }

  function CalibrationFactor(ratios: seq<real>): real {
    var usable := Usable(ratios);
    if |usable| < 3 then 1.0 else RealMin(1.6, RealMax(0.75, Median(usable)))
  }

  // The estimate.

  datatype Confidence = Low | Mid | High

  datatype TattooEstimate = TattooEstimate(
    minToman: Option<int>, maxToman: Option<int>, minutes: int, sessions: int, complexity: int, confidence: Confidence,
    validSamples: nat, similarCount: nat, similarMin: Option<int>, similarMax: Option<int>, median: Option<real>,
    similar: seq<Ranked>)

  function Prices(rows: seq<Ranked>): (p: seq<real>)
    ensures |p| == |rows|
  {
    seq(|rows|, i requires 0 <= i < |rows| => rows[i].sample.price as real)
  }

  function Bands(rows: seq<Ranked>): (p: seq<real>)
    ensures |p| == |rows|
  {
    seq(|rows|, i requires 0 <= i < |rows| => rows[i].sample.band as real)
  }

  function LowestPrice(rows: seq<Ranked>): int
    requires rows != []
  {
    var last := rows[|rows| - 1].sample.price;
    if |rows| == 1 then last
    else if LowestPrice(rows[..|rows| - 1]) <= last then LowestPrice(rows[..|rows| - 1]) else last
  }

  function HighestPrice(rows: seq<Ranked>): int
    requires rows != []
  {
    var last := rows[|rows| - 1].sample.price;
    if |rows| == 1 then last
    else if HighestPrice(rows[..|rows| - 1]) >= last then HighestPrice(rows[..|rows| - 1]) else last
  }

  /** What multiplies the median: size difference, colour and calibration. */
  function Multiplier(draft: Draft, picked: seq<Ranked>, ratios: seq<real>): real {
    var sampleBand := if picked == [] then draft.band as real else Median(Bands(picked));
    var sizeAdjust := RealMin(1.8, RealMax(0.7, 1.0 + (draft.band as real - sampleBand) * 0.45));
    var colorBoost := if draft.colorMode == "full" then 1.12 else if draft.colorMode == "accent" then 1.05 else 1.0;
    sizeAdjust * colorBoost * CalibrationFactor(ratios)
  }

  function Complexity(draft: Draft): (c: int)
    ensures 1 <= c <= 10
  {
    var raw := draft.band + (if Reworks(draft.requestType) then 2 else 0) + (if draft.colorMode == "full" then 1 else 0)
               + (if draft.imageCount > 3 then 1 else 0) + (if draft.ideaLength > 280 then 1 else 0);
    if raw < 1 then 1 else if raw > 10 then 10 else raw
  }

  /** `Math.max(1, Math.ceil(minutes / 180))`. */
  function Sessions(minutes: int): int {
    if minutes <= 180 then 1 else (minutes + 179) / 180
  }

  function Spread(picked: seq<Ranked>): real {
    if |picked| >= 4 then 0.16 else 0.28
  }

  function Scaled(price: real, factor: real): real {
    price * factor
  }

  function EstimateTattooPrice(draft: Draft, samples: seq<Sample>, ratios: seq<real>): TattooEstimate {
    var picked := Picked(draft, samples);
    var mid := Median(Prices(picked));
    var complexity := Complexity(draft);
    var low := if picked == [] then None else Some(LowestPrice(picked));
    var high := if picked == [] then None else Some(HighestPrice(picked));
    if |picked| < 2 || mid <= 0.0 then
      TattooEstimate(None, None, complexity * 50, Sessions(complexity * 50), complexity, Low,
                     |Priced(samples)|, |picked|,
                     low, high, if mid == 0.0 then None else Some(mid), picked)
    else
      var adjusted := Scaled(mid, Multiplier(draft, picked, ratios));
      var confidence := if |picked| >= 4 && picked[0].score >= 50 then High else Mid;
      TattooEstimate(Some(RoundMoney(Scaled(adjusted, 1.0 - Spread(picked)))),
                     Some(RoundMoney(Scaled(adjusted, 1.0 + Spread(picked)))),
                     complexity * 50, Sessions(complexity * 50), complexity, confidence, |Priced(samples)|, |picked|,
                     low, high, Some(mid), picked)
  }
}
