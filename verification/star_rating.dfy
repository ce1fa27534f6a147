/** The five-star rating widget: a score on the scale 0..maxRating is shown as a
    number of lit stars, and a click on a star reports a score on that scale
    again (components/StarRating.tsx). Rounding is `Math.round`, here exact. */
module StarRating {
  import opened Listing

  const StarCount: int := 5
  const DefaultMaxRating: int := 10

  /** `Math.round(a / b)` computed exactly: the nearest integer to a/b, halves
      rounded up. */
  function RoundDiv(a: int, b: int): (r: int)
    requires b > 0
    ensures b * (2 * r - 1) <= 2 * a < b * (2 * r + 1)
  {
    var q := (2 * a + b) / (2 * b);
    assert 2 * a + b == 2 * b * q + (2 * a + b) % (2 * b);
    assert b * (2 * q - 1) == 2 * b * q - b;
    q
  }

  /** The rounding bounds determine the rounded value. */
  lemma RoundDivUnique(a: int, b: int, r: int)
    requires b > 0
    requires b * (2 * r - 1) <= 2 * a < b * (2 * r + 1)
    ensures r == RoundDiv(a, b)
  {
    var q := RoundDiv(a, b);
    MulCancel(b, 2 * r - 1, 2 * q);
    MulCancel(b, 2 * q - 1, 2 * r);
  }

  /** The number of lit stars: 5 * rating / maxRating, rounded. */
  function FilledStars(rating: int, maxRating: int): (f: int)
    requires maxRating > 0
    ensures maxRating * (2 * f - 1) <= 2 * StarCount * rating < maxRating * (2 * f + 1)
  {
    RoundDiv(StarCount * rating, maxRating)
  }

  /** The number of unlit stars: filled and empty always make five. */
  function EmptyStars(rating: int, maxRating: int): (e: int)
    requires maxRating > 0
    ensures FilledStars(rating, maxRating) + e == StarCount
  {
    StarCount - FilledStars(rating, maxRating)
  }

  /** A score within the scale lights between zero and five stars. */
  lemma FilledStarsInRange(rating: int, maxRating: int)
    requires maxRating > 0 && 0 <= rating <= maxRating
    ensures 0 <= FilledStars(rating, maxRating) <= StarCount
    ensures 0 <= EmptyStars(rating, maxRating) <= StarCount
  {
    var f := FilledStars(rating, maxRating);
    MulCancel(maxRating, -1, 2 * f);
    MulCancel(maxRating, 2 * f - 1, 2 * StarCount);
  }

  /** A positive factor can be cancelled from an inequality. */
  lemma MulCancel(m: int, x: int, y: int)
    requires m > 0 && m * x < m * y + m
    ensures x <= y
  {
    var d := x - y - 1;
    assert m * d == m * x - m * y - m;
    assert m * d < 0;
  }

  /** The score a click on star `star` (1..5) reports: star * maxRating / 5, rounded. */
  function ScaledRating(star: int, maxRating: int): (r: int)
    ensures StarCount * (2 * r - 1) <= 2 * star * maxRating < StarCount * (2 * r + 1)
  {
    RoundDiv(star * maxRating, StarCount)
  }

  /** On the default scale of ten, star k reports exactly 2 k. */
  lemma ScaledRatingDefault(star: int)
    ensures ScaledRating(star, DefaultMaxRating) == 2 * star
  {
    RoundDivUnique(star * DefaultMaxRating, StarCount, 2 * star);
  }

  /** A click reports a score on the scale, and a positive one from a scale of
      three up (so never 0 on the default scale). */
  lemma ScaledRatingInRange(star: int, maxRating: int)
    requires 1 <= star <= StarCount && maxRating > 0
    ensures 0 <= ScaledRating(star, maxRating) <= maxRating
    ensures maxRating >= 3 ==> ScaledRating(star, maxRating) >= 1
  {
    var r := ScaledRating(star, maxRating);
    assert 2 * star * maxRating <= 2 * StarCount * maxRating;
    assert 2 * star * maxRating >= 2 * maxRating;
  }

  /** From a scale of five up, clicking star k and showing the reported score
      lights exactly k stars. */
  lemma {:induction false} ClickRoundTrip(star: int, maxRating: int)
    requires 0 <= star <= StarCount && maxRating >= StarCount
    ensures FilledStars(ScaledRating(star, maxRating), maxRating) == star
  {
    var c := ScaledRating(star, maxRating);
    var km := star * maxRating;
    assert 10 * c - 5 <= 2 * km < 10 * c + 5;
    assert maxRating * (2 * star - 1) == 2 * km - maxRating;
    assert maxRating * (2 * star + 1) == 2 * km + maxRating;
    if maxRating == StarCount {
      assert km == 5 * star;
      assert c == star;
    }
    RoundDivUnique(StarCount * c, maxRating, star);
  }

  /** Below a scale of five the round trip breaks for some star: on scales 1
      and 2 star 1 reports 0, which lights no star; on a scale of 3 star 1 reports
      1, which lights two; on a scale of 4 star 2 reports 2, which lights three. */
  lemma ClickRoundTripFailsBelowFive(maxRating: int)
    requires 1 <= maxRating < StarCount
    ensures exists star :: (1 <= star <= StarCount &&
                           FilledStars(ScaledRating(star, maxRating), maxRating) != star)
  {
    if maxRating <= 2 {
      RoundDivUnique(maxRating, StarCount, 0);
      RoundDivUnique(0, maxRating, 0);
      assert FilledStars(ScaledRating(1, maxRating), maxRating) != 1;
    } else if maxRating == 3 {
      RoundDivUnique(3, StarCount, 1);
      RoundDivUnique(5, 3, 2);
      assert FilledStars(ScaledRating(1, maxRating), maxRating) != 1;
    } else {
      RoundDivUnique(8, StarCount, 2);
      RoundDivUnique(10, 4, 3);
      assert FilledStars(ScaledRating(2, maxRating), maxRating) != 2;
    }
  }

  /** One rendered star: its value 1..5, whether it is lit and whether it is
      disabled. */
  datatype Star = Star(value: int, lit: bool, disabled: bool)

  /** The five stars of the widget; `interactive` tells whether a change
      handler was given. */
  function Stars(rating: int, maxRating: int, interactive: bool): (s: seq<Star>)
    requires maxRating > 0
    ensures |s| == StarCount
    ensures forall i :: 0 <= i < StarCount ==>
      s[i].value == i + 1 && (s[i].lit <==> i + 1 <= FilledStars(rating, maxRating)) &&
      s[i].disabled == !interactive
  {
    var filled := FilledStars(rating, maxRating);
    seq(StarCount, i requires 0 <= i < StarCount => Star(i + 1, i + 1 <= filled, !interactive))
  }

  function LitCount(s: seq<Star>): nat
  {
    if s == [] then 0 else LitCount(s[..|s| - 1]) + (if s[|s| - 1].lit then 1 else 0)
  }

  /** Stars lit exactly up to a threshold number as many stars as the threshold
      allows. */
  lemma {:induction false} LitCountThreshold(s: seq<Star>, f: int)
    requires forall i :: 0 <= i < |s| ==> (s[i].lit <==> i + 1 <= f)
    ensures LitCount(s) == if f <= 0 then 0 else if f >= |s| then |s| else f
  {
    if s != [] {
      var init := s[..|s| - 1];
      assert forall i :: 0 <= i < |init| ==> init[i] == s[i];
      LitCountThreshold(init, f);
    }
  }

  /** A score within the scale lights exactly `FilledStars` stars. */
  lemma LitStarsAreFilled(rating: int, maxRating: int, interactive: bool)
    requires maxRating > 0 && 0 <= rating <= maxRating
    ensures LitCount(Stars(rating, maxRating, interactive)) == FilledStars(rating, maxRating)
  {
    FilledStarsInRange(rating, maxRating);
    LitCountThreshold(Stars(rating, maxRating, interactive), FilledStars(rating, maxRating));
  }

  /** The click handler: with a change handler the scaled score is reported,
      without one nothing is. */
  function HandleStarClick(hasHandler: bool, star: int, maxRating: int): (r: Option<int>)
    ensures r.Some? <==> hasHandler
    ensures hasHandler ==> r.value == ScaledRating(star, maxRating)
  {
    if hasHandler then Some(ScaledRating(star, maxRating)) else None
  }
}
