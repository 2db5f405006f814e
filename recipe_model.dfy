/**
 * The recipe model's behaviour beyond its schema (server/models/Recipe.js
 * lines 120-135): `calculateAverageRating`, which derives `averageRating`
 * and `ratingCount` from the embedded ratings, and `save()`, which runs the
 * validators and then the pre-save hook that calls it.
 *
 * `Math.round((sum / n) * 10) / 10` is computed exactly, in tenths:
 * the result is the integer nearest to 10 * sum / n, halves rounded up.
 */
module RecipeModel {
  import opened RecipeSchema

  /** `ratings.reduce((total, rating) => total + rating.rating, 0)`, folded from the left. */
  function SumScores(rs: seq<Rating>): int
    decreases |rs|
  {
    if rs == [] then 0 else SumScores(rs[..|rs| - 1]) + rs[|rs| - 1].score
  }

  /** `Math.round(num / den)` for a positive denominator: the nearest integer, halves rounded up. */
  function RoundHalfUpDiv(num: int, den: int): (q: int)
    requires den > 0
    ensures 2 * den * q <= 2 * num + den < 2 * den * (q + 1)
  {
    var d := 2 * den;
    var n := 2 * num + den;
    assert n == d * (n / d) + n % d;
    n / d
  }

  /** The `averageRating` calculateAverageRating assigns, in tenths; 0 when there are no ratings. */
  function AverageTenths(rs: seq<Rating>): int {
    if |rs| == 0 then 0 else RoundHalfUpDiv(10 * SumScores(rs), |rs|)
  }

  predicate ScoresInRange(rs: seq<Rating>) {
    forall k :: 0 <= k < |rs| ==> 1 <= rs[k].score <= 5
  }

  /** The derived fields agree with the embedded ratings. */
  predicate AggregatesConsistent(r: Recipe) {
    r.averageRating == AverageTenths(r.ratings) && r.ratingCount == |r.ratings|
  }

  /** The document as the pre-save hook leaves it. */
  function WithAggregates(r: Recipe): (a: Recipe)
    ensures AggregatesConsistent(a)
    ensures a.content == r.content && a.ratings == r.ratings
  {
    r.(averageRating := AverageTenths(r.ratings), ratingCount := |r.ratings|)
  }

  lemma {:induction false} SumScoresBounds(rs: seq<Rating>)
    requires ScoresInRange(rs)
    ensures |rs| <= SumScores(rs) <= 5 * |rs|
    decreases |rs|
  {
    if rs != [] {
      var init := rs[..|rs| - 1];
      assert ScoresInRange(init) by {
        forall k | 0 <= k < |init| ensures 1 <= init[k].score <= 5 {
          assert init[k] == rs[k];
        }
      }
      SumScoresBounds(init);
    }
  }

  /** With no ratings both aggregates are 0; otherwise the count is the number of ratings and the average the rounded mean. */
  lemma AggregatesOfRatings(rs: seq<Rating>)
    ensures |rs| == 0 ==> AverageTenths(rs) == 0
    ensures |rs| > 0 ==>
      var n, t := |rs|, AverageTenths(rs);
      2 * n * t <= 20 * SumScores(rs) + n < 2 * n * (t + 1)
  {
  }

  lemma MulMonotone(a: int, b: int, c: int)
    requires a <= b && c >= 0
    ensures a * c <= b * c
  {
  }

  /** Scores between 1 and 5 give an average between 1.0 and 5.0. */
  lemma {:induction false} AverageWithinScoreRange(rs: seq<Rating>)
    requires ScoresInRange(rs) && |rs| > 0
    ensures 10 <= AverageTenths(rs) <= 50
  {
    var n, s, t := |rs|, SumScores(rs), AverageTenths(rs);
    SumScoresBounds(rs);
    assert 2 * n * t <= 20 * s + n < 2 * n * (t + 1);
    if t > 50 {
      MulMonotone(51, t, 2 * n);
      assert false;
    }
    if t < 10 {
      MulMonotone(t + 1, 10, 2 * n);
      assert false;
    }
  }

  /** Every average the hook can store meets the schema's 0..5 bound on `averageRating`. */
  lemma AverageWithinSchemaBound(rs: seq<Rating>)
    requires ScoresInRange(rs)
    ensures 0 <= AverageTenths(rs) <= 50
  {
    if |rs| > 0 {
      AverageWithinScoreRange(rs);
    }
  }

  /** The hook keeps a persistable document persistable. */
  lemma WithAggregatesPersistable(r: Recipe)
    requires Persistable(r)
    ensures Persistable(WithAggregates(r))
  {
    assert ScoresInRange(r.ratings) by {
      forall k | 0 <= k < |r.ratings| ensures 1 <= r.ratings[k].score <= 5 {
        assert RatingOk(r.ratings[k]);
      }
    }
    AverageWithinSchemaBound(r.ratings);
  }

  /** Scores 2 and 5 average to 3.5; a single 2 to 2.0. */
  lemma AverageExamples(u: UserId, v: UserId)
    ensures AverageTenths([Rating(u, 2, ""), Rating(v, 5, "")]) == 35
    ensures AverageTenths([Rating(u, 2, "")]) == 20
  {
    var one := [Rating(u, 2, "")];
    var two := one + [Rating(v, 5, "")];
    assert one[..0] == [] && two[..1] == one;
    assert SumScores(one) == 2;
    assert SumScores(two) == 7;
    assert two == [Rating(u, 2, ""), Rating(v, 5, "")];
    assert AverageTenths(two) == RoundHalfUpDiv(70, 2) == 142 / 4;
  }

  /** A recipe document loaded for one request, whose derived fields are assigned in place. */
  class RecipeDocument {
    var content: RecipeContent
    var ratings: seq<Rating>
    var averageRating: int
    var ratingCount: int

    function Value(): Recipe
      reads this
    {
      Recipe(content, ratings, averageRating, ratingCount)
    }

    constructor Load(r: Recipe)
      ensures Value() == r
    {
      content := r.content;
      ratings := r.ratings;
      averageRating := r.averageRating;
      ratingCount := r.ratingCount;
    }

    /** `recipeSchema.methods.calculateAverageRating`. */
    method CalculateAverageRating()
      modifies this
      ensures content == old(content) && ratings == old(ratings)
      ensures averageRating == AverageTenths(ratings) && ratingCount == |ratings|
      ensures Value() == WithAggregates(old(Value()))
    {
      if |ratings| == 0 {
        averageRating := 0;
        ratingCount := 0;
        return;
      }
      var sum := SumScores(ratings);
      averageRating := RoundHalfUpDiv(10 * sum, |ratings|);
      ratingCount := |ratings|;
    }

    /** The `pre('save')` hook. */
    method PreSave()
      modifies this
      ensures Value() == WithAggregates(old(Value()))
    {
      CalculateAverageRating();
    }

    /**
     * `save()`: the validators run first, on the whole document; only a
     * valid document reaches the pre-save hook, which overwrites whatever
     * aggregates the document carried.
     */
    method Save() returns (violations: seq<RecipeSchema.Violation>)
      modifies this
      ensures violations == Violations(ToInput(old(Value())), true)
      ensures violations == [] ==> SatisfiesSchema(old(Value())) && Value() == WithAggregates(old(Value()))
      ensures violations != [] ==> !SatisfiesSchema(old(Value())) && Value() == old(Value())
    {
      DocumentValidationIff(Value());
      violations := Violations(ToInput(Value()), true);
      if violations == [] {
        PreSave();
      }
    }
  }
}
