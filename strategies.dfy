/**
 * The four `IRecommendationStrategy` implementations: pure ranking pipelines over a product list.
 */
module Strategies {
  import opened Text
  import opened Ranking

  /** C#'s `int`. */
  type Int32 = x: int | -0x8000_0000 <= x < 0x8000_0000

  /** `CreatedAt` is kept as a number of ticks; only its order matters. */
  datatype Product = Product(id: nat, name: string, category: string, createdAt: int, popularityScore: Int32)

  datatype UserContext = UserContext(userId: nat, interests: seq<string>)

  /** Popularity first, then recency. */
  function PopularRank(p: Product): Rank {
    (p.popularityScore as int, p.createdAt)
  }

  /** Recency first, then popularity. */
  function NewRank(p: Product): Rank {
    (p.createdAt, p.popularityScore as int)
  }

  /** Recency only: a constant second key leaves ties in input order. */
  function CreatedAtRank(p: Product): Rank {
    (p.createdAt, 0)
  }

  // ---------------------------------------------------------------- PopularStrategy

  /** `PopularStrategy.Recommend`. */
  function Popular(user: UserContext, products: seq<Product>, limit: int): seq<Product> {
    Take(SortByRank(products, PopularRank), limit)
  }

  lemma PopularRecommendsTop(user: UserContext, products: seq<Product>, limit: int)
    ensures var r := Popular(user, products, limit);
      && |r| == (if limit <= 0 then 0 else Min(limit, |products|))
      && multiset(r) <= multiset(products)
      && (forall i, j :: 0 <= i < j < |r| ==> RankLe(PopularRank(r[j]), PopularRank(r[i])))
      && (forall x, y | x in multiset(products) - multiset(r) && y in r :: RankLe(PopularRank(x), PopularRank(y)))
      && forall other: UserContext :: Popular(other, products, limit) == r
  {
    TopRanked(products, PopularRank, limit);
  }

  // ---------------------------------------------------------------- NewStrategy

  /** `NewStrategy.Recommend`. */
  function Newest(user: UserContext, products: seq<Product>, limit: int): seq<Product> {
    Take(SortByRank(products, NewRank), limit)
  }

  lemma NewestRecommendsTop(user: UserContext, products: seq<Product>, limit: int)
    ensures var r := Newest(user, products, limit);
      && |r| == (if limit <= 0 then 0 else Min(limit, |products|))
      && multiset(r) <= multiset(products)
      && (forall i, j :: 0 <= i < j < |r| ==> RankLe(NewRank(r[j]), NewRank(r[i])))
      && (forall x, y | x in multiset(products) - multiset(r) && y in r :: RankLe(NewRank(x), NewRank(y)))
      && forall other: UserContext :: Newest(other, products, limit) == r
  {
    TopRanked(products, NewRank, limit);
  }

  // ---------------------------------------------------------------- PersonalizedStrategy

  const InterestBoost := 1000

  /** `user.Interests.Any(i => p.Category.Equals(i, StringComparison.OrdinalIgnoreCase))`. */
  function MatchesAny(category: string, interests: seq<string>): bool {
    if interests == [] then false
    else EqualsIgnoreCase(category, interests[0]) || MatchesAny(category, interests[1..])
  }

  lemma {:induction false} MatchesAnyMeansSome(category: string, interests: seq<string>)
    ensures MatchesAny(category, interests)
        <==> exists i :: 0 <= i < |interests| && EqualsIgnoreCase(category, interests[i])
  {
    if interests != [] {
      MatchesAnyMeansSome(category, interests[1..]);
      if !EqualsIgnoreCase(category, interests[0]) && MatchesAny(category, interests) {
        var i :| 0 <= i < |interests[1..]| && EqualsIgnoreCase(category, interests[1..][i]);
        assert interests[i + 1] == interests[1..][i];
      }
      if exists i :: 0 <= i < |interests| && EqualsIgnoreCase(category, interests[i]) {
        var i :| 0 <= i < |interests| && EqualsIgnoreCase(category, interests[i]);
        if i > 0 {
          assert interests[1..][i - 1] == interests[i];
        }
      }
    }
  }

  /** `(match ? 1000 : 0) + p.PopularityScore` as the source computes it: unchecked 32-bit addition. */
  function Wrap32(x: int): Int32 {
    (x + 0x8000_0000) % 0x1_0000_0000 - 0x8000_0000
  }

  function ScoreAsWritten(p: Product, interests: seq<string>): Int32 {
    Wrap32((if MatchesAny(p.category, interests) then InterestBoost else 0) + p.popularityScore as int)
  }

  /**
   * Counterexample: a best-selling product in the user's category falls below an unpopular
   * product outside it, because the boost overflows `int`.
   */
  lemma BoostLowersScoreAsWritten()
    ensures var interests := ["Clothing"];
      var hoodie := Product(1, "Hoodie", "Clothing", 0, 2147483000);
      var cap := Product(2, "Cap", "Accessories", 0, 0);
      && MatchesAny(hoodie.category, interests) && !MatchesAny(cap.category, interests)
      && hoodie.popularityScore > cap.popularityScore
      && ScoreAsWritten(hoodie, interests) < ScoreAsWritten(cap, interests)
  {
    var interests := ["Clothing"];
    assert |Fold("Accessories")| != |Fold("Clothing")|;
    assert MatchesAny("Accessories", interests[1..]) == false;
  }

  /** The score with the addition done without overflow, as a 64-bit sum would. */
  function Score(p: Product, interests: seq<string>): int {
    (if MatchesAny(p.category, interests) then InterestBoost else 0) + p.popularityScore as int
  }

  /** The boost never lowers a score, and it lifts exactly the products of an interesting category by 1000. */
  lemma BoostNeverLowersScore(p: Product, interests: seq<string>)
    ensures Score(p, interests) >= p.popularityScore as int
    ensures Score(p, interests) == p.popularityScore as int + InterestBoost
        <==> exists i :: 0 <= i < |interests| && EqualsIgnoreCase(p.category, interests[i])
  {
    MatchesAnyMeansSome(p.category, interests);
  }

  /** The corrected score agrees with the source wherever the sum fits in an `int`. */
  lemma ScoreAgreesWithoutOverflow(p: Product, interests: seq<string>)
    requires p.popularityScore as int + InterestBoost < 0x8000_0000
    ensures ScoreAsWritten(p, interests) as int == Score(p, interests)
  {
  }

  function PersonalizedRank(interests: seq<string>): Product -> Rank {
    (p: Product) => (Score(p, interests), p.createdAt)
  }

  /** `PersonalizedStrategy.Recommend`: rank by boosted score, then recency; drop the scores. */
  function Personalized(user: UserContext, products: seq<Product>, limit: int): seq<Product> {
    Take(SortByRank(products, PersonalizedRank(user.interests)), limit)
  }

  lemma PersonalizedRecommendsTop(user: UserContext, products: seq<Product>, limit: int)
    ensures var r := Personalized(user, products, limit);
      var rank := PersonalizedRank(user.interests);
      && |r| == (if limit <= 0 then 0 else Min(limit, |products|))
      && multiset(r) <= multiset(products)
      && (forall i, j :: 0 <= i < j < |r| ==> RankLe(rank(r[j]), rank(r[i])))
      && (forall x, y | x in multiset(products) - multiset(r) && y in r :: RankLe(rank(x), rank(y)))
  {
    TopRanked(products, PersonalizedRank(user.interests), limit);
  }

  /** With no interests nothing is boosted, and the ranking is the popular one. */
  lemma PersonalizedWithoutInterestsIsPopular(user: UserContext, products: seq<Product>, limit: int)
    requires user.interests == []
    ensures Personalized(user, products, limit) == Popular(user, products, limit)
  {
    SortByRankSameKey(products, PersonalizedRank(user.interests), PopularRank);
  }

  /** The ranking `PersonalizedStrategy` sorts by as written: the wrapped 32-bit score, then recency. */
  function PersonalizedRankAsWritten(interests: seq<string>): Product -> Rank {
    (p: Product) => (ScoreAsWritten(p, interests) as int, p.createdAt)
  }

  /** `PersonalizedStrategy.Recommend` exactly as the source computes it. */
  function PersonalizedAsWritten(user: UserContext, products: seq<Product>, limit: int): seq<Product> {
    Take(SortByRank(products, PersonalizedRankAsWritten(user.interests)), limit)
  }

  /** The source's ranking is a top-`limit` list too, but by the wrapped score. */
  lemma PersonalizedAsWrittenRecommendsTop(user: UserContext, products: seq<Product>, limit: int)
    ensures var r := PersonalizedAsWritten(user, products, limit);
      var rank := PersonalizedRankAsWritten(user.interests);
      && |r| == (if limit <= 0 then 0 else Min(limit, |products|))
      && multiset(r) <= multiset(products)
      && (forall i, j :: 0 <= i < j < |r| ==> RankLe(rank(r[j]), rank(r[i])))
      && (forall x, y | x in multiset(products) - multiset(r) && y in r :: RankLe(rank(x), rank(y)))
  {
    TopRanked(products, PersonalizedRankAsWritten(user.interests), limit);
  }

  /** When no boosted score overflows, the corrected ranking is exactly the source's. */
  lemma PersonalizedAgreesWithoutOverflow(user: UserContext, products: seq<Product>, limit: int)
    requires forall p | p in products :: p.popularityScore as int + InterestBoost < 0x8000_0000
    ensures Personalized(user, products, limit) == PersonalizedAsWritten(user, products, limit)
  {
    forall p | p in products
      ensures PersonalizedRank(user.interests)(p) == PersonalizedRankAsWritten(user.interests)(p)
    {
      ScoreAgreesWithoutOverflow(p, user.interests);
    }
    SortByRankSameKey(products, PersonalizedRank(user.interests), PersonalizedRankAsWritten(user.interests));
  }

  /**
   * On the overflowing catalogue the source recommends the unmatched cap, where the corrected
   * ranking recommends the matching, more popular hoodie.
   */
  lemma PersonalizedAsWrittenPrefersCap()
    ensures var user := UserContext(1, ["Clothing"]);
      var hoodie := Product(1, "Hoodie", "Clothing", 0, 2147483000);
      var cap := Product(2, "Cap", "Accessories", 0, 0);
      && PersonalizedAsWritten(user, [hoodie, cap], 1) == [cap]
      && Personalized(user, [hoodie, cap], 1) == [hoodie]
  {
    var interests := ["Clothing"];
    var hoodie := Product(1, "Hoodie", "Clothing", 0, 2147483000);
    var cap := Product(2, "Cap", "Accessories", 0, 0);
    BoostLowersScoreAsWritten();
    assert [hoodie, cap][1..] == [cap];
    assert SortByRank([cap], PersonalizedRankAsWritten(interests)) == [cap];
    assert SortByRank([hoodie, cap], PersonalizedRankAsWritten(interests)) == [cap, hoodie];
    assert SortByRank([cap], PersonalizedRank(interests)) == [cap];
    assert SortByRank([hoodie, cap], PersonalizedRank(interests)) == [hoodie, cap];
  }

  // ---------------------------------------------------------------- CategoryStrategy

  function InCategory(target: string): Product -> bool {
    (p: Product) => EqualsIgnoreCase(p.category, target)
  }

  /** The products of the target category, most popular first. */
  function Primary(products: seq<Product>, target: string): seq<Product> {
    SortByRank(Filter(products, InCategory(target)), PopularRank)
  }

  /** The other products, each once, most popular first, at most `n` of them. */
  function Fallback(products: seq<Product>, primary: seq<Product>, n: int): seq<Product> {
    Take(SortByRank(Except(products, primary), PopularRank), n)
  }

  /** The result for a user whose first interest is `target`. */
  function ForTarget(products: seq<Product>, target: string, limit: int): seq<Product> {
    var primary := Primary(products, target);
    if |primary| >= limit then Take(primary, limit)
    else primary + Fallback(products, primary, limit - |primary|)
  }

  /** `CategoryStrategy.Recommend`. */
  function ByCategory(user: UserContext, products: seq<Product>, limit: int): seq<Product> {
    if |user.interests| == 0 then Take(SortByRank(products, CreatedAtRank), limit)
    else ForTarget(products, user.interests[0], limit)
  }

  /** Recency ranking: the newest products, ties in input order, at most `limit` of them. */
  lemma NewestTop(products: seq<Product>, limit: int)
    ensures var r := Take(SortByRank(products, CreatedAtRank), limit);
      && |r| == (if limit <= 0 then 0 else Min(limit, |products|))
      && multiset(r) <= multiset(products)
      && (forall i, j :: 0 <= i < j < |r| ==> r[j].createdAt <= r[i].createdAt)
      && (forall x, y | x in multiset(products) - multiset(r) && y in r :: x.createdAt <= y.createdAt)
  {
    var r := Take(SortByRank(products, CreatedAtRank), limit);
    TopRanked(products, CreatedAtRank, limit);
    forall i, j | 0 <= i < j < |r| ensures r[j].createdAt <= r[i].createdAt {
      assert RankLe(CreatedAtRank(r[j]), CreatedAtRank(r[i]));
    }
    forall x, y | x in multiset(products) - multiset(r) && y in r ensures x.createdAt <= y.createdAt {
      assert RankLe(CreatedAtRank(x), CreatedAtRank(y));
    }
  }

  /** With no interests the newest products come first (recency alone, ties in input order). */
  lemma ByCategoryWithoutInterests(user: UserContext, products: seq<Product>, limit: int)
    requires user.interests == []
    ensures var r := ByCategory(user, products, limit);
      && |r| == (if limit <= 0 then 0 else Min(limit, |products|))
      && multiset(r) <= multiset(products)
      && (forall i, j :: 0 <= i < j < |r| ==> r[j].createdAt <= r[i].createdAt)
      && (forall x, y | x in multiset(products) - multiset(r) && y in r :: x.createdAt <= y.createdAt)
  {
    NewestTop(products, limit);
  }

  /** The primary list holds every product of the target category, no other, most popular first. */
  lemma PrimaryIsTargetCategory(products: seq<Product>, target: string)
    ensures var primary := Primary(products, target);
      && (forall x | x in products && EqualsIgnoreCase(x.category, target) :: multiset(primary)[x] == multiset(products)[x])
      && (forall x | x in primary :: EqualsIgnoreCase(x.category, target))
      && SortedDesc(primary, PopularRank)
  {
    var matching := Filter(products, InCategory(target));
    assert multiset(Primary(products, target)) == multiset(matching);
    forall x | x in Primary(products, target) ensures EqualsIgnoreCase(x.category, target) {
      assert x in multiset(matching);
    }
  }

  /**
   * The fallback list: distinct products from outside the primary list, hence (when the primary
   * list holds the whole target category) from other categories, most popular first; and the most
   * popular of them: no product outside the primary list that was left out outranks one kept.
   */
  lemma FallbackIsOtherCategories(products: seq<Product>, primary: seq<Product>, target: string, n: int)
    requires forall x | x in products && EqualsIgnoreCase(x.category, target) :: x in primary
    ensures var fallback := Fallback(products, primary, n);
      && |fallback| == (if n <= 0 then 0 else Min(n, |Except(products, primary)|))
      && Distinct(fallback)
      && SortedDesc(fallback, PopularRank)
      && (forall x | x in fallback :: x in products && x !in primary && !EqualsIgnoreCase(x.category, target))
      && forall x, y | x in products && x !in primary && x !in fallback && y in fallback ::
           RankLe(PopularRank(x), PopularRank(y))
  {
    var rest := Except(products, primary);
    var sorted := SortByRank(rest, PopularRank);
    var fallback := Fallback(products, primary, n);
    PrefixSubMultiset(sorted, |fallback|);
    TopRanked(rest, PopularRank, n);
    forall x, y | x in products && x !in primary && x !in fallback && y in fallback
      ensures RankLe(PopularRank(x), PopularRank(y))
    {
      assert x in rest;
      assert x in multiset(rest) - multiset(fallback);
    }
    forall x | x in fallback
      ensures x in products && x !in primary && !EqualsIgnoreCase(x.category, target)
    {
      assert x in multiset(sorted);
      assert x in rest;
    }
    forall x | x in fallback ensures multiset(fallback)[x] <= 1 {
      assert multiset(fallback)[x] <= multiset(sorted)[x] == multiset(rest)[x];
    }
  }

  /**
   * For a target category the primary items come first, and either fill the whole result or
   * are followed by the most popular distinct items of other categories, in popularity order.
   */
  lemma ForTargetShape(products: seq<Product>, target: string, limit: int)
    ensures var primary := Primary(products, target);
      var r := ForTarget(products, target, limit);
      && (|primary| >= limit ==> r == Take(primary, limit))
      && (|primary| < limit ==>
            && |r| <= limit
            && r[..|primary|] == primary
            && var fallback := r[|primary|..];
               && |fallback| == Min(limit - |primary|, |Except(products, primary)|)
               && Distinct(fallback)
               && SortedDesc(fallback, PopularRank)
               && (forall x | x in fallback :: x in products && x !in primary && !EqualsIgnoreCase(x.category, target))
               && forall x, y | x in products && x !in primary && x !in fallback && y in fallback ::
                    RankLe(PopularRank(x), PopularRank(y)))
  {
    var primary := Primary(products, target);
    if |primary| < limit {
      PrimaryIsTargetCategory(products, target);
      var fallback := Fallback(products, primary, limit - |primary|);
      var r := ForTarget(products, target, limit);
      assert r == primary + fallback;
      assert r[..|primary|] == primary;
      assert r[|primary|..] == fallback;
      forall x | x in products && EqualsIgnoreCase(x.category, target) ensures x in primary {
        assert multiset(primary)[x] == multiset(products)[x] > 0;
      }
      FallbackIsOtherCategories(products, primary, target, limit - |primary|);
    }
  }

  /**
   * With interests, only the first one counts; the primary items come first, and either fill
   * the whole result or are followed by the most popular distinct items of other categories.
   */
  lemma ByCategoryWithInterests(user: UserContext, products: seq<Product>, limit: int)
    requires user.interests != []
    ensures var target := user.interests[0];
      var primary := Primary(products, target);
      var r := ByCategory(user, products, limit);
      && r == ByCategory(UserContext(user.userId, [target]), products, limit)
      && (|primary| >= limit ==> r == Take(primary, limit))
      && (|primary| < limit ==>
            && |r| <= limit
            && r[..|primary|] == primary
            && var fallback := r[|primary|..];
               && |fallback| == Min(limit - |primary|, |Except(products, primary)|)
               && Distinct(fallback)
               && SortedDesc(fallback, PopularRank)
               && (forall x | x in fallback :: x in products && x !in primary && !EqualsIgnoreCase(x.category, target))
               && forall x, y | x in products && x !in primary && x !in fallback && y in fallback ::
                    RankLe(PopularRank(x), PopularRank(y)))
  {
    ForTargetShape(products, user.interests[0], limit);
  }

  /** For a target category, the result adds no copies of any product and respects the limit. */
  lemma ForTargetDrawsFromInput(products: seq<Product>, target: string, limit: int)
    ensures var r := ForTarget(products, target, limit);
      && multiset(r) <= multiset(products)
      && |r| <= (if limit <= 0 then 0 else limit)
  {
    var r := ForTarget(products, target, limit);
    var primary := Primary(products, target);
    var matching := Filter(products, InCategory(target));
    assert multiset(primary) == multiset(matching) <= multiset(products);
    if |primary| >= limit {
      PrefixSubMultiset(primary, |Take(primary, limit)|);
    } else {
      ForTargetShape(products, target, limit);
      var fallback := r[|primary|..];
      assert r == primary + fallback;
      forall x ensures multiset(r)[x] <= multiset(products)[x] {
        if x in fallback {
          assert !EqualsIgnoreCase(x.category, target);
          assert x !in multiset(matching);
          assert multiset(fallback)[x] <= 1;
          assert x in multiset(products);
        } else {
          assert multiset(fallback)[x] == 0;
        }
      }
    }
  }

  /** Whatever the case, the category strategy adds no copies of any product. */
  lemma ByCategoryDrawsFromInput(user: UserContext, products: seq<Product>, limit: int)
    ensures var r := ByCategory(user, products, limit);
      && multiset(r) <= multiset(products)
      && |r| <= (if limit <= 0 then 0 else limit)
  {
    if |user.interests| == 0 {
      NewestTop(products, limit);
    } else {
      ForTargetDrawsFromInput(products, user.interests[0], limit);
    }
  }
}
