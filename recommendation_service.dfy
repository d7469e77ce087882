/**
 * `RecommendationService`: a strategy table keyed case-insensitively by strategy key, limit
 * validation, and the choice of strategy from the requested type.
 */
module RecommendationService {
  import opened Wrappers
  import opened Text
  import opened KeyedRegistry
  import opened Ranking
  import opened Strategies

  /** The registered `IRecommendationStrategy` implementations. */
  datatype Strategy = PopularStrategy | NewStrategy | PersonalizedStrategy | CategoryStrategy {

    function Key(): string {
      match this
      case PopularStrategy => "popular"
      case NewStrategy => "new"
      case PersonalizedStrategy => "personalized"
      case CategoryStrategy => "category"
    }

    function Recommend(user: UserContext, products: seq<Product>, limit: int): seq<Product> {
      match this
      case PopularStrategy => Popular(user, products, limit)
      case NewStrategy => Newest(user, products, limit)
      case PersonalizedStrategy => Personalized(user, products, limit)
      case CategoryStrategy => ByCategory(user, products, limit)
    }
  }

  /** Every strategy returns at most `limit` products, each drawn from the input without added copies. */
  lemma StrategyDrawsFromInput(s: Strategy, user: UserContext, products: seq<Product>, limit: int)
    ensures var r := s.Recommend(user, products, limit);
      && multiset(r) <= multiset(products)
      && |r| <= (if limit <= 0 then 0 else limit)
  {
    match s
    case PopularStrategy => PopularRecommendsTop(user, products, limit);
    case NewStrategy => NewestRecommendsTop(user, products, limit);
    case PersonalizedStrategy => PersonalizedRecommendsTop(user, products, limit);
    case CategoryStrategy => ByCategoryDrawsFromInput(user, products, limit);
  }

  /** The strategies in the order the host registers them. */
  const RegisteredStrategies := [PopularStrategy, NewStrategy, PersonalizedStrategy, CategoryStrategy]

  /** `_data` is the product fixture; `table` is `_map`. */
  datatype Service = Service(data: seq<Product>, table: seq<Entry<Strategy>>)

  function Entries(strategies: seq<Strategy>): seq<Entry<Strategy>> {
    seq(|strategies|, i requires 0 <= i < |strategies| => Entry(strategies[i].Key(), strategies[i]))
  }

  /** The constructor: `strategies.ToDictionary(s => s.Key, StringComparer.OrdinalIgnoreCase)`. */
  function New(data: seq<Product>, strategies: seq<Strategy>): Result<Service, string> {
    match Build(Entries(strategies))
    case Failure(e) => Failure(e)
    case Success(table) => Success(Service(data, table))
  }

  /** Construction fails exactly when two strategies have keys equal ignoring case. */
  lemma NewRequiresDistinctKeys(data: seq<Product>, strategies: seq<Strategy>)
    ensures New(data, strategies).Success?
        <==> forall i, j :: 0 <= i < j < |strategies| ==> !EqualsIgnoreCase(strategies[i].Key(), strategies[j].Key())
    ensures New(data, strategies).Success? ==> New(data, strategies).value.table == Entries(strategies)
  {
    var es := Entries(strategies);
    assert forall i :: 0 <= i < |strategies| ==> es[i].key == strategies[i].Key();
  }

  /** Different strategies have keys that differ even ignoring case. */
  lemma KeysDiffer(a: Strategy, b: Strategy)
    requires a != b
    ensures !EqualsIgnoreCase(a.Key(), b.Key())
  {
    if a.Key()[0] != b.Key()[0] {
      FirstLettersDiffer(a.Key(), b.Key());
    } else {
      LengthsDiffer(a.Key(), b.Key());
    }
  }

  /** The host's four strategies have distinct keys, so the service can be built. */
  lemma RegisteredStrategiesBuild(data: seq<Product>)
    ensures New(data, RegisteredStrategies).Success?
  {
    forall i, j | 0 <= i < j < |RegisteredStrategies|
      ensures !EqualsIgnoreCase(RegisteredStrategies[i].Key(), RegisteredStrategies[j].Key())
    {
      KeysDiffer(RegisteredStrategies[i], RegisteredStrategies[j]);
    }
    NewRequiresDistinctKeys(data, RegisteredStrategies);
  }

  /** `AvailableTypes`: the registered keys in ascending order. */
  function AvailableTypes(svc: Service): seq<string> {
    SortedKeys(svc.table)
  }

  /** The host's service lists its four strategy keys in ascending order. */
  lemma RegisteredAvailableTypes(data: seq<Product>)
    ensures New(data, RegisteredStrategies).Success?
    ensures AvailableTypes(New(data, RegisteredStrategies).value) == ["category", "new", "personalized", "popular"]
  {
    RegisteredStrategiesBuild(data);
    assert Keys(New(data, RegisteredStrategies).value.table) == ["popular", "new", "personalized", "category"];
    SortedStrategyKeys();
  }

  /** Sorting the registered keys, one insertion at a time. */
  lemma SortedStrategyKeys()
    ensures SortOrdinal(["popular", "new", "personalized", "category"]) == ["category", "new", "personalized", "popular"]
  {
    var keys := ["popular", "new", "personalized", "category"];
    assert keys[1..][1..][1..] == ["category"];
    assert keys[1..][1..] == ["personalized", "category"];
    assert keys[1..] == ["new", "personalized", "category"];
    InsertPersonalized();
    InsertNew();
    InsertPopular();
  }

  lemma InsertPersonalized()
    ensures InsertOrdinal("personalized", ["category"]) == ["category", "personalized"]
  {
    assert !OrdinalLe("personalized", "category");
  }

  lemma InsertNew()
    ensures SortedOrdinal(["category", "personalized"])
    ensures InsertOrdinal("new", ["category", "personalized"]) == ["category", "new", "personalized"]
  {
    InsertPersonalized();
    assert !OrdinalLe("new", "category") && OrdinalLe("new", "personalized");
  }

  lemma InsertPopular()
    ensures SortedOrdinal(["category", "new", "personalized"])
    ensures InsertOrdinal("popular", ["category", "new", "personalized"]) == ["category", "new", "personalized", "popular"]
  {
    var t := ["category", "new", "personalized"];
    KeysInOrder();
    assert !OrdinalLe("popular", "category");
    InsertOrdinalBehind("popular", t);
    assert t[1..] == ["new", "personalized"];
    InsertPopularAfterNew();
  }

  lemma InsertPopularAfterNew()
    ensures SortedOrdinal(["new", "personalized"])
    ensures InsertOrdinal("popular", ["new", "personalized"]) == ["new", "personalized", "popular"]
  {
    var t := ["new", "personalized"];
    KeysInOrder();
    assert !OrdinalLe("popular", "new");
    InsertOrdinalBehind("popular", t);
    assert t[1..] == ["personalized"];
    assert !OrdinalLe("popular", "personalized") by {
      assert "popular"[0] == "personalized"[0] && "popular"[1] > "personalized"[1];
    }
    InsertOrdinalBehind("popular", ["personalized"]);
    assert ["personalized"][1..] == [];
  }

  lemma KeysInOrder()
    ensures SortedOrdinal(["category", "new", "personalized"])
    ensures SortedOrdinal(["new", "personalized"])
  {
    var t := ["category", "new", "personalized"];
    assert OrdinalLe(t[0], t[1]) && OrdinalLe(t[0], t[2]) && OrdinalLe(t[1], t[2]);
  }

  const DefaultType := "popular"
  const MaxLimit := 50
  const LimitTooSmallMessage := "Limit must be greater than 0."
  const LimitTooLargeMessage := "Limit cannot be greater than 50."

  /** The key looked up for a requested type: the default for a missing or blank one, else the trimmed type. */
  function RequestedKey(requested: Option<string>): string {
    if IsNullOrWhiteSpace(requested) then DefaultType else Trim(requested.value)
  }

  function UnknownTypeMessage(svc: Service, key: string): string {
    "Unknown recommendation type: '" + key + "'. Valid types: " + Join(", ", AvailableTypes(svc))
  }

  /** `Recommend(type, limit, user)`; `None` stands for a null type. */
  function Recommend(svc: Service, requested: Option<string>, limit: int, user: UserContext): Result<seq<Product>, string> {
    if limit <= 0 then Failure(LimitTooSmallMessage)
    else if limit > MaxLimit then Failure(LimitTooLargeMessage)
    else
      var key := RequestedKey(requested);
      match Find(svc.table, key)
      case None => Failure(UnknownTypeMessage(svc, key))
      case Some(strategy) => Success(strategy.Recommend(user, svc.data, limit))
  }

  /**
   * The limit is validated before the type is looked at; a valid limit and a key matching a
   * registered strategy ignoring case give that strategy's output on the fixture; a key matching
   * none gives an error naming the key and listing the valid types.
   */
  lemma RecommendRouting(svc: Service, requested: Option<string>, limit: int, user: UserContext)
    requires KeysDistinct(svc.table)
    ensures limit <= 0 ==> Recommend(svc, requested, limit, user) == Failure(LimitTooSmallMessage)
    ensures limit > MaxLimit ==> Recommend(svc, requested, limit, user) == Failure(LimitTooLargeMessage)
    ensures 0 < limit <= MaxLimit ==>
      forall i | 0 <= i < |svc.table| && EqualsIgnoreCase(svc.table[i].key, RequestedKey(requested)) ::
        Recommend(svc, requested, limit, user) == Success(svc.table[i].value.Recommend(user, svc.data, limit))
    ensures 0 < limit <= MaxLimit && (forall i :: 0 <= i < |svc.table| ==> !EqualsIgnoreCase(svc.table[i].key, RequestedKey(requested))) ==>
      Recommend(svc, requested, limit, user) == Failure(UnknownTypeMessage(svc, RequestedKey(requested)))
  {
    forall i | 0 <= i < |svc.table| && EqualsIgnoreCase(svc.table[i].key, RequestedKey(requested)) {
      FindMatching(svc.table, i, RequestedKey(requested));
    }
  }

  /** A missing or blank type is the same request as "popular"; any other type is trimmed first. */
  lemma RequestedKeyDefaultsAndTrims(requested: Option<string>)
    ensures IsNullOrWhiteSpace(requested) ==> RequestedKey(requested) == "popular"
    ensures !IsNullOrWhiteSpace(requested) ==>
      && RequestedKey(requested) == Trim(requested.value)
      && RequestedKey(requested) != []
      && !IsWhiteSpace(RequestedKey(requested)[0])
  {
  }

  /** A successful recommendation respects the limit and only returns fixture products. */
  lemma RecommendBounded(svc: Service, requested: Option<string>, limit: int, user: UserContext)
    requires Recommend(svc, requested, limit, user).Success?
    ensures 0 < limit <= MaxLimit
    ensures var items := Recommend(svc, requested, limit, user).value;
      && |items| <= limit
      && multiset(items) <= multiset(svc.data)
  {
    var strategy := Find(svc.table, RequestedKey(requested)).value;
    StrategyDrawsFromInput(strategy, user, svc.data, limit);
  }

  /** On the host's service a blank type gives the popular ranking. */
  lemma BlankTypeIsPopular(data: seq<Product>, requested: Option<string>, limit: int, user: UserContext)
    requires IsNullOrWhiteSpace(requested) && 0 < limit <= MaxLimit
    ensures New(data, RegisteredStrategies).Success?
    ensures Recommend(New(data, RegisteredStrategies).value, requested, limit, user) == Success(Popular(user, data, limit))
  {
    RegisteredStrategiesBuild(data);
    var svc := New(data, RegisteredStrategies).value;
    NewRequiresDistinctKeys(data, RegisteredStrategies);
    assert svc.table[0].key == "popular";
    FindMatching(svc.table, 0, "popular");
  }
}
