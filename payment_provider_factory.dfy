/**
 * `PaymentProviderFactory`: payment providers keyed case-insensitively by name, looked up by a
 * trimmed provider name.
 */
module PaymentProviderFactory {
  import opened Wrappers
  import opened Text
  import opened KeyedRegistry

  /** The registered `IPaymentProvider` implementations. */
  datatype Provider = Stripe | PayPal | Iyzico {
    function Name(): string {
      match this
      case Stripe => "stripe"
      case PayPal => "paypal"
      case Iyzico => "iyzico"
    }
  }

  /** The providers in the order the host registers them. */
  const RegisteredProviders := [Stripe, PayPal, Iyzico]

  /** `table` is `_map`. */
  datatype Factory = Factory(table: seq<Entry<Provider>>)

  function Entries(providers: seq<Provider>): seq<Entry<Provider>> {
    seq(|providers|, i requires 0 <= i < |providers| => Entry(providers[i].Name(), providers[i]))
  }

  /** The constructor: `providers.ToDictionary(p => p.Name, StringComparer.OrdinalIgnoreCase)`. */
  function New(providers: seq<Provider>): Result<Factory, string> {
    match Build(Entries(providers))
    case Failure(e) => Failure(e)
    case Success(table) => Success(Factory(table))
  }

  /** Construction fails exactly when two providers have names equal ignoring case. */
  lemma NewRequiresDistinctNames(providers: seq<Provider>)
    ensures New(providers).Success?
        <==> forall i, j :: 0 <= i < j < |providers| ==> !EqualsIgnoreCase(providers[i].Name(), providers[j].Name())
    ensures New(providers).Success? ==> New(providers).value.table == Entries(providers)
  {
    var es := Entries(providers);
    assert forall i :: 0 <= i < |providers| ==> es[i].key == providers[i].Name();
  }

  const ProviderRequiredMessage := "Provider is required."

  /** The error for an unmatched name quotes the name as given, untrimmed, and the names in table order. */
  function UnknownProviderMessage(f: Factory, providerName: string): string {
    "Unknown provider: '" + providerName + "'. Valid: " + Join(", ", Keys(f.table))
  }

  /** `Create(providerName)`; `None` stands for a null name. */
  function Create(f: Factory, providerName: Option<string>): Result<Provider, string> {
    if IsNullOrWhiteSpace(providerName) then Failure(ProviderRequiredMessage)
    else match Find(f.table, Trim(providerName.value))
      case Some(provider) => Success(provider)
      case None => Failure(UnknownProviderMessage(f, providerName.value))
  }

  /**
   * A missing or blank name is refused; otherwise the trimmed name selects the provider whose
   * name it equals ignoring case, and a name matching none is refused with the original text.
   */
  lemma CreateResolves(f: Factory, providerName: Option<string>)
    requires KeysDistinct(f.table)
    ensures IsNullOrWhiteSpace(providerName) ==> Create(f, providerName) == Failure(ProviderRequiredMessage)
    ensures !IsNullOrWhiteSpace(providerName) ==>
      forall i | 0 <= i < |f.table| && EqualsIgnoreCase(f.table[i].key, Trim(providerName.value)) ::
        Create(f, providerName) == Success(f.table[i].value)
    ensures (!IsNullOrWhiteSpace(providerName)
             && forall i :: 0 <= i < |f.table| ==> !EqualsIgnoreCase(f.table[i].key, Trim(providerName.value)))
        ==> Create(f, providerName) == Failure(UnknownProviderMessage(f, providerName.value))
  {
    if !IsNullOrWhiteSpace(providerName) {
      forall i | 0 <= i < |f.table| && EqualsIgnoreCase(f.table[i].key, Trim(providerName.value)) {
        FindMatching(f.table, i, Trim(providerName.value));
      }
    }
  }

  /** `AvailableProviders`: the registered names in ascending order. */
  function AvailableProviders(f: Factory): seq<string> {
    SortedKeys(f.table)
  }

  /** The host's factory lists its three provider names in ascending order. */
  lemma RegisteredAvailableProviders()
    ensures New(RegisteredProviders).Success?
    ensures AvailableProviders(New(RegisteredProviders).value) == ["iyzico", "paypal", "stripe"]
  {
    RegisteredProvidersBuild();
    assert Keys(New(RegisteredProviders).value.table) == ["stripe", "paypal", "iyzico"];
    SortedProviderNames();
  }

  /** Sorting the registered names, one insertion at a time. */
  lemma SortedProviderNames()
    ensures SortOrdinal(["stripe", "paypal", "iyzico"]) == ["iyzico", "paypal", "stripe"]
  {
    var names := ["stripe", "paypal", "iyzico"];
    assert names[1..][1..] == ["iyzico"];
    assert names[1..] == ["paypal", "iyzico"];
    InsertPaypal();
    InsertStripe();
  }

  lemma InsertPaypal()
    ensures InsertOrdinal("paypal", ["iyzico"]) == ["iyzico", "paypal"]
  {
    assert !OrdinalLe("paypal", "iyzico");
  }

  lemma InsertStripe()
    ensures SortedOrdinal(["iyzico", "paypal"])
    ensures InsertOrdinal("stripe", ["iyzico", "paypal"]) == ["iyzico", "paypal", "stripe"]
  {
    InsertPaypal();
    assert !OrdinalLe("stripe", "iyzico") && !OrdinalLe("stripe", "paypal");
  }

  /** The host's three providers have distinct names, so the factory can be built. */
  lemma RegisteredProvidersBuild()
    ensures New(RegisteredProviders).Success?
    ensures New(RegisteredProviders).value.table == Entries(RegisteredProviders)
  {
    FirstLettersDiffer("stripe", "paypal");
    FirstLettersDiffer("stripe", "iyzico");
    FirstLettersDiffer("paypal", "iyzico");
    NewRequiresDistinctNames(RegisteredProviders);
  }

  lemma PaddedUpperStripe()
    ensures !IsBlank(" STRIPE ")
    ensures EqualsIgnoreCase("stripe", Trim(" STRIPE "))
  {
    var padded := " STRIPE ";
    assert !IsWhiteSpace(padded[1]);
    assert TrimStart(padded[1..]) == padded[1..];
    assert TrimStart(padded) == "STRIPE ";
    assert TrimEnd("STRIPE "[..6]) == "STRIPE";
    EqualsIgnoreCaseByLetters("stripe", "STRIPE");
  }

  /** On the host's factory, the padded, upper-case name " STRIPE " selects Stripe. */
  lemma PaddedNameSelectsStripe()
    ensures New(RegisteredProviders).Success?
    ensures Create(New(RegisteredProviders).value, Some(" STRIPE ")) == Success(Stripe)
  {
    RegisteredProvidersBuild();
    var f := New(RegisteredProviders).value;
    PaddedUpperStripe();
    assert f.table[0] == Entry("stripe", Stripe);
    CreateResolves(f, Some(" STRIPE "));
  }
}
