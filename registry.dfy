/**
 * A read-only dictionary built by `ToDictionary(keySelector, StringComparer.OrdinalIgnoreCase)`:
 * the lookup table behind both the recommendation service and the payment provider factory.
 * Entries are kept in insertion order, which is the order `Dictionary.Keys` yields them in
 * when nothing is ever removed.
 */
module KeyedRegistry {
  import opened Wrappers
  import opened Text

  datatype Entry<V> = Entry(key: string, value: V)

  /** No two keys are equal under the ignore-case comparer. */
  predicate KeysDistinct<V>(es: seq<Entry<V>>) {
    forall i, j :: 0 <= i < j < |es| ==> !EqualsIgnoreCase(es[i].key, es[j].key)
  }

  /** The position of the entry whose key matches `key` ignoring case (the first, should there be several). */
  function IndexOf<V>(es: seq<Entry<V>>, key: string): (r: Option<nat>)
    ensures r.Some? ==> r.value < |es| && EqualsIgnoreCase(es[r.value].key, key)
    ensures r.Some? ==> forall j :: 0 <= j < r.value ==> !EqualsIgnoreCase(es[j].key, key)
    ensures r.None? ==> forall j :: 0 <= j < |es| ==> !EqualsIgnoreCase(es[j].key, key)
  {
    if es == [] then None
    else if EqualsIgnoreCase(es[0].key, key) then Some(0)
    else match IndexOf(es[1..], key) {
      case None => None
      case Some(k) => Some(k + 1)
    }
  }

  /** `Dictionary.TryGetValue`. */
  function Find<V>(es: seq<Entry<V>>, key: string): Option<V> {
    match IndexOf(es, key) {
      case None => None
      case Some(k) => Some(es[k].value)
    }
  }

  /** In a dictionary whose keys are distinct ignoring case, a key finds exactly the entry it matches. */
  lemma FindMatching<V>(es: seq<Entry<V>>, i: nat, key: string)
    requires KeysDistinct(es)
    requires i < |es| && EqualsIgnoreCase(es[i].key, key)
    ensures Find(es, key) == Some(es[i].value)
  {
    var k := IndexOf(es, key);
    assert k.Some?;
    if k.value != i {
      assert k.value < i;
      assert EqualsIgnoreCase(es[k.value].key, es[i].key);
      assert false;
    }
  }

  /** A key that matches no entry finds nothing. */
  lemma FindMissing<V>(es: seq<Entry<V>>, key: string)
    requires forall i :: 0 <= i < |es| ==> !EqualsIgnoreCase(es[i].key, key)
    ensures Find(es, key) == None
  {
  }

  const DuplicateKeyMessage := "An item with the same key has already been added. Key: "

  /**
   * `ToDictionary` with the ignore-case comparer: adds the entries one by one and throws on the
   * first key that matches one already added.
   */
  function Build<V>(es: seq<Entry<V>>): (r: Result<seq<Entry<V>>, string>)
    ensures r.Success? <==> KeysDistinct(es)
    ensures r.Success? ==> r.value == es
    ensures r.Failure? ==> exists j :: 0 <= j < |es| && r.error == DuplicateKeyMessage + es[j].key
    decreases |es|
  {
    if es == [] then Success([])
    else
      var init := es[..|es| - 1];
      var last := es[|es| - 1];
      match Build(init) {
        case Failure(e) => Failure(e)
        case Success(m) =>
          if IndexOf(m, last.key).Some? then
            assert !KeysDistinct(es) by {
              var k := IndexOf(m, last.key).value;
              assert es[k] == m[k];
            }
            Failure(DuplicateKeyMessage + last.key)
          else
            assert KeysDistinct(es) by {
              forall i, j | 0 <= i < j < |es| ensures !EqualsIgnoreCase(es[i].key, es[j].key) {
                if j == |es| - 1 {
                  assert es[i] == m[i];
                } else {
                  assert es[i] == init[i] && es[j] == init[j];
                }
              }
            }
            assert m + [last] == es;
            Success(m + [last])
      }
  }

  /** `Dictionary.Keys`, in insertion order. */
  function Keys<V>(es: seq<Entry<V>>): seq<string> {
    seq(|es|, i requires 0 <= i < |es| => es[i].key)
  }

  /** `Keys.OrderBy(x => x)`. */
  function SortedKeys<V>(es: seq<Entry<V>>): (r: seq<string>)
    ensures SortedOrdinal(r)
    ensures multiset(r) == multiset(Keys(es))
  {
    SortOrdinal(Keys(es))
  }
}
