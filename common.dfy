/** Value types and JavaScript string/array behaviour shared by the models and services. */
module Common {

  /** A JavaScript value that may be `undefined` or `null`. */
  datatype Option<+T> = None | Some(value: T)

  /** `s.startsWith(prefix)`. */
  predicate StartsWith(s: string, prefix: string) {
    |prefix| <= |s| && s[..|prefix|] == prefix
  }

  /** `s.endsWith(suffix)`. */
  predicate EndsWith(s: string, suffix: string) {
    |suffix| <= |s| && s[|s| - |suffix|..] == suffix
  }

  /** JavaScript truthiness of an optional string: `undefined`, `null` and `""` are falsy. */
  predicate Truthy(s: Option<string>) {
    s.Some? && s.value != ""
  }

  /** `arrayWithout(items, item)`: a new array with every occurrence of `item` removed, order kept. */
  function Without<T(==)>(items: seq<T>, item: T): (r: seq<T>)
    ensures multiset(r) == multiset(items)[item := 0]
    ensures item !in items ==> r == items
  {
    if items == [] then []
    else
      assert items == [items[0]] + items[1..];
      (if items[0] == item then [] else [items[0]]) + Without(items[1..], item)
  }

  /** A single element is kept exactly when it is not the item removed. */
  lemma WithoutSingle<T>(x: T, item: T)
    ensures Without([x], item) == (if x == item then [] else [x])
  {
    assert [x][1..] == [];
  }

  /** Removing an item distributes over concatenation, so the kept elements stay in their order. */
  lemma {:induction false} WithoutAppend<T>(a: seq<T>, b: seq<T>, item: T)
    ensures Without(a + b, item) == Without(a, item) + Without(b, item)
  {
    if a == [] {
      assert a + b == b;
    } else {
      assert (a + b)[1..] == a[1..] + b;
      WithoutAppend(a[1..], b, item);
    }
  }

  /** A router location: a named route with its params and query. */
  datatype RouteLocation = RouteLocation(
    name: string,
    params: map<string, Option<string>>,
    query: map<string, Option<string>>)
}
