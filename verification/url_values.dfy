/**
 * Go's `url.Values`: a map from a key to the list of its values, with `Add`
 * appending and `Set` replacing. A key that is absent reads as the empty list
 * (Go's nil slice). The wire encoding `Encode` is not modelled here: it is an
 * abstract collaborator of the transport.
 */
module UrlValues {

  type Values = map<string, seq<string>>

  /** The values stored under `key`, empty when the key is absent. */
  function Lookup(v: Values, key: string): seq<string>
  {
    if key in v then v[key] else []
  }

  /** `url.Values.Get`: the first value under `key`, or "" when there is none. */
  function Get(v: Values, key: string): (r: string)
    ensures |Lookup(v, key)| > 0 ==> r == Lookup(v, key)[0]
    ensures |Lookup(v, key)| == 0 ==> r == ""
  {
    var vs := Lookup(v, key);
    if |vs| > 0 then vs[0] else ""
  }

  /** `url.Values.Add`: appends `value` after the values already under `key`. */
  function Add(v: Values, key: string, value: string): (r: Values)
    ensures r.Keys == v.Keys + {key}
    ensures Lookup(r, key) == Lookup(v, key) + [value]
    ensures forall k :: k != key ==> Lookup(r, k) == Lookup(v, k)
  {
    v[key := Lookup(v, key) + [value]]
  }

  /** `url.Values.Set`: `value` becomes the one and only value under `key`. */
  function Set(v: Values, key: string, value: string): (r: Values)
    ensures r.Keys == v.Keys + {key}
    ensures Lookup(r, key) == [value]
    ensures forall k :: k != key ==> Lookup(r, k) == Lookup(v, k)
  {
    v[key := [value]]
  }

  /** Two maps with the same keys that agree on every lookup are equal. */
  lemma LookupExtensional(a: Values, b: Values)
    requires a.Keys == b.Keys
    requires forall k :: Lookup(a, k) == Lookup(b, k)
    ensures a == b
  {
    forall k | k in a
      ensures a[k] == b[k]
    {
      assert Lookup(a, k) == Lookup(b, k);
    }
  }

  /** A second `Set` on the same key erases the first: last write wins. */
  lemma SetLastWins(v: Values, key: string, first: string, second: string)
    ensures Set(Set(v, key, first), key, second) == Set(v, key, second)
  {
    LookupExtensional(Set(Set(v, key, first), key, second), Set(v, key, second));
  }

  /** Two `Add`s on the same key keep both values, in call order, after the old ones. */
  lemma AddKeepsBoth(v: Values, key: string, first: string, second: string)
    ensures Lookup(Add(Add(v, key, first), key, second), key)
         == Lookup(v, key) + [first, second]
  {
  }

  /** `Set` after any number of `Add`s leaves exactly the set value. */
  lemma SetAfterAdd(v: Values, key: string, added: string, value: string)
    ensures Set(Add(v, key, added), key, value) == Set(v, key, value)
  {
    LookupExtensional(Set(Add(v, key, added), key, value), Set(v, key, value));
  }

  /** Operations on different keys commute. */
  lemma SetCommutes(v: Values, k1: string, x1: string, k2: string, x2: string)
    requires k1 != k2
    ensures Set(Set(v, k1, x1), k2, x2) == Set(Set(v, k2, x2), k1, x1)
  {
    LookupExtensional(Set(Set(v, k1, x1), k2, x2), Set(Set(v, k2, x2), k1, x1));
  }
}
