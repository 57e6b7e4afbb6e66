/** A JavaScript `Map` whose every value carries its own key (a room keyed by
    its id, a participant by its id, a dashboard room by its code, an event
    stream by its client id). Such a Map is modelled as the sequence of its
    values in insertion order together with the function that reads the key
    off a value. `Set` on an existing key keeps the entry's position, as
    `Map.prototype.set` does; `Delete` removes the one entry. */
module Keyed {
  import opened Common

  /** No two entries share a key. */
  ghost predicate UniqueKeys<T>(s: seq<T>, key: T -> string) {
    forall i, j :: 0 <= i < j < |s| ==> key(s[i]) != key(s[j])
  }

  /** Position of the first entry with key `k`, or -1. */
  function IndexOf<T>(s: seq<T>, key: T -> string, k: string): (r: int)
    ensures -1 <= r < |s|
    ensures r >= 0 ==> key(s[r]) == k
    ensures r >= 0 ==> forall i :: 0 <= i < r ==> key(s[i]) != k
    ensures r == -1 ==> forall i :: 0 <= i < |s| ==> key(s[i]) != k
  {
    if |s| == 0 then -1
    else if key(s[0]) == k then 0
    else
      var r := IndexOf(s[1..], key, k);
      if r == -1 then -1 else r + 1
  }

  /** The first position holding `k` is what `IndexOf` finds. */
  lemma IndexOfIs<T>(s: seq<T>, key: T -> string, k: string, j: int)
    requires 0 <= j < |s| && key(s[j]) == k
    requires forall l :: 0 <= l < j ==> key(s[l]) != k
    ensures IndexOf(s, key, k) == j
  {
  }

  /** `map.has(k)` */
  predicate Has<T>(s: seq<T>, key: T -> string, k: string) {
    IndexOf(s, key, k) >= 0
  }

  /** `map.get(k)` */
  function Get<T>(s: seq<T>, key: T -> string, k: string): (r: Option<T>)
    ensures r.Some? <==> Has(s, key, k)
    ensures r.Some? ==> key(r.value) == k && r.value in s
  {
    var i := IndexOf(s, key, k);
    if i < 0 then None else Some(s[i])
  }

  /** With unique keys, the entry found for `k` is the one at any position holding `k`. */
  lemma GetAt<T>(s: seq<T>, key: T -> string, i: int)
    requires UniqueKeys(s, key)
    requires 0 <= i < |s|
    ensures IndexOf(s, key, key(s[i])) == i
    ensures Get(s, key, key(s[i])) == Some(s[i])
  {
  }

  /** `map.set(key(x), x)`: replaces the entry in place, or appends. */
  function Set<T>(s: seq<T>, key: T -> string, x: T): (r: seq<T>)
    ensures Has(s, key, key(x)) ==> |r| == |s|
    ensures !Has(s, key, key(x)) ==> r == s + [x]
  {
    var i := IndexOf(s, key, key(x));
    if i < 0 then s + [x] else s[i := x]
  }

  /** `map.delete(k)`: removes the entry with key `k`, if any. */
  function Delete<T>(s: seq<T>, key: T -> string, k: string): (r: seq<T>)
    ensures !Has(s, key, k) ==> r == s
    ensures Has(s, key, k) ==> |r| == |s| - 1
  {
    var i := IndexOf(s, key, k);
    if i < 0 then s else s[..i] + s[i + 1..]
  }

  /** After `set`, the key maps to the new value and every other key is as before. */
  lemma SetGet<T>(s: seq<T>, key: T -> string, x: T)
    ensures Get(Set(s, key, x), key, key(x)) == Some(x)
    ensures forall k :: k != key(x) ==> Get(Set(s, key, x), key, k) == Get(s, key, k)
  {
    var r := Set(s, key, x);
    var i := IndexOf(s, key, key(x));
    forall k | k != key(x)
      ensures Get(r, key, k) == Get(s, key, k)
    {
      var j := IndexOf(s, key, k);
      if j >= 0 {
        assert r[j] == s[j];
        IndexOfIs(r, key, k, j);
      } else {
        assert IndexOf(r, key, k) == -1;
      }
    }
    if i >= 0 {
      IndexOfIs(r, key, key(x), i);
    } else {
      IndexOfIs(r, key, key(x), |s|);
    }
  }

  /** Setting an entry to what the map already holds changes nothing. */
  lemma SetUnchanged<T>(s: seq<T>, key: T -> string, k: string)
    requires Has(s, key, k)
    ensures Set(s, key, Get(s, key, k).value) == s
  {
    var i := IndexOf(s, key, k);
    assert s[i := s[i]] == s;
  }

  /** `set` keeps keys unique. */
  lemma SetSpec<T>(s: seq<T>, key: T -> string, x: T)
    requires UniqueKeys(s, key)
    ensures UniqueKeys(Set(s, key, x), key)
    ensures Get(Set(s, key, x), key, key(x)) == Some(x)
    ensures forall k :: k != key(x) ==> Get(Set(s, key, x), key, k) == Get(s, key, k)
  {
    SetGet(s, key, x);
  }

  /** After `delete`, every other key is as before. */
  lemma DeleteGet<T>(s: seq<T>, key: T -> string, k: string)
    ensures forall k' :: k' != k ==> Get(Delete(s, key, k), key, k') == Get(s, key, k')
  {
    var r := Delete(s, key, k);
    var i := IndexOf(s, key, k);
    if i >= 0 {
      assert forall j :: 0 <= j < |r| ==> r[j] == if j < i then s[j] else s[j + 1];
      forall k' | k' != k
        ensures Get(r, key, k') == Get(s, key, k')
      {
        var j := IndexOf(s, key, k');
        if j >= 0 {
          if j < i {
            IndexOfIs(r, key, k', j);
          } else {
            IndexOfIs(r, key, k', j - 1);
          }
        } else {
          assert IndexOf(r, key, k') == -1;
        }
      }
    }
  }

  /** The entries after `delete`: those before the removed one, then those after it. */
  lemma {:induction false} DeleteShape<T>(s: seq<T>, key: T -> string, k: string)
    requires Has(s, key, k)
    ensures var i := IndexOf(s, key, k);
      forall j :: 0 <= j < |Delete(s, key, k)| ==> Delete(s, key, k)[j] == if j < i then s[j] else s[j + 1]
  {
  }

  /** With unique keys, `delete` removes the key altogether and keys stay unique. */
  lemma {:induction false} DeleteSpec<T>(s: seq<T>, key: T -> string, k: string)
    requires UniqueKeys(s, key)
    ensures UniqueKeys(Delete(s, key, k), key)
    ensures !Has(Delete(s, key, k), key, k)
    ensures forall k' :: k' != k ==> Get(Delete(s, key, k), key, k') == Get(s, key, k')
  {
    DeleteGet(s, key, k);
    var i := IndexOf(s, key, k);
    if i >= 0 {
      var r := Delete(s, key, k);
      DeleteShape(s, key, k);
      forall a, b | 0 <= a < b < |r|
        ensures key(r[a]) != key(r[b])
      {
        var a', b' := if a < i then a else a + 1, if b < i then b else b + 1;
        assert r[a] == s[a'] && r[b] == s[b'] && a' < b';
      }
      forall j | 0 <= j < |r|
        ensures key(r[j]) != k
      {
        var j' := if j < i then j else j + 1;
        assert r[j] == s[j'] && j' != i;
      }
    }
  }
}
