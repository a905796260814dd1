/**
 * Toggle-by-key selection lists, as the confirmation stages keep them: ICD
 * entries keyed by `code`, basket items by `code`, medications by the pair
 * (medicine name, active ingredient). A toggle removes every element with the
 * item's key when there is one, and otherwise appends the item at the end.
 */
module Selection {
  import opened Seqs

  /** Some element of `s` has key `k` (`s.some(x => key(x) === k)`). */
  predicate HasKey<T(!new), K(==,!new)>(s: seq<T>, k: K, key: T -> K) {
    exists i :: 0 <= i < |s| && key(s[i]) == k
  }

  /** `s.filter(x => key(x) !== k)`. */
  function RemoveKey<T(!new), K(==,!new)>(s: seq<T>, k: K, key: T -> K): (r: seq<T>)
    ensures !HasKey(r, k, key)
    ensures forall x :: x in r <==> x in s && key(x) != k
  {
    FilterKeyMember(s, k, key);
    Filter(s, x => key(x) != k)
  }

  /** The toggle of the selection stages. */
  function Toggle<T(!new), K(==,!new)>(s: seq<T>, item: T, key: T -> K): (r: seq<T>)
    ensures HasKey(r, key(item), key) <==> !HasKey(s, key(item), key)
    ensures forall k :: k != key(item) ==> (HasKey(r, k, key) <==> HasKey(s, k, key))
  {
    if HasKey(s, key(item), key) then RemoveKey(s, key(item), key)
    else
      assert forall k :: HasKey(s + [item], k, key) <==> HasKey(s, k, key) || k == key(item) by {
        forall k ensures HasKey(s + [item], k, key) ==> HasKey(s, k, key) || k == key(item) {
          if HasKey(s + [item], k, key) {
            var i :| 0 <= i < |s| + 1 && key((s + [item])[i]) == k;
            if i < |s| { assert key(s[i]) == k; }
          }
        }
        forall k | HasKey(s, k, key) ensures HasKey(s + [item], k, key) {
          var i :| 0 <= i < |s| && key(s[i]) == k;
          assert key((s + [item])[i]) == k;
        }
        assert key((s + [item])[|s|]) == key(item);
      }
      s + [item]
  }

  /** No two elements share a key. */
  predicate DistinctKeys<T(!new), K(==,!new)>(s: seq<T>, key: T -> K) {
    forall i, j :: 0 <= i < j < |s| ==> key(s[i]) != key(s[j])
  }

  lemma FilterKeyMember<T(!new), K(!new)>(s: seq<T>, k: K, key: T -> K)
    ensures forall x :: x in Filter(s, x => key(x) != k) <==> x in s && key(x) != k
  {
    forall x ensures x in Filter(s, x => key(x) != k) <==> x in s && key(x) != k {
      FilterMember(s, x => key(x) != k, x);
    }
  }

  /** Removing a key that no element has changes nothing. */
  lemma {:induction false} RemoveAbsentKey<T(!new), K(!new)>(s: seq<T>, k: K, key: T -> K)
    requires !HasKey(s, k, key)
    ensures RemoveKey(s, k, key) == s
  {
    FilterAllMatch(s, x => key(x) != k);
  }

  /** Toggling the same item twice, starting without its key, restores the list and its order. */
  lemma {:induction false} ToggleTwice<T(!new), K(!new)>(s: seq<T>, item: T, key: T -> K)
    requires !HasKey(s, key(item), key)
    ensures Toggle(Toggle(s, item, key), item, key) == s
  {
    var s1 := s + [item];
    assert Toggle(s, item, key) == s1;
    assert key(s1[|s|]) == key(item);
    assert s1[..|s1| - 1] == s;
    RemoveAbsentKey(s, key(item), key);
  }

  /** Toggling keeps the keys of a selection distinct. */
  lemma {:induction false} ToggleKeepsKeysDistinct<T(!new), K(!new)>(s: seq<T>, item: T, key: T -> K)
    requires DistinctKeys(s, key)
    ensures DistinctKeys(Toggle(s, item, key), key)
  {
    var k := key(item);
    if HasKey(s, k, key) {
      FilterIsSubseq(s, x => key(x) != k);
      SubseqKeysDistinct(RemoveKey(s, k, key), s, key);
    } else {
      var r := s + [item];
      forall i, j | 0 <= i < j < |r| ensures key(r[i]) != key(r[j]) {
        if j == |s| {
          assert key(s[i]) != k;
        }
      }
    }
  }

  lemma {:induction false} SubseqKeysDistinct<T(!new), K(!new)>(a: seq<T>, b: seq<T>, key: T -> K)
    requires IsSubseq(a, b) && DistinctKeys(b, key)
    ensures DistinctKeys(a, key)
    ensures forall i :: 0 <= i < |a| ==> HasKey(b, key(a[i]), key)
    decreases |b|
  {
    if a != [] {
      var a', b' := a[..|a| - 1], b[..|b| - 1];
      assert DistinctKeys(b', key);
      if a[|a| - 1] == b[|b| - 1] {
        SubseqKeysDistinct(a', b', key);
        forall i | 0 <= i < |a| ensures HasKey(b, key(a[i]), key) {
          if i < |a| - 1 {
            assert a[i] == a'[i];
            var j :| 0 <= j < |b'| && key(b'[j]) == key(a'[i]);
            assert key(b[j]) == key(a[i]);
          } else {
            assert key(b[|b| - 1]) == key(a[i]);
          }
        }
        forall i, j | 0 <= i < j < |a| ensures key(a[i]) != key(a[j]) {
          if j == |a| - 1 {
            assert a[i] == a'[i];
            var m :| 0 <= m < |b'| && key(b'[m]) == key(a'[i]);
            assert key(b[m]) == key(a[i]) && m < |b| - 1;
          } else {
            assert a[i] == a'[i] && a[j] == a'[j];
          }
        }
      } else {
        SubseqKeysDistinct(a, b', key);
        forall i | 0 <= i < |a| ensures HasKey(b, key(a[i]), key) {
          var j :| 0 <= j < |b'| && key(b'[j]) == key(a[i]);
          assert key(b[j]) == key(a[i]);
        }
      }
    }
  }
}
