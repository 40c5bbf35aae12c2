/** Small datatypes and sequence helpers shared by the modules of the model. */
module Common {

  datatype Option<+T> = None | Some(value: T)

  datatype Result<+T, +E> = Ok(value: T) | Err(error: E)

  /** One byte of a Python `bytes` object. */
  newtype byte = x: int | 0 <= x < 256

  /** No element occurs twice: the key order of a Python dict. */
  predicate Distinct<T(==)>(s: seq<T>)
  {
    forall i, j :: 0 <= i < j < |s| ==> s[i] != s[j]
  }

  /** `s` lists exactly the keys of `m`, each once, as a dict's iteration order does. */
  predicate OrdersKeys<K, V>(s: seq<K>, m: map<K, V>)
  {
    Distinct(s) && (forall i :: 0 <= i < |s| ==> s[i] in m) && (forall k :: k in m ==> k in s)
  }

  /** `s` with every occurrence of `x` removed (deleting a key from a dict keeps the others in order). */
  function Without<T(==,!new)>(s: seq<T>, x: T): (r: seq<T>)
    ensures forall y :: y in r <==> y in s && y != x
    ensures Distinct(s) ==> Distinct(r)
    ensures x !in s ==> r == s
    ensures |r| <= |s|
  {
    if s == [] then []
    else if s[0] == x then Without(s[1..], x)
    else
      var rest := Without(s[1..], x);
      assert Distinct(s) ==> s[0] !in rest;
      [s[0]] + rest
  }

  /** A key order is exactly as long as the map it orders. */
  lemma {:induction false} OrderLength<K, V>(s: seq<K>, m: map<K, V>)
    requires OrdersKeys(s, m)
    ensures |s| == |m|
  {
    if s == [] {
      assert m.Keys == {};
    } else {
      var k := s[0];
      var m' := map k' | k' in m && k' != k :: m[k'];
      assert m'.Keys == m.Keys - {k};
      assert OrdersKeys(s[1..], m') by {
        forall k' ensures k' in s[1..] <==> k' in m' {
          if k' in s[1..] {
            var i :| 1 <= i < |s| && s[i] == k';
            assert s[i] != s[0];
          }
          if k' in m' {
            assert k' in s && k' != s[0];
            var i :| 0 <= i < |s| && s[i] == k';
            assert s[1..][i - 1] == k';
          }
        }
      }
      OrderLength(s[1..], m');
    }
  }
}
