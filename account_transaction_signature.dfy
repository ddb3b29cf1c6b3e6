/** AccountTransactionSignature: the submitted signature map, one
    CredentialSignature per credential index. A PHP array is an ordered map,
    modelled as a sequence of key/value pairs whose keys are distinct. */
module TransactionSignature {
  import opened Wrappers

  /** The per-credential entry built from the submitted value; its own
      structure (key index to signature) is not part of this model. */
  datatype CredentialSignature<V> = CredentialSignature(values: V)

  function KeysOf<K, V>(s: seq<(K, V)>): (keys: seq<K>)
    ensures |keys| == |s| && forall i :: 0 <= i < |s| ==> keys[i] == s[i].0
  {
    if s == [] then [] else [s[0].0] + KeysOf(s[1..])
  }

  /** PHP arrays never hold a key twice. */
  predicate DistinctKeys<K(==), V>(s: seq<(K, V)>) {
    forall i, j :: 0 <= i < j < |s| ==> s[i].0 != s[j].0
  }

  /** `$a[$k]`, or null when `$k` is absent. */
  function Lookup<K(==), V>(s: seq<(K, V)>, k: K): (r: Option<V>)
    ensures r.Some? <==> exists i :: 0 <= i < |s| && s[i].0 == k
    ensures r.Some? ==> exists i :: 0 <= i < |s| && s[i] == (k, r.value)
  {
    if s == [] then None
    else if s[0].0 == k then Some(s[0].1)
    else
      var r := Lookup(s[1..], k);
      assert forall i :: 0 < i < |s| ==> s[i] == s[1..][i - 1];
      r
  }

  /** `$a[$k] = $v`: replace the value of an existing key in its place, or
      append a new key at the end. */
  function Put<K(==), V>(s: seq<(K, V)>, k: K, v: V): (r: seq<(K, V)>)
    ensures |r| == |s| || r == s + [(k, v)]
    // every existing key stays in its place
    ensures forall i :: 0 <= i < |s| ==> r[i].0 == s[i].0
    // an existing key is overwritten: the keys are exactly as before
    ensures (exists i :: 0 <= i < |s| && s[i].0 == k) ==> |r| == |s| && KeysOf(r) == KeysOf(s)
    // a new key is appended at the end
    ensures (forall i :: 0 <= i < |s| ==> s[i].0 != k) ==> r == s + [(k, v)]
  {
    if |s| == 0 then [(k, v)]
    else if s[0].0 == k then [(k, v)] + s[1..]
    else
      var r := [s[0]] + Put(s[1..], k, v);
      assert forall i :: 0 < i < |s| ==> s[i] == s[1..][i - 1];
      r
  }

  /** After `$a[$k] = $v`, reading `$k` gives `$v` and every other key reads
      as before. */
  lemma {:induction false} PutLookup<K, V>(s: seq<(K, V)>, k: K, v: V, other: K)
    ensures Lookup(Put(s, k, v), k) == Some(v)
    ensures other != k ==> Lookup(Put(s, k, v), other) == Lookup(s, other)
  {
    if s != [] {
      var r := Put(s, k, v);
      if s[0].0 == k {
        assert r[1..] == s[1..];
      } else {
        assert r[1..] == Put(s[1..], k, v);
        PutLookup(s[1..], k, v, other);
      }
    }
  }

  /** Assignment keeps the keys of a PHP array distinct. */
  lemma PutKeepsDistinct<K, V>(s: seq<(K, V)>, k: K, v: V)
    requires DistinctKeys(s)
    ensures DistinctKeys(Put(s, k, v))
  {
  }

  /** The entries the constructor builds: each submitted value wrapped, under
      its own key, in the submitted order. */
  function Wrapped<K, V>(s: seq<(K, V)>): (r: seq<(K, CredentialSignature<V>)>)
    ensures |r| == |s|
    ensures forall i :: 0 <= i < |s| ==> r[i] == (s[i].0, CredentialSignature(s[i].1))
  {
    if s == [] then [] else [(s[0].0, CredentialSignature(s[0].1))] + Wrapped(s[1..])
  }

  /** The wrapped array has exactly the submitted keys, in order, and keeps
      them distinct. */
  lemma WrappedKeepsKeys<K, V>(s: seq<(K, V)>)
    ensures KeysOf(Wrapped(s)) == KeysOf(s)
    ensures DistinctKeys(s) ==> DistinctKeys(Wrapped(s))
  {
    assert forall i :: 0 <= i < |s| ==> KeysOf(Wrapped(s))[i] == Wrapped(s)[i].0 == s[i].0;
  }

  /** The entry at a key is built from the submitted value at that key, and
      only keys that were submitted are found. */
  lemma {:induction false} WrappedLookup<K, V>(s: seq<(K, V)>, k: K)
    ensures Lookup(Wrapped(s), k) ==
      match Lookup(s, k) case Some(v) => Some(CredentialSignature(v)) case None => None
  {
    if s != [] && s[0].0 != k {
      assert Wrapped(s)[1..] == Wrapped(s[1..]);
      WrappedLookup(s[1..], k);
    }
  }

  function KeySet<K, V>(s: seq<(K, V)>): set<K> {
    if s == [] then {} else {s[0].0} + KeySet(s[1..])
  }

  /** With distinct keys, the number of entries is the number of keys. */
  lemma {:induction false} DistinctKeyCount<K, V>(s: seq<(K, V)>)
    requires DistinctKeys(s)
    ensures |KeySet(s)| == |s|
    ensures forall k :: k in KeySet(s) <==> exists i :: 0 <= i < |s| && s[i].0 == k
  {
    if s != [] {
      DistinctKeyCount(s[1..]);
      assert s[0].0 !in KeySet(s[1..]);
      assert forall i :: 0 < i < |s| ==> s[i] == s[1..][i - 1];
    }
  }

  class AccountTransactionSignature<K(==), V> {
    /** The constructor's argument, kept to state what `data` is. */
    ghost var submitted: seq<(K, V)>
    var data: seq<(K, CredentialSignature<V>)>

    ghost predicate Valid()
      reads this
    {
      DistinctKeys(submitted) && data == Wrapped(submitted)
    }

    /** Wrap every submitted entry, in the order `foreach` visits them. */
    constructor (input: seq<(K, V)>)
      requires DistinctKeys(input)
      ensures Valid() && submitted == input
      ensures data == Wrapped(input)
    {
      submitted := input;
      data := [];
      new;
      var i := 0;
      while i < |input|
        invariant 0 <= i <= |input|
        invariant submitted == input
        invariant data == Wrapped(input[..i])
      {
        assert forall j :: 0 <= j < |data| ==> data[j].0 != input[i].0;
        data := Put(data, input[i].0, CredentialSignature(input[i].1));
        assert input[..i + 1] == input[..i] + [input[i]];
        i := i + 1;
      }
      assert input[..i] == input;
    }

    /** `getData()`: the entries, keyed and ordered as submitted. */
    method GetData() returns (d: seq<(K, CredentialSignature<V>)>)
      requires Valid()
      ensures |d| == |submitted| && KeysOf(d) == KeysOf(submitted)
      ensures forall i :: 0 <= i < |d| ==> d[i].1 == CredentialSignature(submitted[i].1)
      ensures forall k :: Lookup(d, k).Some? <==> Lookup(submitted, k).Some?
    {
      d := data;
      forall k ensures Lookup(d, k).Some? <==> Lookup(submitted, k).Some? {
        WrappedLookup(submitted, k);
      }
      WrappedKeepsKeys(submitted);
    }

    /** `count()`: the number of credentials that signed, one per submitted key. */
    method Count() returns (n: nat)
      requires Valid()
      ensures n == |submitted|
      ensures n == |KeySet(submitted)|
    {
      n := |data|;
      DistinctKeyCount(submitted);
    }
  }
}
