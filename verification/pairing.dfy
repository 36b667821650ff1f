/**
  `dict(zip(keys, values))` on two token lists of equal length: the pairs are
  inserted left to right, so when a key repeats, its last value wins.
 */
module Pairing {

  /** No later position repeats the key at position `i`. */
  predicate LastOccurrence(keys: seq<string>, i: nat)
    requires i < |keys|
  {
    forall j :: i < j < |keys| ==> keys[j] != keys[i]
  }

  /** No key occurs twice. */
  predicate Distinct(keys: seq<string>) {
    forall i, j :: 0 <= i < j < |keys| ==> keys[i] != keys[j]
  }

  /** The map built from the pairs `(keys[i], values[i])`. */
  function ZipMap(keys: seq<string>, values: seq<string>): (m: map<string, string>)
    requires |keys| == |values|
    ensures forall k :: k in m <==> k in keys
    ensures forall i :: 0 <= i < |keys| && LastOccurrence(keys, i) ==> m[keys[i]] == values[i]
    decreases |keys|
  {
    if |keys| == 0 then map[]
    else
      var n := |keys| - 1;
      var prefix := ZipMap(keys[..n], values[..n]);
      assert keys == keys[..n] + [keys[n]];
      assert forall i :: 0 <= i < n && LastOccurrence(keys, i) ==> LastOccurrence(keys[..n], i) && keys[i] != keys[n];
      prefix[keys[n] := values[n]]
  }

  /** With distinct keys every pair survives and the map has one entry per
      pair. */
  lemma {:induction false} ZipMapDistinct(keys: seq<string>, values: seq<string>)
    requires |keys| == |values|
    requires Distinct(keys)
    ensures forall i :: 0 <= i < |keys| ==> ZipMap(keys, values)[keys[i]] == values[i]
    ensures |ZipMap(keys, values)| == |keys|
    decreases |keys|
  {
    if |keys| > 0 {
      var n := |keys| - 1;
      ZipMapDistinct(keys[..n], values[..n]);
      assert keys[n] !in keys[..n];
      assert keys[n] !in ZipMap(keys[..n], values[..n]);
    }
  }

  /** Each value of the map is the value paired with the last occurrence of
      its key. */
  lemma {:induction false} ZipMapValues(keys: seq<string>, values: seq<string>, k: string)
    requires |keys| == |values|
    requires k in keys
    ensures exists i :: 0 <= i < |keys| && keys[i] == k && LastOccurrence(keys, i) && ZipMap(keys, values)[k] == values[i]
    decreases |keys|
  {
    var n := |keys| - 1;
    if keys[n] == k {
      assert LastOccurrence(keys, n);
    } else {
      assert keys == keys[..n] + [keys[n]];
      ZipMapValues(keys[..n], values[..n], k);
      var i :| 0 <= i < n && keys[..n][i] == k && LastOccurrence(keys[..n], i) && ZipMap(keys[..n], values[..n])[k] == values[..n][i];
      assert LastOccurrence(keys, i);
    }
  }

  /** A repeated label key: the later value replaces the earlier one. */
  lemma ZipMapLastWins()
    ensures ZipMap(["app", "app"], ["a", "b"]) == map["app" := "b"]
  {
  }
}
