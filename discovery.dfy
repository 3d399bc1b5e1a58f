/** The key/value pairs a service discovery returns (client/discovery.go)
    and the three ways the client flattens them. */
module Discovery {

  datatype KVPair = KVPair(key: string, value: string)

  /** `n` empty strings: what `make([]string, n)` holds before any append. */
  function Blanks(n: nat): (r: seq<string>)
    ensures |r| == n && forall i :: 0 <= i < n ==> r[i] == ""
  {
    seq(n, _ => "")
  }

  /** The keys of `kv`, one per pair, in order. */
  function KeyList(kv: seq<KVPair>): (keys: seq<string>)
    ensures |keys| == |kv|
    ensures forall i :: 0 <= i < |kv| ==> keys[i] == kv[i].key
  {
    if kv == [] then [] else KeyList(kv[..|kv| - 1]) + [kv[|kv| - 1].key]
  }

  /** The values of `kv`, one per pair, in order. */
  function ValueList(kv: seq<KVPair>): (values: seq<string>)
    ensures |values| == |kv|
    ensures forall i :: 0 <= i < |kv| ==> values[i] == kv[i].value
  {
    if kv == [] then [] else ValueList(kv[..|kv| - 1]) + [kv[|kv| - 1].value]
  }

  /** `KVPairs.ToMap` (client/discovery.go:14-20): every key of `kv` and no
      other, each bound to the value of the last pair carrying it. */
  method ToMap(kv: seq<KVPair>) returns (result: map<string, string>)
    ensures forall k :: k in result <==> exists i :: 0 <= i < |kv| && kv[i].key == k
    ensures forall i :: 0 <= i < |kv| && (forall j :: i < j < |kv| ==> kv[j].key != kv[i].key) ==>
      result[kv[i].key] == kv[i].value
  {
    result := map[];
    var n := 0;
    while n < |kv|
      invariant 0 <= n <= |kv|
      invariant forall k :: k in result <==> exists i :: 0 <= i < n && kv[i].key == k
      invariant forall i :: 0 <= i < n && (forall j :: i < j < n ==> kv[j].key != kv[i].key) ==>
        result[kv[i].key] == kv[i].value
    {
      result := result[kv[n].key := kv[n].value];
      n := n + 1;
    }
  }

  /** `KVPairs.Keys` as written (client/discovery.go:22-28): the slice is
      created with length `len(kv)` and the keys are appended after it, so
      the result is `len(kv)` empty strings followed by the keys. */
  method Keys(kv: seq<KVPair>) returns (result: seq<string>)
    ensures |result| == 2 * |kv|
    ensures result[..|kv|] == Blanks(|kv|)
    ensures result[|kv|..] == KeyList(kv)
  {
    result := Blanks(|kv|);
    var n := 0;
    while n < |kv|
      invariant 0 <= n <= |kv|
      invariant result == Blanks(|kv|) + KeyList(kv[..n])
    {
      assert kv[..n + 1][..n] == kv[..n];
      result := result + [kv[n].key];
      n := n + 1;
    }
    assert kv[..n] == kv;
  }

  /** `KVPairs.Values` as written (client/discovery.go:30-36): `len(kv)`
      empty strings followed by the values. */
  method Values(kv: seq<KVPair>) returns (result: seq<string>)
    ensures |result| == 2 * |kv|
    ensures result[..|kv|] == Blanks(|kv|)
    ensures result[|kv|..] == ValueList(kv)
  {
    result := Blanks(|kv|);
    var n := 0;
    while n < |kv|
      invariant 0 <= n <= |kv|
      invariant result == Blanks(|kv|) + ValueList(kv[..n])
    {
      assert kv[..n + 1][..n] == kv[..n];
      result := result + [kv[n].value];
      n := n + 1;
    }
    assert kv[..n] == kv;
  }

  /** For one pair, `Keys` yields a blank entry in front of the key, where
      the key list has the key alone. */
  method KeysOfOnePair(server: string) returns (keys: seq<string>)
    ensures keys == ["", server]
    ensures keys != KeyList([KVPair(server, "")])
  {
    keys := Keys([KVPair(server, "")]);
    assert keys == keys[..1] + keys[1..];
  }

  /** For one pair, `Values` yields a blank entry in front of the value. */
  method ValuesOfOnePair(value: string) returns (values: seq<string>)
    ensures values == ["", value]
    ensures values != ValueList([KVPair("", value)])
  {
    values := Values([KVPair("", value)]);
    assert values == values[..1] + values[1..];
  }
}
