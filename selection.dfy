/** The random server selector of client/Selector.go. The random index is a
    nondeterministic choice: nothing is assumed about its distribution. */
module Selection {

  /** The only select mode (`RandomSelect`, the first `iota` value). */
  const RandomSelect: int := 0

  datatype RandomSelector = RandomSelector(servers: seq<string>)

  /** `newRandomSelect` (client/Selector.go:27-29). */
  function NewRandomSelect(servers: seq<string>): (s: RandomSelector)
    ensures s.servers == servers
  {
    RandomSelector(servers)
  }

  /** `newSelector` (client/Selector.go:18-25): every mode, known or not,
      yields a random selector over exactly `servers`. */
  function NewSelector(mode: int, servers: seq<string>): (s: RandomSelector)
    ensures s.servers == servers
  {
    if mode == RandomSelect then NewRandomSelect(servers) else NewRandomSelect(servers)
  }

  /** `newRandomSelector` (client/Selector.go:36-43): the keys of `servers`,
      each once, in the map's (unspecified) iteration order. */
  method NewRandomSelector(servers: map<string, string>) returns (s: RandomSelector)
    ensures |s.servers| == |servers|
    ensures forall k :: k in s.servers <==> k in servers
    ensures forall i, j :: 0 <= i < j < |s.servers| ==> s.servers[i] != s.servers[j]
  {
    var ss: seq<string> := [];
    var remaining := servers.Keys;
    while remaining != {}
      invariant remaining <= servers.Keys
      invariant forall k :: k in ss <==> k in servers && k !in remaining
      invariant forall i, j :: 0 <= i < j < |ss| ==> ss[i] != ss[j]
      invariant |ss| + |remaining| == |servers.Keys|
      decreases remaining
    {
      var k :| k in remaining;
      ss := ss + [k];
      remaining := remaining - {k};
    }
    s := NewRandomSelect(ss);
  }

  /** `randomSelector.Select` (client/Selector.go:44-50): "" for an empty
      list, otherwise an element of the list at some index. */
  method Select(s: RandomSelector) returns (server: string)
    ensures s.servers == [] ==> server == ""
    ensures s.servers != [] ==> server in s.servers
  {
    var ss := s.servers;
    if |ss| == 0 {
      return "";
    }
    var i :| 0 <= i < |ss|;
    return ss[i];
  }
}
