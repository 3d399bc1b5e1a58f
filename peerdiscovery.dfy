/** The fixed, single-server discovery of client/Peer2PeerDiscovery.go. */
module PeerDiscovery {
  import opened Base
  import opened Discovery
  import opened Selection

  datatype Peer2PeerDiscovery = Peer2PeerDiscovery(server: string)

  /** `NewPeer2PeerDiscovery` (client/Peer2PeerDiscovery.go:10-12): never an
      error; the error result is `None` for Go's nil. */
  function NewPeer2PeerDiscovery(server: string): (r: (Peer2PeerDiscovery, Option<string>))
    ensures r.0.server == server && r.1 == None
  {
    (Peer2PeerDiscovery(server), None)
  }

  /** `GetServices` (client/Peer2PeerDiscovery.go:15-22). */
  function GetServices(d: Peer2PeerDiscovery): (kv: seq<KVPair>)
    ensures |kv| == 1 && kv[0].key == d.server && kv[0].value == ""
  {
    [KVPair(d.server, "")]
  }

  /** The discovery reports one service: the configured server, with an
      empty value; as a map it binds just that server. */
  lemma ServicesAreTheServer(server: string)
    ensures var kv := GetServices(NewPeer2PeerDiscovery(server).0);
      && KeyList(kv) == [server]
      && ValueList(kv) == [""]
  {
  }

  /** A selector built from the discovery's key list always picks the
      configured server. */
  method SelectPeer(server: string) returns (picked: string)
    ensures picked == server
  {
    var (d, _) := NewPeer2PeerDiscovery(server);
    var sel := NewRandomSelect(KeyList(GetServices(d)));
    picked := Select(sel);
  }

  /** A selector built, as written, from `Keys()` of the same discovery holds
      a blank server beside the real one, so it may pick "". */
  method SelectPeerAsWritten(server: string) returns (sel: RandomSelector)
    ensures sel.servers == ["", server]
    ensures "" in sel.servers
  {
    var (d, _) := NewPeer2PeerDiscovery(server);
    var keys := Keys(GetServices(d));
    assert keys == keys[..1] + keys[1..];
    sel := NewRandomSelect(keys);
  }

  /** As a map, the discovery binds exactly the configured server to "". */
  method ServicesAsMap(server: string) returns (m: map<string, string>)
    ensures m == map[server := ""]
  {
    var (d, _) := NewPeer2PeerDiscovery(server);
    m := ToMap(GetServices(d));
    assert GetServices(d)[0].key == server;
  }
}
