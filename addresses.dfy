/** `splitNetworkAndAddress` of client/client.go: a server string is
    `network@address`, or a bare address meaning TCP. */
module Addresses {

  /** The index of the first '@' in `s`, or `|s|` when there is none. */
  function FirstAt(s: string): (i: nat)
    ensures i <= |s|
    ensures i < |s| ==> s[i] == '@'
    ensures forall j :: 0 <= j < i ==> s[j] != '@'
  {
    if s == [] then 0
    else if s[0] == '@' then 0
    else 1 + FirstAt(s[1..])
  }

  /** `splitNetworkAndAddress` (client/client.go:68-75): `strings.SplitN`
      at the first '@' into at most two parts. */
  function SplitNetworkAndAddress(server: string): (r: (string, string))
    ensures '@' !in server ==> r == ("tcp", server)
    ensures '@' in server ==> r.0 + "@" + r.1 == server && '@' !in r.0
  {
    var i := FirstAt(server);
    if i == |server| then ("tcp", server)
    else
      assert server == server[..i] + "@" + server[i + 1..];
      (server[..i], server[i + 1..])
  }

  /** Joining a network without '@' to any address and splitting again gives
      both parts back, even when the address itself contains '@'. */
  lemma SplitJoin(network: string, address: string)
    requires '@' !in network
    ensures SplitNetworkAndAddress(network + "@" + address) == (network, address)
  {
    var server := network + "@" + address;
    assert server[|network|] == '@';
    var i := FirstAt(server);
    assert forall j :: 0 <= j < |network| ==> server[j] == network[j];
    assert i == |network|;
    assert server[..i] == network;
    assert server[i + 1..] == address;
  }
}
