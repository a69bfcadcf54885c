/** Which address a request is charged to (extract_client_ip in rate_limit.rs): the forwarded
    hops are walked from the nearest outward, through trusted proxies only. */
module ClientAddress {
  import opened Wrappers

  /** A canonical address. */
  type Address = nat

  datatype Client = Unknown | Known(address: Address)

  /** How a forwarded entry parses, and which addresses are trusted proxies. */
  datatype Trust = Trust(parse: string -> Option<Address>, trusted: Address -> bool)

  /** The hop is a trusted proxy, so the walk goes past it. */
  predicate Passes(t: Trust, entry: string) {
    t.parse(entry).Some? && t.trusted(t.parse(entry).value)
  }

  ghost predicate AllPass(t: Trust, hops: seq<string>, from: nat) {
    forall i :: from <= i < |hops| ==> Passes(t, hops[i])
  }

  /** The walk went through all hops from `from` on and no further: either the list ends
      there, or the hop before is unparsable, or it is the untrusted client itself. */
  ghost predicate WalkEnds(t: Trust, hops: seq<string>, peer: Address, from: nat, client: Address) {
    && from <= |hops|
    && AllPass(t, hops, from)
    && if from > 0 && t.parse(hops[from - 1]).Some? then
         !t.trusted(t.parse(hops[from - 1]).value) && client == t.parse(hops[from - 1]).value
       else
         client == if from < |hops| then t.parse(hops[from]).value else peer
  }

  ghost predicate IsClient(t: Trust, hops: seq<string>, peer: Address, client: Address) {
    exists from :: WalkEnds(t, hops, peer, from, client)
  }

  method ExtractClientIp(t: Trust, peer: Option<Address>, hops: seq<string>, realIp: Option<Address>)
    returns (r: Client, ghost from: nat)
    ensures r.Unknown? <==> peer.None?
    ensures peer.Some? && !t.trusted(peer.value) ==> r == Known(peer.value)
    ensures peer.Some? && t.trusted(peer.value) && hops == [] ==>
              r == Known(if realIp.Some? then realIp.value else peer.value)
    ensures peer.Some? && t.trusted(peer.value) && hops != [] ==> WalkEnds(t, hops, peer.value, from, r.address)
  {
    from := |hops|;
    if peer.None? {
      return Unknown, from;
    }
    if !t.trusted(peer.value) {
      return Known(peer.value), from;
    }
    if hops == [] {
      return Known(if realIp.Some? then realIp.value else peer.value), from;
    }
    var client := peer.value;
    var i := |hops|;
    while i > 0
      invariant 0 <= i <= |hops| && from == i
      invariant AllPass(t, hops, i)
      invariant client == if i < |hops| then t.parse(hops[i]).value else peer.value
    {
      i := i - 1;
      var ip := t.parse(hops[i]);
      if ip.None? {
        break;
      }
      client := ip.value;
      if !t.trusted(client) {
        break;
      }
      from := i;
    }
    r := Known(client);
  }

  /** The walk has one outcome. */
  lemma ClientIsUnique(t: Trust, hops: seq<string>, peer: Address, i: nat, j: nat, a: Address, b: Address)
    requires WalkEnds(t, hops, peer, i, a) && WalkEnds(t, hops, peer, j, b)
    ensures i == j && a == b
  {
    assert i == 0 || !Passes(t, hops[i - 1]);
    assert j == 0 || !Passes(t, hops[j - 1]);
  }

  /** What stands left of the point where the walk stopped changes nothing: a client cannot
      move itself by prepending entries. */
  lemma PrependingChangesNothing(t: Trust, hops: seq<string>, peer: Address, from: nat, client: Address,
      prefix: seq<string>)
    requires WalkEnds(t, hops, peer, from, client) && from > 0
    ensures WalkEnds(t, prefix + hops, peer, |prefix| + from, client)
  {
    var all := prefix + hops;
    forall i | |prefix| + from <= i < |all| ensures Passes(t, all[i]) {
      assert all[i] == hops[i - |prefix|];
    }
    assert all[|prefix| + from - 1] == hops[from - 1];
    assert from < |hops| ==> all[|prefix| + from] == hops[from];
  }

  /** The stop is what protects: when every hop passes, one more parsable entry in front is
      the new client.  So the outcome is safe from prepending exactly when some hop does not pass. */
  lemma UnstoppedWalkFollowsPrefix(t: Trust, hops: seq<string>, peer: Address, entry: string)
    requires AllPass(t, hops, 0) && t.parse(entry).Some?
    ensures IsClient(t, [entry] + hops, peer, t.parse(entry).value)
  {
    var all := [entry] + hops;
    var from := if t.trusted(t.parse(entry).value) then 0 else 1;
    forall i | from <= i < |all| ensures Passes(t, all[i]) {
      if i > 0 {
        assert all[i] == hops[i - 1];
      }
    }
    assert WalkEnds(t, all, peer, from, t.parse(entry).value);
  }

  /** The client is the rightmost hop that is untrusted, when every hop right of it passes. */
  lemma RightmostUntrusted(t: Trust, hops: seq<string>, peer: Address, k: nat)
    requires k < |hops| && AllPass(t, hops, k + 1)
    requires t.parse(hops[k]).Some? && !t.trusted(t.parse(hops[k]).value)
    ensures forall client :: IsClient(t, hops, peer, client) <==> client == t.parse(hops[k]).value
  {
    var a := t.parse(hops[k]).value;
    assert WalkEnds(t, hops, peer, k + 1, a);
    forall client | IsClient(t, hops, peer, client) ensures client == a {
      var from :| WalkEnds(t, hops, peer, from, client);
      ClientIsUnique(t, hops, peer, from, k + 1, client, a);
    }
  }
}
