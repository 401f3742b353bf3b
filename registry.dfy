/**
 * First-claim registration of hosts, the shape of the host-server loop of
 * ProcessBaseFolder in pkg/dvconfig/processing.go: servers are visited in order,
 * a server whose host list is empty or starts with an empty name is omitted, and
 * each host is kept by the first server that lists it.
 */
module Registry {

  /** A server is omitted when its host list is empty or its first host is empty. */
  predicate Omitted(hosts: seq<string>) {
    |hosts| == 0 || hosts[0] == ""
  }

  /** Server `s` claims `host`: it is not omitted and lists the host. */
  predicate Claims<S>(hostsOf: S -> seq<string>, s: S, host: string) {
    !Omitted(hostsOf(s)) && host in hostsOf(s)
  }

  /** The hosts of one server added to the map, leaving hosts already present alone. */
  function AddHosts<V>(m: map<string, V>, hosts: seq<string>, v: V): (r: map<string, V>)
    ensures r.Keys == m.Keys + set h | h in hosts
    ensures forall h :: h in m ==> r[h] == m[h]
    ensures forall h :: h in hosts && h !in m ==> r[h] == v
  {
    if |hosts| == 0 then m
    else
      var last := hosts[|hosts| - 1];
      var r := AddHosts(m, hosts[..|hosts| - 1], v);
      assert forall h :: h in hosts <==> h in hosts[..|hosts| - 1] || h == last;
      if last in r then r else r[last := v]
  }

  /** The inner loop of the registration: each host not yet present is mapped to the server's info. */
  method RegisterHosts<V>(m: map<string, V>, hosts: seq<string>, v: V) returns (r: map<string, V>)
    ensures r == AddHosts(m, hosts, v)
  {
    r := m;
    for k := 0 to |hosts|
      invariant r == AddHosts(m, hosts[..k], v)
    {
      AddHostsStep(m, hosts, v, k);
      if hosts[k] in r {
        continue;
      }
      r := r[hosts[k] := v];
    }
    assert hosts[..|hosts|] == hosts;
  }

  /** One more host, for a loop over `hosts` by index: it is added unless already present. */
  lemma AddHostsStep<V>(m: map<string, V>, hosts: seq<string>, v: V, k: nat)
    requires k < |hosts|
    ensures var r := AddHosts(m, hosts[..k], v);
      AddHosts(m, hosts[..k + 1], v) == if hosts[k] in r then r else r[hosts[k] := v]
  {
    assert hosts[..k + 1][..k] == hosts[..k];
  }

  /**
   * The host map the registration loop builds, server by server, where `infoOf(s)`
   * is the info server `s` is registered with: an omitted server adds nothing.
   */
  function Claimed<S, V>(servers: seq<S>, hostsOf: S -> seq<string>, infoOf: S -> V): map<string, V> {
    if |servers| == 0 then map[]
    else
      var s := servers[|servers| - 1];
      var m := Claimed(servers[..|servers| - 1], hostsOf, infoOf);
      if Omitted(hostsOf(s)) then m else AddHosts(m, hostsOf(s), infoOf(s))
  }

  /** One more server, for a loop over `servers` by index: the map grows by its hosts, unless it is omitted. */
  lemma ClaimedStep<S, V>(servers: seq<S>, hostsOf: S -> seq<string>, infoOf: S -> V, i: nat)
    requires i < |servers|
    ensures var s := servers[i];
      Claimed(servers[..i + 1], hostsOf, infoOf)
      == if Omitted(hostsOf(s)) then Claimed(servers[..i], hostsOf, infoOf)
         else AddHosts(Claimed(servers[..i], hostsOf, infoOf), hostsOf(s), infoOf(s))
  {
    assert servers[..i + 1][..i] == servers[..i];
  }

  /** A host is registered exactly when some server claims it. */
  lemma {:induction false} ClaimedHosts<S, V>(servers: seq<S>, hostsOf: S -> seq<string>, infoOf: S -> V, host: string)
    ensures host in Claimed(servers, hostsOf, infoOf) <==> exists j :: 0 <= j < |servers| && Claims(hostsOf, servers[j], host)
    decreases |servers|
  {
    if |servers| > 0 {
      var init := servers[..|servers| - 1];
      var s := servers[|servers| - 1];
      ClaimedHosts(init, hostsOf, infoOf, host);
      assert host in Claimed(servers, hostsOf, infoOf) <==> host in Claimed(init, hostsOf, infoOf) || Claims(hostsOf, s, host);
      if exists j :: 0 <= j < |servers| && Claims(hostsOf, servers[j], host) {
        var j :| 0 <= j < |servers| && Claims(hostsOf, servers[j], host);
        if j < |init| {
          assert init[j] == servers[j];
        }
      }
      if exists j :: 0 <= j < |init| && Claims(hostsOf, init[j], host) {
        var j :| 0 <= j < |init| && Claims(hostsOf, init[j], host);
        assert servers[j] == init[j];
      }
    }
  }

  /** First wins: a host is served with the info of the first server that claims it. */
  lemma {:induction false} ClaimedFirstWins<S, V>(servers: seq<S>, hostsOf: S -> seq<string>, infoOf: S -> V, host: string, j: nat)
    requires j < |servers| && Claims(hostsOf, servers[j], host)
    requires forall i :: 0 <= i < j ==> !Claims(hostsOf, servers[i], host)
    ensures host in Claimed(servers, hostsOf, infoOf) && Claimed(servers, hostsOf, infoOf)[host] == infoOf(servers[j])
    decreases |servers|
  {
    var init := servers[..|servers| - 1];
    if j < |init| {
      assert init[j] == servers[j];
      forall i | 0 <= i < j ensures !Claims(hostsOf, init[i], host) {
        assert init[i] == servers[i];
      }
      ClaimedFirstWins(init, hostsOf, infoOf, host, j);
    } else {
      ClaimedHosts(init, hostsOf, infoOf, host);
    }
  }
}
