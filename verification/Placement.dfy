/**
  Placing aggregators and clients (`launch_telegraf` of
  `scripts/daap-launch/telegraf_run.sh`, lines 34-82). The random number is a parameter,
  one for each host.
 */
module Placement {

  /** `bc -l` and `printf("%d", x + 0.5)` of `awk`. */
  function Rounded(n: nat): int {
    (n as real / 4.0 + 0.5).Floor
  }

  /** How many hosts become aggregators. */
  function Servers(n: nat): nat {
    if Rounded(n) <= 0 then 1 else Rounded(n)
  }

  lemma RoundedIs(n: nat)
    ensures Rounded(n) == (n + 2) / 4
  {
    var x, k := n as real / 4.0 + 0.5, (n + 2) / 4;
    assert (n + 2) as real == 4.0 * x;
    assert 4 * k <= n + 2 < 4 * (k + 1);
    assert (4 * k) as real <= (n + 2) as real < (4 * (k + 1)) as real;
    assert k as real <= x < (k + 1) as real;
  }

  /** At least one aggregator, never more than hosts, and one for every four hosts but for rounding. */
  lemma ServersBounds(n: nat)
    requires n >= 1
    ensures 1 <= Servers(n) <= n && (n >= 2 ==> -2 <= n - 4 * Servers(n) <= 2)
    ensures n >= 2 ==> Servers(n) == (n + 2) / 4
  {
    RoundedIs(n);
  }

  /** A host and what `/etc/hosts` says about it. */
  datatype Host = Host(name: string, ip: string)

  /** A daemon started on a host: an aggregator, or a client with the number of its configuration. */
  datatype Start = Aggregator(host: string) | Client(host: string, config: nat)

  /** What `awk` makes of the random number: one of the servers there are. */
  function Index(rand: real, servers: nat): int {
    (rand * (servers as real)).Floor
  }

  predicate IsRandom(r: real) {
    0.0 <= r < 1.0
  }

  lemma IndexInRange(r: real, servers: nat)
    requires IsRandom(r) && servers > 0
    ensures 0 <= Index(r, servers) < servers
  {
    var s := servers as real;
    assert 0.0 <= r * s by {
      assert s > 0.0;
    }
    assert r * s < s by {
      assert (1.0 - r) * s > 0.0;
    }
  }

  /** Each server has an equal share of the random numbers: number `k` those from `k / servers` up to `(k + 1) / servers`. */
  lemma IndexIff(r: real, servers: nat, k: nat)
    requires IsRandom(r) && k < servers
    ensures Index(r, servers) == k <==> k as real / servers as real <= r < (k + 1) as real / servers as real
  {
    var s := servers as real;
    QuotientBelow(k as real, s, r);
    QuotientBelow((k + 1) as real, s, r);
  }

  lemma QuotientBelow(a: real, s: real, r: real)
    requires s > 0.0
    ensures a / s <= r <==> a <= r * s
  {
    var q := a / s;
    assert q * s == a;
    if q <= r {
      assert (r - q) * s >= 0.0;
    } else {
      assert (q - r) * s > 0.0;
    }
  }

  /** The address in a client's configuration file, by the number of the file. */
  type Configs = map<nat, string>

  /** All configuration files name the aggregator of their number. */
  predicate Right(configs: Configs, hosts: seq<Host>, servers: nat)
    requires servers <= |hosts|
  {
    forall k | k in configs :: k < servers && configs[k] == hosts[k].ip
  }

  /** The daemon on host `i`. */
  predicate Placed(start: Start, i: nat, hosts: seq<Host>, rands: seq<real>, configs: Configs)
    requires i < |hosts| == |rands|
  {
    var servers := Servers(|hosts|);
    if i < servers then start == Aggregator(hosts[i].name)
    else start.Client? && start.host == hosts[i].name && start.config == Index(rands[i], servers) && start.config in configs
  }

  predicate AllRandom(rands: seq<real>) {
    forall i | 0 <= i < |rands| :: IsRandom(rands[i])
  }

  /**
    The loop over the hosts: each gets one daemon, in order; the first ones are the
    aggregators, and a client's configuration names an aggregator that was started before,
    although the file is written only when the number comes up for the first time.
   */
  method Launch(hosts: seq<Host>, rands: seq<real>) returns (starts: seq<Start>, configs: Configs, pauses: nat)
    requires |rands| == |hosts| && AllRandom(rands)
    ensures |starts| == |hosts| && forall i | 0 <= i < |hosts| :: Placed(starts[i], i, hosts, rands, configs)
    ensures hosts != [] ==> Right(configs, hosts, Servers(|hosts|))
    ensures forall i | 0 <= i < |starts| && starts[i].Client? :: starts[i].config < Servers(|hosts|)
    ensures forall k | k in configs :: exists i | 0 <= i < |starts| :: starts[i] == Client(hosts[i].name, k)
    ensures pauses == if |hosts| > Servers(|hosts|) then 1 else 0
  {
    var numServers := Rounded(|hosts|);
    var servers: seq<string> := [];
    starts, configs, pauses := [], map[], 0;
    if hosts != [] {
      ServersBounds(|hosts|);
    }
    for i := 0 to |hosts|
      invariant numServers == Servers(|hosts|) || (i == 0 && numServers == Rounded(|hosts|))
      invariant |servers| == (if i < Servers(|hosts|) then i else Servers(|hosts|))
      invariant forall k | 0 <= k < |servers| :: servers[k] == hosts[k].ip
      invariant |starts| == i && forall j | 0 <= j < i :: Placed(starts[j], j, hosts, rands, configs)
      invariant forall j | 0 <= j < i && starts[j].Client? :: starts[j].config < Servers(|hosts|)
      invariant hosts != [] ==> Right(configs, hosts, Servers(|hosts|))
      invariant forall k | k in configs :: exists j | 0 <= j < i :: starts[j] == Client(hosts[j].name, k)
      invariant pauses == if i > Servers(|hosts|) then 1 else 0
    {
      RoundedIs(|hosts|);
      var h := hosts[i];
      var serversLen := |servers|;
      if numServers == 0 {
        numServers := 1;
      }
      if serversLen != numServers {
        servers := servers + [h.ip];
        starts := starts + [Aggregator(h.name)];
      } else {
        if pauses == 0 {
          pauses := pauses + 1;
        }
        IndexInRange(rands[i], serversLen);
        var index: nat := Index(rands[i], serversLen);
        var server := servers[index];
        if index !in configs {
          configs := configs[index := server];
        }
        starts := starts + [Client(h.name, index)];
        assert starts[i] == Client(hosts[i].name, index);
      }
    }
  }
}
