/**
 What the routes of a logical device should be: for every NNI port and every UNI port, in both directions, the two hops
 joined by the PON link of the ONU.
 */
module RouteSpec {
  import opened Voltha

  datatype Hop = Hop(deviceId: string, ingress: uint32, egress: uint32)

  datatype PathID = PathID(ingress: uint32, egress: uint32)

  type Routes = map<PathID, seq<Hop>>

  /** The PON link of an ONU: its own PON port and the OLT port at the other end. */
  datatype Link = Link(ponPort: uint32, oltPort: uint32)

  /** The physical tree below one OLT. */
  datatype Topology = Topology(root: string, links: map<string, Link>)

  // Reversing a route

  function ReverseHop(h: Hop): Hop {
    Hop(h.deviceId, h.egress, h.ingress)
  }

  function Reverse(route: seq<Hop>): (r: seq<Hop>)
    ensures |r| == |route|
    ensures forall i | 0 <= i < |r| :: r[i] == ReverseHop(route[|route| - 1 - i])
  {
    seq(|route|, i requires 0 <= i < |route| => ReverseHop(route[|route| - 1 - i]))
  }

  lemma ReverseInvolution(route: seq<Hop>)
    ensures Reverse(Reverse(route)) == route
  {
  }

  // The routes of a set of NNI and UNI pairs

  /** An NNI port and a UNI port. */
  datatype Pair = Pair(nni: LogicalPort, uni: LogicalPort)

  predicate Fits(t: Topology, p: Pair) {
    && p.nni.rootPort && p.nni.deviceId == t.root
    && !p.uni.rootPort && p.uni.deviceId in t.links
  }

  function Down(p: Pair): PathID {
    PathID(p.nni.portNo, p.uni.portNo)
  }

  function Up(p: Pair): PathID {
    PathID(p.uni.portNo, p.nni.portNo)
  }

  function RouteDown(t: Topology, p: Pair): seq<Hop>
    requires Fits(t, p)
  {
    var link := t.links[p.uni.deviceId];
    [Hop(t.root, p.nni.devicePortNo, link.oltPort), Hop(p.uni.deviceId, link.ponPort, p.uni.devicePortNo)]
  }

  function RouteUp(t: Topology, p: Pair): seq<Hop>
    requires Fits(t, p)
  {
    var link := t.links[p.uni.deviceId];
    [Hop(p.uni.deviceId, p.uni.devicePortNo, link.ponPort), Hop(t.root, link.oltPort, p.nni.devicePortNo)]
  }

  lemma RouteUpIsReverse(t: Topology, p: Pair)
    requires Fits(t, p)
    ensures RouteUp(t, p) == Reverse(RouteDown(t, p))
    ensures RouteDown(t, p) == Reverse(RouteUp(t, p))
  {
  }

  /** `hops` is the route that the pair has under `key`. */
  predicate EntryOf(t: Topology, p: Pair, key: PathID, hops: seq<Hop>) {
    && Fits(t, p)
    && ((key == Down(p) && hops == RouteDown(t, p)) || (key == Up(p) && hops == RouteUp(t, p)))
  }

  /** What the cache holds under `key` is a route of one of the pairs. */
  ghost predicate Explained(t: Topology, pairs: iset<Pair>, routes: Routes, key: PathID)
    requires key in routes
  {
    exists p {:trigger EntryOf(t, p, key, routes[key])} | p in pairs :: EntryOf(t, p, key, routes[key])
  }

  predicate Served(routes: Routes, p: Pair) {
    Down(p) in routes && Up(p) in routes
  }

  /** `routes` holds both routes of every pair and nothing else. */
  ghost predicate Exactly(t: Topology, pairs: iset<Pair>, routes: Routes) {
    && (forall p {:trigger Served(routes, p)} | p in pairs :: Served(routes, p))
    && AllExplained(t, pairs, routes)
  }

  ghost predicate AllExplained(t: Topology, pairs: iset<Pair>, routes: Routes) {
    forall key {:trigger Explained(t, pairs, routes, key)} | key in routes :: Explained(t, pairs, routes, key)
  }

  lemma WriteExplained(t: Topology, pairs: iset<Pair>, routes: Routes, p: Pair, key: PathID, hops: seq<Hop>)
    requires AllExplained(t, pairs, routes) && p in pairs && EntryOf(t, p, key, hops)
    ensures AllExplained(t, pairs, routes[key := hops])
  {
    var routes' := routes[key := hops];
    forall k {:trigger Explained(t, pairs, routes', k)} | k in routes' ensures Explained(t, pairs, routes', k) {
      if k == key {
        assert EntryOf(t, p, k, routes'[k]);
      } else {
        assert Explained(t, pairs, routes, k);
        var q :| q in pairs && EntryOf(t, q, k, routes[k]);
        assert EntryOf(t, q, k, routes'[k]);
      }
    }
  }

  /** Port numbers identify the ports of the pairs, across both kinds. */
  ghost predicate Unambiguous(pairs: iset<Pair>) {
    && (forall p, q | p in pairs && q in pairs :: p.nni.portNo == q.nni.portNo ==> p.nni == q.nni)
    && (forall p, q | p in pairs && q in pairs :: p.uni.portNo == q.uni.portNo ==> p.uni == q.uni)
    && (forall p, q | p in pairs && q in pairs :: p.nni.portNo != q.uni.portNo)
  }

  /** A pair finds its own two routes under its two keys. */
  lemma PairRoutes(t: Topology, pairs: iset<Pair>, routes: Routes, p: Pair)
    requires Exactly(t, pairs, routes) && Unambiguous(pairs) && p in pairs
    ensures Fits(t, p) && Served(routes, p)
    ensures routes[Down(p)] == RouteDown(t, p) && routes[Up(p)] == RouteUp(t, p)
  {
    assert Served(routes, p);
    assert Explained(t, pairs, routes, Down(p)) && Explained(t, pairs, routes, Up(p));
    var d :| d in pairs && EntryOf(t, d, Down(p), routes[Down(p)]);
    var u :| u in pairs && EntryOf(t, u, Up(p), routes[Up(p)]);
    assert d == Pair(d.nni, d.uni) && u == Pair(u.nni, u.uni) && p == Pair(p.nni, p.uni);
  }

  /** The routes of a set of pairs are unique: two caches that are exact for the same pairs are the same cache. */
  lemma ExactlyDetermines(t: Topology, pairs: iset<Pair>, a: Routes, b: Routes)
    requires Exactly(t, pairs, a) && Exactly(t, pairs, b) && Unambiguous(pairs)
    ensures a == b
  {
    ExactlyIncludes(t, pairs, a, b);
    ExactlyIncludes(t, pairs, b, a);
  }

  lemma ExactlyIncludes(t: Topology, pairs: iset<Pair>, a: Routes, b: Routes)
    requires Exactly(t, pairs, a) && Exactly(t, pairs, b) && Unambiguous(pairs)
    ensures forall key | key in a :: key in b && b[key] == a[key]
  {
    forall key | key in a ensures key in b && b[key] == a[key] {
      assert Explained(t, pairs, a, key);
      var p :| p in pairs && EntryOf(t, p, key, a[key]);
      PairRoutes(t, pairs, b, p);
      PairRoutes(t, pairs, a, p);
    }
  }

  /** Writing both routes of a pair makes the cache exact for one more pair. */
  lemma ExactlyAdd(t: Topology, pairs: iset<Pair>, routes: Routes, p: Pair)
    requires Exactly(t, pairs, routes) && Fits(t, p) && p.nni.portNo != p.uni.portNo
    ensures Exactly(t, pairs + iset{p}, routes[Down(p) := RouteDown(t, p)][Up(p) := RouteUp(t, p)])
  {
    var pairs' := pairs + iset{p};
    var routes' := routes[Down(p) := RouteDown(t, p)][Up(p) := RouteUp(t, p)];
    forall q {:trigger Served(routes', q)} | q in pairs' ensures Served(routes', q) {
      assert q in pairs ==> Served(routes, q);
    }
    MoreExplained(t, pairs, pairs', routes);
    WriteExplained(t, pairs', routes, p, Down(p), RouteDown(t, p));
    WriteExplained(t, pairs', routes[Down(p) := RouteDown(t, p)], p, Up(p), RouteUp(t, p));
  }

  lemma MoreExplained(t: Topology, pairs: iset<Pair>, pairs': iset<Pair>, routes: Routes)
    requires AllExplained(t, pairs, routes) && pairs <= pairs'
    ensures AllExplained(t, pairs', routes)
  {
    forall k {:trigger Explained(t, pairs', routes, k)} | k in routes ensures Explained(t, pairs', routes, k) {
      assert Explained(t, pairs, routes, k);
    }
  }

  /** In an exact cache every route has two hops joined by a PON link, and its reverse under the opposite key. */
  lemma RoutesAreSymmetric(t: Topology, pairs: iset<Pair>, routes: Routes, key: PathID)
    requires Exactly(t, pairs, routes) && Unambiguous(pairs) && key in routes
    ensures |routes[key]| == 2
    ensures PathID(key.egress, key.ingress) in routes
    ensures routes[PathID(key.egress, key.ingress)] == Reverse(routes[key])
    ensures exists onu | onu in t.links :: JoinedBy(t, onu, routes[key])
  {
    assert Explained(t, pairs, routes, key);
    var p :| p in pairs && EntryOf(t, p, key, routes[key]);
    PairRoutes(t, pairs, routes, p);
    RouteUpIsReverse(t, p);
    assert JoinedBy(t, p.uni.deviceId, routes[key]);
  }

  /** One hop is on the OLT, the other on the ONU, and they meet at the two ends of the ONU's PON link. */
  predicate JoinedBy(t: Topology, onu: string, hops: seq<Hop>) {
    && onu in t.links && |hops| == 2
    && var link := t.links[onu];
    || (hops[0].deviceId == t.root && hops[0].egress == link.oltPort && hops[1].deviceId == onu && hops[1].ingress == link.ponPort)
    || (hops[0].deviceId == onu && hops[0].egress == link.ponPort && hops[1].deviceId == t.root && hops[1].ingress == link.oltPort)
  }

  /** All routes that start at a UNI port start with the same hop. */
  lemma SameFirstHop(t: Topology, pairs: iset<Pair>, routes: Routes, a: PathID, b: PathID)
    requires Exactly(t, pairs, routes) && Unambiguous(pairs) && a in routes && b in routes
    requires a.ingress == b.ingress && exists p | p in pairs :: p.uni.portNo == a.ingress
    ensures |routes[a]| == |routes[b]| == 2 && routes[a][0] == routes[b][0]
  {
    assert Explained(t, pairs, routes, a) && Explained(t, pairs, routes, b);
    var u :| u in pairs && u.uni.portNo == a.ingress;
    var p :| p in pairs && EntryOf(t, p, a, routes[a]);
    var q :| q in pairs && EntryOf(t, q, b, routes[b]);
    assert p.nni.portNo != u.uni.portNo && q.nni.portNo != u.uni.portNo;
  }

  // The pairs of a list of logical ports

  function NniPorts(lps: seq<LogicalPort>): (s: seq<LogicalPort>)
    ensures forall lp :: lp in s <==> lp in lps && lp.rootPort
    ensures |s| <= |lps|
  {
    if lps == [] then []
    else
      assert lps == lps[..|lps| - 1] + [lps[|lps| - 1]];
      var rest := NniPorts(lps[..|lps| - 1]);
      if lps[|lps| - 1].rootPort then rest + [lps[|lps| - 1]] else rest
  }

  function UniPorts(lps: seq<LogicalPort>): (s: set<LogicalPort>)
    ensures forall lp :: lp in s <==> lp in lps && !lp.rootPort
  {
    set lp | lp in lps && !lp.rootPort
  }

  /** Every NNI port of the list with every UNI port. */
  ghost function Pairs(nnis: seq<LogicalPort>, unis: set<LogicalPort>): iset<Pair> {
    iset p: Pair | p.nni in nnis && p.uni in unis
  }

  ghost function AllPairs(lps: seq<LogicalPort>): iset<Pair> {
    Pairs(NniPorts(lps), UniPorts(lps))
  }

  /** The numbers of the NNI ports, each mapped to itself. */
  function NniNumbers(lps: seq<LogicalPort>): map<uint32, uint32> {
    if lps == [] then map[]
    else
      var n := |lps| - 1;
      var rest := NniNumbers(lps[..n]);
      if lps[n].rootPort then rest[lps[n].portNo := lps[n].portNo] else rest
  }

  lemma {:induction false} NniNumbersAre(lps: seq<LogicalPort>)
    ensures forall lp | lp in lps && lp.rootPort :: lp.portNo in NniNumbers(lps)
    ensures forall no | no in NniNumbers(lps) ::
              NniNumbers(lps)[no] == no && exists lp | lp in lps :: lp.rootPort && lp.portNo == no
  {
    if lps != [] {
      assert lps == lps[..|lps| - 1] + [lps[|lps| - 1]];
      NniNumbersAre(lps[..|lps| - 1]);
    }
  }

  /** NNI ports are on the OLT, UNI ports on linked ONUs, and no two ports share a number or a place. */
  ghost predicate WellPlaced(t: Topology, lps: seq<LogicalPort>) {
    && t.root !in t.links
    && (forall lp | lp in lps :: if lp.rootPort then lp.deviceId == t.root else lp.deviceId in t.links)
    && (forall i, j | 0 <= i < j < |lps| :: lps[i].portNo != lps[j].portNo)
    && (forall i, j | 0 <= i < j < |lps| ::
          lps[i].deviceId == lps[j].deviceId ==> lps[i].devicePortNo != lps[j].devicePortNo)
  }

  lemma NumberIdentifies(t: Topology, lps: seq<LogicalPort>, a: LogicalPort, b: LogicalPort)
    requires WellPlaced(t, lps) && a in lps && b in lps && a.portNo == b.portNo
    ensures a == b
  {
  }

  lemma WellPlacedPairs(t: Topology, lps: seq<LogicalPort>, pairs: iset<Pair>)
    requires WellPlaced(t, lps) && pairs <= AllPairs(lps)
    ensures Unambiguous(pairs)
    ensures forall p | p in pairs :: Fits(t, p)
  {
    forall p | p in pairs ensures p.nni in lps && p.nni.rootPort && p.uni in lps && !p.uni.rootPort {
      assert p in AllPairs(lps);
    }
    forall p, q | p in pairs && q in pairs
      ensures p.nni.portNo == q.nni.portNo ==> p.nni == q.nni
      ensures p.uni.portNo == q.uni.portNo ==> p.uni == q.uni
      ensures p.nni.portNo != q.uni.portNo
    {
      if p.nni.portNo == q.nni.portNo { NumberIdentifies(t, lps, p.nni, q.nni); }
      if p.uni.portNo == q.uni.portNo { NumberIdentifies(t, lps, p.uni, q.uni); }
      if p.nni.portNo == q.uni.portNo { NumberIdentifies(t, lps, p.nni, q.uni); }
    }
  }
}
