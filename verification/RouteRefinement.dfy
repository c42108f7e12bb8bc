/** The incremental and the full computation of routes agree, and when the full one serves every pair. */
module RouteRefinement {
  import opened Voltha
  import opened RouteSpec
  import opened RouteCount
  import opened DeviceRoute

  // Completeness

  /** A cache that is exact for some pairs of the ports pairs all ports just when these are all the pairs. */
  lemma ExactlyPaired(t: Topology, lps: seq<LogicalPort>, pairs: iset<Pair>, routes: Routes)
    requires WellPlaced(t, lps) && pairs <= AllPairs(lps) && Exactly(t, pairs, routes)
    ensures OnlyPairs(lps, routes.Keys)
    ensures AllPaired(lps, routes.Keys) <==> pairs == AllPairs(lps)
  {
    forall k | k in routes
      ensures (k.ingress in Numbers(lps, true) && k.egress in Numbers(lps, false))
              || (k.ingress in Numbers(lps, false) && k.egress in Numbers(lps, true))
    {
      assert Explained(t, pairs, routes, k);
      var p :| p in pairs && EntryOf(t, p, k, routes[k]);
      assert p in AllPairs(lps);
    }
    if pairs == AllPairs(lps) {
      AllServed(t, lps, routes);
    }
    if AllPaired(lps, routes.Keys) {
      AllAreThere(t, lps, pairs, routes);
    }
  }

  lemma AllServed(t: Topology, lps: seq<LogicalPort>, routes: Routes)
    requires Exactly(t, AllPairs(lps), routes)
    ensures AllPaired(lps, routes.Keys)
  {
    forall n, u | n in Numbers(lps, true) && u in Numbers(lps, false)
      ensures PathID(n, u) in routes.Keys && PathID(u, n) in routes.Keys
    {
      var nni :| nni in lps && nni.rootPort && nni.portNo == n;
      var uni :| uni in lps && !uni.rootPort && uni.portNo == u;
      assert Pair(nni, uni) in AllPairs(lps);
      assert Served(routes, Pair(nni, uni));
    }
  }

  lemma AllAreThere(t: Topology, lps: seq<LogicalPort>, pairs: iset<Pair>, routes: Routes)
    requires WellPlaced(t, lps) && pairs <= AllPairs(lps) && Exactly(t, pairs, routes) && AllPaired(lps, routes.Keys)
    ensures pairs == AllPairs(lps)
  {
    WellPlacedPairs(t, lps, AllPairs(lps));
    forall p | p in AllPairs(lps) ensures p in pairs {
      assert p.nni.portNo in Numbers(lps, true) && p.uni.portNo in Numbers(lps, false);
      assert Explained(t, pairs, routes, Down(p));
      var q :| q in pairs && EntryOf(t, q, Down(p), routes[Down(p)]);
      assert q in AllPairs(lps);
      assert p == Pair(p.nni, p.uni) && q == Pair(q.nni, q.uni);
    }
  }

  /** The full computation serves two NNI ports, so it serves every pair only if there are no more, or no UNI port. */
  lemma FullServesAll(t: Topology, lps: seq<LogicalPort>, routes: Routes)
    requires WellPlaced(t, lps) && Exactly(t, Pairs(FirstTwo(NniPorts(lps)), UniPorts(lps)), routes)
    ensures OnlyPairs(lps, routes.Keys)
    ensures AllPaired(lps, routes.Keys) <==> |NniPorts(lps)| <= 2 || UniPorts(lps) == {}
  {
    var nnis, unis := NniPorts(lps), UniPorts(lps);
    ExactlyPaired(t, lps, Pairs(FirstTwo(nnis), unis), routes);
    if |nnis| > 2 {
      DistinctNnis(t, lps);
      assert nnis[2] !in nnis[..2];
      assert forall u | u in unis :: Pair(nnis[2], u) in AllPairs(lps) && Pair(nnis[2], u) !in Pairs(FirstTwo(nnis), unis);
      assert unis == {} ==> AllPairs(lps) == Pairs(FirstTwo(nnis), unis);
    }
  }

  lemma {:induction false} DistinctNnis(t: Topology, lps: seq<LogicalPort>)
    requires WellPlaced(t, lps)
    ensures forall i, j | 0 <= i < j < |NniPorts(lps)| :: NniPorts(lps)[i] != NniPorts(lps)[j]
  {
    if lps != [] {
      var init := lps[..|lps| - 1];
      DistinctNnis(t, init);
      assert forall n | n in NniPorts(init) :: n in init;
    }
  }

  const N1 := LogicalPort("n1", 1, "olt", 11, true)
  const N2 := LogicalPort("n2", 2, "olt", 12, true)
  const N3 := LogicalPort("n3", 3, "olt", 13, true)
  const U := LogicalPort("u", 4, "onu", 14, false)

  lemma ThreeNnis()
    ensures NniPorts([N1, N2, N3, U]) == [N1, N2, N3] && UniPorts([N1, N2, N3, U]) == {U}
  {
    assert [N1, N2, N3, U][..3] == [N1, N2, N3] && [N1, N2, N3][..2] == [N1, N2] && [N1, N2][..1] == [N1];
    assert NniPorts([N1]) == [N1];
    assert NniPorts([N1, N2]) == [N1, N2];
  }

  lemma OnlyTwoServed(t: Topology, routes: Routes)
    requires Exactly(t, Pairs(FirstTwo(NniPorts([N1, N2, N3, U])), UniPorts([N1, N2, N3, U])), routes)
    ensures PathID(1, 4) in routes && PathID(2, 4) in routes && PathID(3, 4) !in routes && PathID(4, 3) !in routes
  {
    ThreeNnis();
    var pairs := Pairs([N1, N2], {U});
    assert [N1, N2, N3][..2] == [N1, N2];
    assert Served(routes, Pair(N1, U)) && Served(routes, Pair(N2, U));
    assert PathID(3, 4) in routes ==> Explained(t, pairs, routes, PathID(3, 4));
    assert PathID(4, 3) in routes ==> Explained(t, pairs, routes, PathID(4, 3));
  }

  // An OLT with three NNI ports and one ONU

  const OLT_PON := Port(21, "pon", PonOlt, AdminEnabled, OperActive, "olt", [Peer("onu", 31)])
  const ONU_PON := Port(31, "pon", PonOnu, AdminEnabled, OperActive, "onu", [Peer("olt", 21)])
  const ONU_UNI := Port(14, "uni", EthernetUni, AdminEnabled, OperActive, "onu", [])
  const OLT := Device("olt", true, [OLT_PON])
  const ONU := Device("onu", false, [ONU_PON, ONU_UNI])
  const SMALL_TREE := Topology("olt", map["onu" := Link(31, 21)])

  function SmallModel(): Model {
    map["olt" := OLT, "onu" := ONU]
  }

  lemma SmallOnuIsOk()
    ensures OnuOk(SMALL_TREE, SmallModel(), "onu")
  {
    assert "olt"[1] != "onu"[1];
    assert ONU.ports[0] == ONU_PON && ONU_PON.peers[0] == Peer("olt", 21);
    assert HasPeer(ONU_PON, "olt");
  }

  lemma SmallOltIsOk()
    ensures OltOk(SMALL_TREE, SmallModel())
  {
    var t, model := SMALL_TREE, SmallModel();
    assert "olt"[1] != "onu"[1];
    SmallOnuIsOk();
    forall port, peer {:trigger PeerOk(t, model, port, peer)} |
      port in model[t.root].ports && port.portType.PonOlt? && peer in port.peers ensures PeerOk(t, model, port, peer) {
    }
  }

  lemma SmallModelIsGood()
    ensures Good(SMALL_TREE, SmallModel(), [N1, N2, N3, U])
  {
    assert "olt"[1] != "onu"[1];
    SmallOnuIsOk();
    SmallOltIsOk();
    assert OLT.ports[0] == OLT_PON && OLT_PON.peers[0].deviceId == "onu" && ONU.ports[1] == ONU_UNI;
    assert UniThere(SMALL_TREE, SmallModel(), U);
  }

  /** On that model the full computation passes and leaves the third NNI port without routes. */
  method ThirdNniUnserved() returns (r: Outcome, routes: Routes)
    ensures r.Pass?
    ensures PathID(1, 4) in routes && PathID(2, 4) in routes && PathID(3, 4) !in routes && PathID(4, 3) !in routes
  {
    SmallModelIsGood();
    ThreeNnis();
    var dr := new DeviceRoutes();
    r := dr.ComputeRoutes(SmallModel(), [N1, N2, N3, U], SMALL_TREE);
    OnlyTwoServed(SMALL_TREE, dr.Routes);
    routes := dr.Routes;
  }

  /** The comparison of counts, on the result of the full computation. */
  method ComputeAndCount(model: Model, lps: seq<LogicalPort>, ghost t: Topology) returns (upToDate: bool)
    requires |lps| >= 2 && NniPorts(lps) != [] && Good(t, model, lps)
    ensures upToDate <==> |NniPorts(lps)| <= 2 || UniPorts(lps) == {}
  {
    var dr := new DeviceRoutes();
    var r := dr.ComputeRoutes(model, lps, t);
    FullServesAll(t, lps, dr.Routes);
    NniNumbersAre(lps);
    assert dr.RootPorts.Keys == Numbers(lps, true);
    upToDate := dr.IsUpToDate(Some(lps));
  }

  // The incremental computation refines the full one

  ghost predicate SamePorts(a: seq<LogicalPort>, b: seq<LogicalPort>) {
    forall lp :: lp in a <==> lp in b
  }

  lemma SamePairs(a: seq<LogicalPort>, b: seq<LogicalPort>)
    requires SamePorts(a, b)
    ensures AllPairs(a) == AllPairs(b) && NniNumbers(a) == NniNumbers(b)
    ensures BothKinds(a) <==> BothKinds(b)
  {
    NniNumbersAre(a);
    NniNumbersAre(b);
    assert NniNumbers(a).Keys == NniNumbers(b).Keys;
    assert UniPorts(a) == UniPorts(b);
  }

  /** What a logical device with the ports `lps` has cached, however it got there. */
  ghost predicate Settled(t: Topology, lps: seq<LogicalPort>, dr: DeviceRoutes)
    reads dr
  {
    if dr.Routes == map[] then
      !BothKinds(lps) && dr.RootPorts == if |lps| >= 2 then NniNumbers(lps) else map[]
    else
      SamePorts(dr.logicalPorts, lps) && WellPlaced(t, dr.logicalPorts) && dr.IsCurrent(t, dr.logicalPorts)
  }

  /** In every such cache a route has two hops joined by a PON link, and its reverse under the opposite key. */
  lemma SettledIsSymmetric(t: Topology, lps: seq<LogicalPort>, dr: DeviceRoutes, key: PathID)
    requires Settled(t, lps, dr) && key in dr.Routes
    ensures |dr.Routes[key]| == 2 && exists onu | onu in t.links :: JoinedBy(t, onu, dr.Routes[key])
    ensures PathID(key.egress, key.ingress) in dr.Routes
    ensures dr.Routes[PathID(key.egress, key.ingress)] == Reverse(dr.Routes[key])
  {
    WellPlacedPairs(t, dr.logicalPorts, AllPairs(dr.logicalPorts));
    RoutesAreSymmetric(t, AllPairs(dr.logicalPorts), dr.Routes, key);
  }

  /** Two caches that are settled for the same ports are equal. */
  lemma SettledIsUnique(t: Topology, lps: seq<LogicalPort>, lps': seq<LogicalPort>, a: DeviceRoutes, b: DeviceRoutes)
    requires WellPlaced(t, lps) && WellPlaced(t, lps') && SamePorts(lps, lps') && Settled(t, lps, a) && Settled(t, lps', b)
    ensures a.Routes == b.Routes && a.RootPorts == b.RootPorts
  {
    SamePairs(lps, lps');
    SameLength(t, lps, lps');
    if a.Routes != map[] {
      SamePairs(a.logicalPorts, lps);
      RoutesNeedBothKinds(t, a.logicalPorts, a.Routes);
    }
    if b.Routes != map[] {
      SamePairs(b.logicalPorts, lps');
      RoutesNeedBothKinds(t, b.logicalPorts, b.Routes);
    }
    if a.Routes != map[] && b.Routes != map[] {
      WellPlacedPairs(t, lps, AllPairs(lps));
      ExactlyDetermines(t, AllPairs(lps), a.Routes, b.Routes);
    }
  }

  /** Of two lists with the same ports both or neither have at least two. */
  lemma SameLength(t: Topology, a: seq<LogicalPort>, b: seq<LogicalPort>)
    requires WellPlaced(t, a) && WellPlaced(t, b) && SamePorts(a, b)
    ensures |a| >= 2 <==> |b| >= 2
  {
    AtLeastTwo(t, a, b);
    AtLeastTwo(t, b, a);
  }

  lemma AtLeastTwo(t: Topology, a: seq<LogicalPort>, b: seq<LogicalPort>)
    requires WellPlaced(t, a) && forall lp | lp in a :: lp in b
    ensures |a| >= 2 ==> |b| >= 2
  {
    if |a| >= 2 {
      assert a[0] in b && a[1] in b && a[0] != a[1];
    }
  }

  lemma ExtendedSame(t: Topology, known: seq<LogicalPort>, before: seq<LogicalPort>, lp: LogicalPort, lps: seq<LogicalPort>)
    requires WellPlaced(t, known) && WellPlaced(t, lps) && SamePorts(known, before) && SamePorts(lps, before + [lp])
    ensures SamePorts(Extended(known, lp), lps) && lp in Extended(known, lp)
  {
    assert forall p :: p in before + [lp] <==> p in before || p == lp;
    if IsKnown(known, lp.portNo) {
      var p :| p in known && p.portNo == lp.portNo;
      NumberIdentifies(t, lps, p, lp);
    }
  }

  lemma ExtendedPlaced(t: Topology, known: seq<LogicalPort>, lp: LogicalPort, lps: seq<LogicalPort>)
    requires WellPlaced(t, known) && WellPlaced(t, lps) && SamePorts(Extended(known, lp), lps)
    ensures WellPlaced(t, Extended(known, lp))
  {
    var ext := Extended(known, lp);
    forall i, j | 0 <= i < j < |ext| && ext[i].deviceId == ext[j].deviceId ensures ext[i].devicePortNo != ext[j].devicePortNo {
      assert ext[i] in lps && ext[j] in lps;
      assert ext[i] in ext[..i + 1] && ext[i] != ext[j];
    }
  }

  lemma SameGood(t: Topology, model: Model, lps: seq<LogicalPort>, same: seq<LogicalPort>)
    requires Good(t, model, lps) && SamePorts(same, lps) && WellPlaced(t, same)
    ensures Good(t, model, same)
  {
    forall lp {:trigger UniThere(t, model, lp)} | lp in same && !lp.rootPort ensures UniThere(t, model, lp) {
    }
  }

  /** One call of AddPort finds the device with one more port, or with a port it had. */
  ghost predicate StepOk(t: Topology, model: Model, before: seq<LogicalPort>, lp: LogicalPort, lps: seq<LogicalPort>) {
    SamePorts(lps, before + [lp]) && Good(t, model, lps) && |NniPorts(lps)| <= 2
  }

  lemma NoNni(lps: seq<LogicalPort>)
    requires NniPorts(lps) == []
    ensures NniNumbers(lps) == map[] && !BothKinds(lps)
  {
  }

  lemma EmptyLacksAKind(t: Topology, lps: seq<LogicalPort>)
    requires Exactly(t, AllPairs(lps), map[])
    ensures !BothKinds(lps)
  {
    assert forall n, u | n in lps && n.rootPort && u in lps && !u.rootPort ::
        Pair(n, u) in AllPairs(lps) && !Served(map[], Pair(n, u));
  }

  /** The full computation settles a cache without routes. */
  lemma FullIsSettled(t: Topology, lps: seq<LogicalPort>, dr: DeviceRoutes)
    requires WellPlaced(t, lps) && |NniPorts(lps)| <= 2
    requires |lps| < 2 || NniPorts(lps) == [] ==> dr.Routes == map[] && dr.RootPorts == map[]
    requires |lps| >= 2 && NniPorts(lps) != [] ==> dr.IsFull(t, lps)
    ensures Settled(t, lps, dr)
    ensures BothKinds(lps) ==> dr.IsCurrent(t, lps)
  {
    if NniPorts(lps) == [] {
      NoNni(lps);
    } else if |lps| >= 2 && dr.Routes == map[] {
      EmptyLacksAKind(t, lps);
    }
  }

  /** Adding a port to a cache with routes settles it for one more port. */
  lemma SettledAfterOne(t: Topology, known: seq<LogicalPort>, lp: LogicalPort, lps: seq<LogicalPort>, dr: DeviceRoutes)
    requires BothKinds(known) && SamePorts(Extended(known, lp), lps) && WellPlaced(t, Extended(known, lp))
    requires dr.IsCurrent(t, Extended(known, lp))
    ensures Settled(t, lps, dr)
  {
    StillBothKinds(known, lp);
    if dr.Routes == map[] {
      EmptyLacksAKind(t, Extended(known, lp));
    }
  }

  method Step(dr: DeviceRoutes, model: Model, lp: LogicalPort, lps: seq<LogicalPort>,
              ghost t: Topology, ghost before: seq<LogicalPort>)
    requires dr.Valid() && WellPlaced(t, before) && Settled(t, before, dr) && StepOk(t, model, before, lp, lps)
    modifies dr
    ensures dr.Valid() && Settled(t, lps, dr)
  {
    ghost var known := dr.logicalPorts;
    if dr.Routes != map[] {
      RoutesNeedBothKinds(t, known, dr.Routes);
      ExtendedSame(t, known, before, lp, lps);
      ExtendedPlaced(t, known, lp, lps);
      SameGood(t, model, lps, Extended(known, lp));
    } else {
      assert forall p | p in before :: p in before + [lp];
      AtLeastTwo(t, before, lps);
    }
    var r := dr.AddPort(model, lp, lps, t);
    if old(dr.Routes) == map[] {
      FullIsSettled(t, lps, dr);
    } else {
      SettledAfterOne(t, known, lp, lps, dr);
    }
  }

  /** The ports of the device before the call `k`. */
  function Before(lists: seq<seq<LogicalPort>>, k: nat): seq<LogicalPort>
    requires k <= |lists|
  {
    if k == 0 then [] else lists[k - 1]
  }

  /** A sequence of calls, each with the port that was added, the ports of the device and the devices at that time. */
  ghost predicate CallsOk(t: Topology, models: seq<Model>, added: seq<LogicalPort>, lists: seq<seq<LogicalPort>>)
    requires |models| == |added| == |lists|
  {
    forall k {:trigger CallOk(t, models, added, lists, k)} | 0 <= k < |added| :: CallOk(t, models, added, lists, k)
  }

  ghost predicate CallOk(t: Topology, models: seq<Model>, added: seq<LogicalPort>, lists: seq<seq<LogicalPort>>, k: nat)
    requires |models| == |added| == |lists| && k < |added|
  {
    StepOk(t, models[k], Before(lists, k), added[k], lists[k])
  }

  method AddPorts(dr: DeviceRoutes, models: seq<Model>, added: seq<LogicalPort>, lists: seq<seq<LogicalPort>>, ghost t: Topology)
    requires |models| == |added| == |lists| && CallsOk(t, models, added, lists)
    requires t.root !in t.links && dr.Valid() && dr.IsReset()
    modifies dr
    ensures dr.Valid() && Settled(t, Before(lists, |lists|), dr)
    ensures WellPlaced(t, Before(lists, |lists|))
  {
    for k := 0 to |added|
      invariant dr.Valid() && Settled(t, Before(lists, k), dr) && WellPlaced(t, Before(lists, k))
    {
      assert CallOk(t, models, added, lists, k);
      Step(dr, models[k], added[k], lists[k], t, Before(lists, k));
    }
  }

  /**
   Any sequence of AddPort calls, in any order and with repetitions, ends with the routes and root ports of one
   ComputeRoutes over the same ports, listed in any order.
   */
  method IncrementalIsFull(models: seq<Model>, added: seq<LogicalPort>, lists: seq<seq<LogicalPort>>,
                           model: Model, lps: seq<LogicalPort>, ghost t: Topology)
    returns (incremental: DeviceRoutes, full: DeviceRoutes)
    requires |models| == |added| == |lists| && CallsOk(t, models, added, lists)
    requires Good(t, model, lps) && SamePorts(lps, Before(lists, |lists|)) && |NniPorts(lps)| <= 2
    ensures incremental.Routes == full.Routes && incremental.RootPorts == full.RootPorts
    ensures BothKinds(lps) ==> full.IsCurrent(t, lps)
  {
    incremental := new DeviceRoutes();
    AddPorts(incremental, models, added, lists, t);
    full := new DeviceRoutes();
    var r := full.ComputeRoutes(model, lps, t);
    FullIsSettled(t, lps, full);
    SettledIsUnique(t, Before(lists, |lists|), lps, incremental, full);
  }
}
