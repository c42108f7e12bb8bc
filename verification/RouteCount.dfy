/** Counting the keys of the route cache. */
module RouteCount {
  import opened Voltha
  import opened RouteSpec

  ghost predicate DistinctNumbers(lps: seq<LogicalPort>) {
    forall i, j | 0 <= i < j < |lps| :: lps[i].portNo != lps[j].portNo
  }

  /** The numbers of the NNI ports, or of the UNI ports. */
  function Numbers(lps: seq<LogicalPort>, root: bool): set<uint32> {
    set lp | lp in lps && lp.rootPort == root :: lp.portNo
  }

  /** Every key pairs an NNI port with a UNI port. */
  ghost predicate OnlyPairs(lps: seq<LogicalPort>, keys: set<PathID>) {
    var nnis, unis := Numbers(lps, true), Numbers(lps, false);
    forall k | k in keys :: (k.ingress in nnis && k.egress in unis) || (k.ingress in unis && k.egress in nnis)
  }

  /** Every NNI port and UNI port have a route in both directions. */
  ghost predicate AllPaired(lps: seq<LogicalPort>, keys: set<PathID>) {
    forall n, u | n in Numbers(lps, true) && u in Numbers(lps, false) :: PathID(n, u) in keys && PathID(u, n) in keys
  }

  // Cardinalities

  function Product(a: set<uint32>, b: set<uint32>): set<PathID> {
    set x, y | x in a && y in b :: PathID(x, y)
  }

  lemma {:induction false} RowSize(x: uint32, b: set<uint32>)
    ensures |Product({x}, b)| == |b|
  {
    if b == {} {
      assert Product({x}, b) == {};
    } else {
      var y :| y in b;
      RowSize(x, b - {y});
      assert Product({x}, b) == Product({x}, b - {y}) + {PathID(x, y)};
    }
  }

  lemma ProductSplit(a: set<uint32>, b: set<uint32>, x: uint32)
    requires x in a
    ensures Product(a, b) == Product(a - {x}, b) + Product({x}, b) && Product(a - {x}, b) !! Product({x}, b)
  {
  }

  lemma OneRowMore(n: nat, m: nat)
    ensures (n + 1) * m == n * m + m
  {
  }

  lemma {:induction false} ProductSize(a: set<uint32>, b: set<uint32>)
    ensures |Product(a, b)| == |a| * |b|
  {
    if a == {} {
      assert Product(a, b) == {};
    } else {
      var x :| x in a;
      ProductSplit(a, b, x);
      assert |Product(a, b)| == |Product(a - {x}, b)| + |b| by {
        RowSize(x, b);
      }
      ProductSize(a - {x}, b);
      assert |a| == |a - {x}| + 1;
      OneRowMore(|a - {x}|, |b|);
    }
  }

  lemma {:induction false} SubsetOfSameSize<T>(a: set<T>, b: set<T>)
    requires a <= b && |a| == |b|
    ensures a == b
  {
    assert b == a + (b - a);
  }

  lemma NumbersAppend(init: seq<LogicalPort>, last: LogicalPort, root: bool)
    ensures Numbers(init + [last], root) == Numbers(init, root) + if last.rootPort == root then {last.portNo} else {}
  {
  }

  /** With distinct numbers, the two kinds partition the ports. */
  lemma {:induction false} NumbersCount(lps: seq<LogicalPort>)
    requires DistinctNumbers(lps)
    ensures Numbers(lps, true) !! Numbers(lps, false)
    ensures |Numbers(lps, true)| + |Numbers(lps, false)| == |lps|
  {
    if lps == [] {
      assert Numbers(lps, true) == {} && Numbers(lps, false) == {};
    } else {
      var n := |lps| - 1;
      NumbersCount(lps[..n]);
      assert lps == lps[..n] + [lps[n]];
      NumbersAppend(lps[..n], lps[n], true);
      NumbersAppend(lps[..n], lps[n], false);
      assert lps[n].portNo !in Numbers(lps[..n], true) && lps[n].portNo !in Numbers(lps[..n], false);
    }
  }

  /** The number of routes decides whether all of them are there. */
  lemma CountingSuffices(lps: seq<LogicalPort>, keys: set<PathID>)
    requires DistinctNumbers(lps) && OnlyPairs(lps, keys)
    ensures |keys| == |Numbers(lps, true)| * |Numbers(lps, false)| * 2 <==> AllPaired(lps, keys)
  {
    var nnis, unis := Numbers(lps, true), Numbers(lps, false);
    var down, up := Product(nnis, unis), Product(unis, nnis);
    NumbersCount(lps);
    ProductSize(nnis, unis);
    ProductSize(unis, nnis);
    assert down !! up;
    assert |down + up| == |nnis| * |unis| * 2;
    assert keys <= down + up;
    if |keys| == |down + up| {
      SubsetOfSameSize(keys, down + up);
    }
    assert AllPaired(lps, keys) ==> keys == down + up;
  }
}
