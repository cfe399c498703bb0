/**
 * The integer part of `generate_statistics`: node and edge counts, the
 * largest degree and the degree distribution (how many nodes have each
 * degree). The average degree is a float and is not modelled.
 */
module Statistics {
  import opened DiGraph
  import opened SetFacts

  datatype Summary = Summary(nodeCount: nat, edgeCount: nat, maxDegree: nat, distribution: map<nat, nat>)

  /** The nodes of `s` whose degree is `d`. */
  function NodesOfDegree(net: Network, s: set<int>, d: nat): set<int> {
    set m | m in s && Degree(net, m) == d
  }

  /** The degrees that occur among the nodes of `s`. */
  function DegreesOf(net: Network, s: set<int>): set<nat> {
    set m | m in s :: Degree(net, m)
  }

  /** `Counter(degrees)` over the nodes of `s`. */
  function Distribution(net: Network, s: set<int>): map<nat, nat> {
    map d | d in DegreesOf(net, s) :: |NodesOfDegree(net, s, d)|
  }

  lemma NodesOfDegreeStep(net: Network, s: set<int>, n: int, d: nat)
    ensures NodesOfDegree(net, s + {n}, d)
         == if d == Degree(net, n) then NodesOfDegree(net, s, d) + {n} else NodesOfDegree(net, s, d)
  {
  }

  lemma NodesOfAbsentDegree(net: Network, s: set<int>, d: nat)
    requires d !in DegreesOf(net, s)
    ensures NodesOfDegree(net, s, d) == {}
  {
    forall m | m in s ensures Degree(net, m) != d {
      assert Degree(net, m) in DegreesOf(net, s);
    }
  }

  /** Counting one more node adds one to the count of its degree. */
  lemma DistributionStep(net: Network, s: set<int>, n: int)
    requires n !in s
    ensures var before := Distribution(net, s); var k := Degree(net, n);
      Distribution(net, s + {n}) == before[k := (if k in before then before[k] else 0) + 1]
  {
    var before := Distribution(net, s);
    var k := Degree(net, n);
    var after := Distribution(net, s + {n});
    var bumped := before[k := (if k in before then before[k] else 0) + 1];
    assert DegreesOf(net, s + {n}) == DegreesOf(net, s) + {k};
    assert after.Keys == bumped.Keys;
    forall d | d in after.Keys ensures after[d] == bumped[d] {
      NodesOfDegreeStep(net, s, n, d);
      if d == k && k !in before {
        NodesOfAbsentDegree(net, s, d);
      }
    }
  }

  /** Every node's degree is counted, and every counted degree has between
      one and all of the nodes. */
  lemma DistributionCounts(net: Network, s: set<int>, d: nat)
    ensures forall n :: n in s ==> Degree(net, n) in Distribution(net, s)
    ensures d in Distribution(net, s) ==> 1 <= Distribution(net, s)[d] <= |s|
  {
    forall n | n in s ensures Degree(net, n) in Distribution(net, s) {
      assert Degree(net, n) in (set m | m in s :: Degree(net, m));
    }
    if d in Distribution(net, s) {
      var m :| m in s && Degree(net, m) == d;
      assert m in NodesOfDegree(net, s, d);
      SubsetCard(NodesOfDegree(net, s, d), s);
    }
  }
}
