/** What the waves, and the reported cycle, mean for the services. */
module ComposeOrder {
  import opened Common
  import opened ServiceGraphs
  import opened ComposeWaves

  /** The waves are the only list there is of the layers: iteration order of hash maps cannot show. */
  lemma WavesAreDetermined(g: ServiceGraph, waves: seq<seq<nat>>, others: seq<seq<nat>>)
    requires AreLayers(g, waves) && AreLayers(g, others)
    ensures waves == others
  {
    hide Below;
    if |waves| < |others| {
      MoreWaves(g, waves, others);
    } else if |others| < |waves| {
      MoreWaves(g, others, waves);
    }
    forall i | 0 <= i < |waves| ensures waves[i] == others[i] {
      ListsUnique(waves[i], others[i], Layer(g, i));
    }
  }

  lemma MoreWaves(g: ServiceGraph, waves: seq<seq<nat>>, others: seq<seq<nat>>)
    requires AreLayers(g, waves) && AreLayers(g, others)
    ensures |others| <= |waves|
  {
    hide Below;
    BelowGrows(g, |waves|);
    assert Layer(g, |waves|) == {};
    forall i: nat | i < |others| ensures Layer(g, i) != {} {
      assert others[i][0] in others[i];
    }
  }

  /** Wave `i` holds exactly the services whose longest dependency chain has `i` edges, and every service is in one wave. */
  lemma WaveIsLongestChain(g: ServiceGraph, waves: seq<seq<nat>>, v: nat)
    requires AreLayers(g, waves) && v < |g.names|
    ensures forall i: nat :: i < |waves| ==> (v in waves[i] <==> LongestChain(g, v, i))
    ensures exists i :: 0 <= i < |waves| && v in waves[i] && forall j :: 0 <= j < |waves| && v in waves[j] ==> j == i
  {
    hide Below, LongestChain;
    forall i: nat | i < |waves| ensures v in waves[i] <==> LongestChain(g, v, i) {
      LayerIsLongestChain(g, v, i);
    }
    var i := LayerOf(g, v, |waves|);
    assert v in waves[i];
    forall j | 0 <= j < |waves| && v in waves[j] ensures j == i {
      LayersDisjoint(g, v, i, j);
    }
  }

  lemma {:induction false} LayerOf(g: ServiceGraph, v: nat, k: nat) returns (i: nat)
    requires v in Below(g, k)
    ensures i < k && v in Layer(g, i)
  {
    hide Below;
    assert k > 0 by { BelowZero(g); }
    if v in Below(g, k - 1) {
      i := LayerOf(g, v, k - 1);
    } else {
      i := k - 1;
    }
  }

  lemma BelowZero(g: ServiceGraph)
    ensures Below(g, 0) == {}
  {
  }

  lemma LayersDisjoint(g: ServiceGraph, v: nat, i: nat, j: nat)
    requires v in Layer(g, i) && v in Layer(g, j)
    ensures i == j
  {
    hide Below;
    if i < j {
      BelowMonotone(g, i + 1, j);
    } else if j < i {
      BelowMonotone(g, j + 1, i);
    }
  }

  /** Every dependency is in a strictly earlier wave. */
  lemma DependenciesComeEarlier(g: ServiceGraph, waves: seq<seq<nat>>, v: nat, i: nat, u: nat, j: nat)
    requires AreLayers(g, waves) && Dep(g, v, u)
    requires i < |waves| && v in waves[i] && j < |waves| && u in waves[j]
    ensures j < i
  {
    hide Dep;
    assert v in Below(g, i + 1);
    assert u in Below(g, i);
    if i <= j {
      BelowMonotone(g, i, j);
    }
  }

  /** No valid layering has fewer waves, or starts any service earlier. */
  lemma NoLayeringIsShorter(g: ServiceGraph, waves: seq<seq<nat>>, other: map<nat, nat>, m: nat)
    requires AreLayers(g, waves) && ValidLayering(g, other)
    requires forall v :: v in other && v < |g.names| ==> other[v] < m
    ensures |waves| <= m
    ensures forall i, v :: 0 <= i < |waves| && v in waves[i] ==> v in other && i <= other[v]
  {
    hide Below, ValidLayering;
    forall i, v | 0 <= i < |waves| && v in waves[i] ensures v in other && i <= other[v] && v < |g.names| {
      LayersAreEarliest(g, other, v, i);
      BelowGrows(g, i);
    }
    if waves != [] {
      var last := |waves| - 1;
      var v := waves[last][0];
      assert v in waves[last];
      assert v in other && other[v] < m;
    }
  }

  lemma LayersFit(g: ServiceGraph, waves: seq<seq<nat>>)
    requires AreLayers(g, waves)
    ensures Below(g, |g.names|) == Nodes(g)
  {
    hide Below;
    var k := |waves|;
    BelowGrows(g, k);
    forall j: nat | j < k ensures Layer(g, j) != {} {
      assert Lists(waves[j], Layer(g, j)) && waves[j][0] in waves[j];
    }
    assert Layer(g, k) == {};
    StableIsFinal(g, k);
  }

  /** The services reported are exactly those on a cycle or depending, directly or indirectly, on one. */
  lemma StuckAreOnOrAfterCycle(g: ServiceGraph, stuck: seq<nat>, v: nat)
    requires AreStuck(g, stuck) && v < |g.names|
    ensures v in stuck <==> OnOrAfterCycle(g, v)
  {
    hide Below, OnOrAfterCycle;
    StuckIsOnOrAfterCycle(g, v);
  }
}
