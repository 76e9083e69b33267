/**
 Rendezvous (highest random weight) placement. Shard by shard, the node with the
 greatest weight among those not yet taken is chosen; equal weights are settled
 by the node address. The weight is an arbitrary function of shard index and
 node, so hash collisions are allowed.
 */
module Rendezvous {
  import opened Wrappers
  import opened Collections

  type Weights = (nat, string) -> nat

  datatype PlacementError = NotEnoughNodes

  /** The lexicographic order of std::string. */
  predicate Precedes(a: string, b: string) {
    if b == "" then false
    else if a == "" then true
    else if a[0] != b[0] then a[0] < b[0]
    else Precedes(a[1..], b[1..])
  }

  /** Node a is preferred to node b for shard i. */
  predicate Beats(w: Weights, i: nat, a: string, b: string) {
    w(i, a) > w(i, b) || (w(i, a) == w(i, b) && Precedes(a, b))
  }

  ghost predicate IsBest(w: Weights, i: nat, candidates: set<string>, best: string) {
    best in candidates && forall x :: x in candidates && x != best ==> Beats(w, i, best, x)
  }

  /** p places shard i of |p| on the best node that shards 0..i-1 left free. */
  ghost predicate IsPlacement(w: Weights, nodes: set<string>, p: seq<string>) {
    forall i {:trigger p[i]} :: 0 <= i < |p| ==> IsBest(w, i, nodes - Elems(p[..i]), p[i])
  }

  /** The first difference decides, and a proper prefix comes first. */
  ghost predicate DiffersAt(a: string, b: string, n: nat) {
    n <= |a| && n < |b| && a[..n] == b[..n] && (n == |a| || a[n] < b[n])
  }

  lemma {:induction false} PrecedesIsLexicographic(a: string, b: string)
    ensures Precedes(a, b) <==> exists n: nat :: DiffersAt(a, b, n)
  {
    if b == "" {
    } else if a == "" {
      assert DiffersAt(a, b, 0);
    } else if a[0] != b[0] {
      assert a[0] < b[0] ==> DiffersAt(a, b, 0);
      forall n: nat
        ensures DiffersAt(a, b, n) ==> a[0] < b[0]
      {
        DiffersAtFirst(a, b, n);
      }
    } else {
      PrecedesIsLexicographic(a[1..], b[1..]);
      forall n: nat
        ensures DiffersAt(a[1..], b[1..], n) <==> DiffersAt(a, b, n + 1)
      {
        DiffersLater(a, b, n);
      }
      forall n: nat | DiffersAt(a, b, n)
        ensures n > 0 && DiffersAt(a[1..], b[1..], n - 1)
      {
        DiffersLater(a, b, n - 1);
      }
    }
  }

  lemma DiffersAtFirst(a: string, b: string, n: nat)
    requires a != "" && b != "" && a[0] != b[0]
    ensures DiffersAt(a, b, n) <==> n == 0 && a[0] < b[0]
  {
    assert 0 < n <= |a| && n <= |b| ==> a[..n][0] == a[0] && b[..n][0] == b[0];
  }

  lemma DiffersLater(a: string, b: string, n: nat)
    requires a != "" && b != "" && a[0] == b[0]
    ensures DiffersAt(a[1..], b[1..], n) <==> DiffersAt(a, b, n + 1)
  {
    if n < |a| && n < |b| {
      assert a[..n + 1] == [a[0]] + a[1..][..n] && b[..n + 1] == [b[0]] + b[1..][..n];
      if a[..n + 1] == b[..n + 1] {
        assert a[1..][..n] == a[..n + 1][1..] && b[1..][..n] == b[..n + 1][1..];
      }
    }
  }

  lemma {:induction false} PrecedesTotal(a: string, b: string)
    ensures a == b || Precedes(a, b) || Precedes(b, a)
    ensures !(Precedes(a, b) && Precedes(b, a))
    ensures !Precedes(a, a)
  {
    if a != "" && b != "" && a[0] == b[0] {
      PrecedesTotal(a[1..], b[1..]);
      assert a == [a[0]] + a[1..] && b == [b[0]] + b[1..];
    }
    if a != "" {
      PrecedesIrreflexive(a);
    }
  }

  lemma {:induction false} PrecedesIrreflexive(a: string)
    ensures !Precedes(a, a)
  {
    if a != "" {
      PrecedesIrreflexive(a[1..]);
    }
  }

  lemma {:induction false} PrecedesTransitive(a: string, b: string, c: string)
    requires Precedes(a, b) && Precedes(b, c)
    ensures Precedes(a, c)
  {
    if a != "" && a[0] == b[0] == c[0] {
      PrecedesTransitive(a[1..], b[1..], c[1..]);
    }
  }

  lemma BeatsTotal(w: Weights, i: nat, a: string, b: string)
    ensures a == b || Beats(w, i, a, b) || Beats(w, i, b, a)
    ensures !(Beats(w, i, a, b) && Beats(w, i, b, a))
  {
    PrecedesTotal(a, b);
  }

  lemma BeatsTransitive(w: Weights, i: nat, a: string, b: string, c: string)
    requires Beats(w, i, a, b) && Beats(w, i, b, c)
    ensures Beats(w, i, a, c)
  {
    if Precedes(a, b) && Precedes(b, c) {
      PrecedesTransitive(a, b, c);
    }
  }

  /** The best candidate has the greatest weight, and among equal weights the least address. */
  lemma {:induction false} BestByWeight(w: Weights, i: nat, candidates: set<string>, best: string)
    ensures IsBest(w, i, candidates, best) <==>
      && best in candidates
      && (forall x :: x in candidates ==> w(i, x) <= w(i, best))
      && (forall x :: x in candidates && x != best && w(i, x) == w(i, best) ==> exists n: nat :: DiffersAt(best, x, n))
  {
    forall x
      ensures Precedes(best, x) <==> exists n: nat :: DiffersAt(best, x, n)
    {
      PrecedesIsLexicographic(best, x);
    }
    hide Precedes, DiffersAt;
    if IsBest(w, i, candidates, best) {
      assert forall x :: x in candidates && x != best ==> Beats(w, i, best, x);
    } else if best in candidates {
      var x :| x in candidates && x != best && !Beats(w, i, best, x);
    }
  }

  /**
   A placement, said of the weights alone: each shard is on a node that no earlier shard has, no
   free node has a greater weight for it, and no free node of the same weight has a lesser address.
   */
  lemma {:induction false} PlacementByWeight(w: Weights, nodes: set<string>, p: seq<string>)
    ensures IsPlacement(w, nodes, p) <==> forall i {:trigger p[i]} :: 0 <= i < |p| ==>
      && p[i] in nodes && p[i] !in p[..i]
      && (forall x :: x in nodes && x !in p[..i] ==> w(i, x) <= w(i, p[i]))
      && (forall x :: x in nodes && x !in p[..i] && x != p[i] && w(i, x) == w(i, p[i]) ==> exists n: nat :: DiffersAt(p[i], x, n))
  {
    forall i: nat | i < |p|
      ensures IsBest(w, i, nodes - Elems(p[..i]), p[i]) <==>
        && p[i] in nodes && p[i] !in p[..i]
        && (forall x :: x in nodes && x !in p[..i] ==> w(i, x) <= w(i, p[i]))
        && (forall x :: x in nodes && x !in p[..i] && x != p[i] && w(i, x) == w(i, p[i]) ==> exists n: nat :: DiffersAt(p[i], x, n))
    {
      BestByWeight(w, i, nodes - Elems(p[..i]), p[i]);
      hide IsBest, DiffersAt;
      assert forall x :: x in nodes - Elems(p[..i]) <==> x in nodes && x !in p[..i];
    }
    hide IsBest, DiffersAt;
  }

  lemma BestUnique(w: Weights, i: nat, candidates: set<string>, a: string, b: string)
    requires IsBest(w, i, candidates, a) && IsBest(w, i, candidates, b)
    ensures a == b
  {
    BeatsTotal(w, i, a, b);
  }

  /** The best-so-far scan of one shard over the node list. */
  method PickBest(w: Weights, i: nat, nodes: seq<string>, taken: set<string>) returns (best: string)
    requires exists x :: x in nodes && x !in taken
    ensures IsBest(w, i, Elems(nodes) - taken, best)
  {
    var found: Option<string> := None;
    var bestWeight := 0;
    for j := 0 to |nodes|
      invariant found == None ==> forall x :: x in nodes[..j] ==> x in taken
      invariant found.Some? ==> IsBest(w, i, Elems(nodes[..j]) - taken, found.value) && bestWeight == w(i, found.value)
    {
      var node := nodes[j];
      assert nodes[..j + 1] == nodes[..j] + [node];
      ElemsAppend(nodes[..j], node);
      if node in taken {
        continue;
      }
      var weight := w(i, node);
      if found == None || weight > bestWeight || (weight == bestWeight && Precedes(node, found.value)) {
        if found.Some? {
          forall x | x in Elems(nodes[..j]) - taken && x != node
            ensures Beats(w, i, node, x)
          {
            if x != found.value {
              BeatsTransitive(w, i, node, found.value, x);
            }
          }
        }
        found := Some(node);
        bestWeight := weight;
      } else {
        BeatsTotal(w, i, node, found.value);
      }
    }
    assert nodes[..|nodes|] == nodes;
    best := found.value;
  }

  /**
   hrw_intended_nodes. Node addresses are unique in the registry, so t listed nodes are
   t different ones; that is all that is asked of the list.
   */
  method HrwIntendedNodes(w: Weights, nodes: seq<string>, t: nat) returns (r: Result<seq<string>, PlacementError>)
    requires t <= |nodes| ==> t <= |Elems(nodes)|
    ensures r.Err? <==> |nodes| < t
    ensures r.Ok? ==> |r.value| == t && IsPlacement(w, Elems(nodes), r.value)
  {
    if |nodes| < t {
      return Err(NotEnoughNodes);
    }
    var intended: seq<string> := [];
    var taken: set<string> := {};
    for i := 0 to t
      invariant |intended| == i && taken == Elems(intended)
      invariant IsPlacement(w, Elems(nodes), intended)
    {
      assert exists x :: x in nodes && x !in taken by {
        ElemsCardinality(intended);
        if forall x :: x in nodes ==> x in taken {
          SubsetCardinality(Elems(nodes), taken);
        }
      }
      var best := PickBest(w, i, nodes, taken);
      PlacementAppend(w, Elems(nodes), intended, best);
      ElemsAppend(intended, best);
      intended := intended + [best];
      taken := taken + {best};
    }
    return Ok(intended);
  }

  lemma PlacementAppend(w: Weights, nodes: set<string>, p: seq<string>, best: string)
    requires IsPlacement(w, nodes, p)
    requires IsBest(w, |p|, nodes - Elems(p), best)
    ensures IsPlacement(w, nodes, p + [best])
  {
    var q := p + [best];
    forall i | 0 <= i < |q|
      ensures IsBest(w, i, nodes - Elems(q[..i]), q[i])
    {
      assert q[..i] == p[..i];
      if i == |p| {
        assert p[..i] == p;
      }
    }
  }

  /** The nodes of a placement are distinct members of the node set. */
  lemma PlacementInjective(w: Weights, nodes: set<string>, p: seq<string>)
    requires IsPlacement(w, nodes, p)
    ensures NoDup(p) && Elems(p) <= nodes && |p| <= |nodes|
  {
    forall i, j | 0 <= i < j < |p|
      ensures p[i] != p[j]
    {
      assert p[i] in p[..j];
    }
    NoDupCardinality(p);
    SubsetCardinality(Elems(p), nodes);
  }

  /**
   The placement depends on the node set alone: it is the same for every order of the
   list, and the placement of fewer shards is a prefix of the placement of more.
   */
  lemma {:induction false} PlacementUnique(w: Weights, nodes: set<string>, p: seq<string>, q: seq<string>)
    requires IsPlacement(w, nodes, p) && IsPlacement(w, nodes, q)
    requires |p| <= |q|
    ensures p == q[..|p|]
  {
    if p == [] {
    } else {
      var n := |p| - 1;
      PlacementPrefix(w, nodes, p, n);
      PlacementUnique(w, nodes, p[..n], q);
      assert IsBest(w, n, nodes - Elems(p[..n]), p[n]);
      assert IsBest(w, n, nodes - Elems(q[..n]), q[n]);
      BestUnique(w, n, nodes - Elems(p[..n]), p[n], q[n]);
    }
  }

  lemma PlacementPrefix(w: Weights, nodes: set<string>, p: seq<string>, n: nat)
    requires IsPlacement(w, nodes, p) && n <= |p|
    ensures IsPlacement(w, nodes, p[..n])
  {
    forall i | 0 <= i < n
      ensures IsBest(w, i, nodes - Elems(p[..n][..i]), p[..n][i])
    {
      assert p[..n][..i] == p[..i];
    }
  }

  /**
   One step of the comparison with and without a node. The candidates differ by one node,
   the hole; if it is chosen, the next best becomes the new hole.
   */
  lemma HoleStep(w: Weights, i: nat, full: set<string>, hole: string, a: string, b: string) returns (next: string)
    requires hole in full
    requires IsBest(w, i, full, a) && IsBest(w, i, full - {hole}, b)
    ensures next in full - {a} && full - {hole} - {b} == full - {a} - {next}
    ensures if a == hole then b == next else b == a && next == hole
  {
    if a == hole {
      next := b;
    } else {
      BestUnique(w, i, full - {hole}, a, b);
      next := hole;
    }
  }

  /** holes[i] is the node that shards i onwards have lost, on the way from x to the last one. */
  ghost predicate IsChain(x: string, p: seq<string>, q: seq<string>, holes: seq<string>) {
    && |p| == |q|
    && |holes| == |p| + 1
    && holes[0] == x
    && (forall i {:trigger holes[i]} :: 0 <= i < |holes| ==> holes[i] !in p[..i])
    && (forall i {:trigger p[i]} :: 0 <= i < |p| ==>
          if p[i] == holes[i] then q[i] == holes[i + 1]
          else q[i] == p[i] && holes[i + 1] == holes[i])
  }

  lemma {:induction false} DisplacementChain(w: Weights, nodes: set<string>, x: string, p: seq<string>, q: seq<string>)
    returns (holes: seq<string>)
    requires x in nodes
    requires IsPlacement(w, nodes, p) && IsPlacement(w, nodes - {x}, q) && |p| == |q|
    ensures IsChain(x, p, q, holes)
    ensures holes[|p|] in nodes
    ensures nodes - {x} - Elems(q) == nodes - Elems(p) - {holes[|p|]}
  {
    if p == [] {
      holes := [x];
    } else {
      var n := |p| - 1;
      PlacementPrefix(w, nodes, p, n);
      PlacementPrefix(w, nodes - {x}, q, n);
      var before := DisplacementChain(w, nodes, x, p[..n], q[..n]);
      assert IsBest(w, n, nodes - Elems(p[..n]), p[n]);
      assert IsBest(w, n, nodes - {x} - Elems(q[..n]), q[n]);
      var next := HoleStep(w, n, nodes - Elems(p[..n]), before[n], p[n], q[n]);
      holes := before + [next];
      FreeSetStep(nodes, p, p[n], n);
      FreeSetStep(nodes - {x}, q, q[n], n);
      ChainAppend(x, p, q, before, next);
    }
  }

  lemma FreeSetStep(nodes: set<string>, p: seq<string>, a: string, n: nat)
    requires |p| == n + 1 && p[n] == a
    ensures nodes - Elems(p) == nodes - Elems(p[..n]) - {a}
  {
    assert p == p[..n] + [a];
    ElemsAppend(p[..n], a);
  }

  lemma ChainAppend(x: string, p: seq<string>, q: seq<string>, before: seq<string>, next: string)
    requires |p| == |q| > 0
    requires IsChain(x, p[..|p| - 1], q[..|p| - 1], before)
    requires next !in p
    requires var n := |p| - 1;
      if p[n] == before[n] then q[n] == next else q[n] == p[n] && next == before[n]
    ensures IsChain(x, p, q, before + [next])
  {
    var n, holes := |p| - 1, before + [next];
    forall i | 0 <= i < |holes|
      ensures holes[i] !in p[..i]
    {
      if i <= n {
        assert before[i] == holes[i] && p[..n][..i] == p[..i];
      }
    }
    forall i | 0 <= i < |p|
      ensures if p[i] == holes[i] then q[i] == holes[i + 1] else q[i] == p[i] && holes[i + 1] == holes[i]
    {
      if i < n {
        assert p[..n][i] == p[i] && q[..n][i] == q[i] && before[i] == holes[i] && before[i + 1] == holes[i + 1];
      }
    }
  }

  /** Shard j is the next shard after i whose node changed. */
  ghost predicate NextChanged(p: seq<string>, q: seq<string>, i: nat, j: nat) {
    i < j < |p| == |q| && p[j] != q[j] && forall l :: i < l < j ==> p[l] == q[l]
  }

  /** From shard i on, the hole stays until the next changed shard, which held it. */
  lemma {:induction false} HoleHolder(x: string, p: seq<string>, q: seq<string>, holes: seq<string>, i: nat, j: nat)
    requires IsChain(x, p, q, holes)
    requires i < j <= |p| && forall l :: i < l < j ==> p[l] == q[l]
    ensures holes[j] == holes[i + 1]
    ensures j < |p| && p[j] != q[j] ==> p[j] == holes[i + 1]
    decreases j
  {
    if i + 1 < j {
      HoleHolder(x, p, q, holes, i, j - 1);
      ChangedAtHole(x, p, q, holes, j - 1);
    }
  }

  lemma ChangedAtHole(x: string, p: seq<string>, q: seq<string>, holes: seq<string>, i: nat)
    requires IsChain(x, p, q, holes) && i < |p|
    ensures p[i] != q[i] <==> p[i] == holes[i]
    ensures p[i] == q[i] ==> holes[i + 1] == holes[i]
    ensures p[i] != q[i] ==> q[i] == holes[i + 1]
  {
    assert holes[i + 1] !in p[..i + 1];
    assert p[i] in p[..i + 1];
  }

  /** Every changed shard takes the node of the next changed shard; the last one takes y. */
  ghost predicate Shifted(p: seq<string>, q: seq<string>, y: string)
    requires |p| == |q|
  {
    && (forall i: nat, j: nat :: i < |p| && p[i] != q[i] && NextChanged(p, q, i, j) ==> q[i] == p[j])
    && (forall i: nat :: i < |p| && p[i] != q[i] && (forall l :: i < l < |p| ==> p[l] == q[l]) ==> q[i] == y)
  }

  lemma ChainShifts(x: string, p: seq<string>, q: seq<string>, holes: seq<string>)
    requires IsChain(x, p, q, holes)
    ensures Shifted(p, q, holes[|p|])
  {
    forall i: nat, j: nat | i < |p| && p[i] != q[i] && NextChanged(p, q, i, j)
      ensures q[i] == p[j]
    {
      ChangedAtHole(x, p, q, holes, i);
      HoleHolder(x, p, q, holes, i, j);
    }
    forall i: nat | i < |p| && p[i] != q[i] && forall l :: i < l < |p| ==> p[l] == q[l]
      ensures q[i] == holes[|p|]
    {
      ChangedAtHole(x, p, q, holes, i);
      HoleHolder(x, p, q, holes, i, |p|);
    }
  }

  /**
   Dropping node x. If x held no shard, nothing changes. Otherwise the shards before x's
   are unchanged, every changed shard takes the node of the next changed shard, the last
   changed shard takes one new node y, and the used set loses x and gains y. Read from q
   to p this is what adding a node does.
   */
  lemma SingleDisplacement(w: Weights, nodes: set<string>, x: string, p: seq<string>, q: seq<string>)
    returns (y: string)
    requires x in nodes
    requires IsPlacement(w, nodes, p) && IsPlacement(w, nodes - {x}, q) && |p| == |q|
    ensures x !in p ==> q == p && y == x
    ensures x in p ==> y in nodes && y !in p && Elems(q) == Elems(p) - {x} + {y}
    ensures forall c {:trigger p[c]} :: 0 <= c < |p| && p[c] == x ==> q[..c] == p[..c] && q[c] != x
    ensures Shifted(p, q, y)
  {
    var t := |p|;
    var holes := DisplacementChain(w, nodes, x, p, q);
    y := holes[t];
    ChainShifts(x, p, q, holes);
    PlacementInjective(w, nodes, p);
    PlacementInjective(w, nodes - {x}, q);
    assert p[..t] == p && q[..t] == q;
    UnchangedBefore(x, p, q, holes, t);
    forall c | 0 <= c < t && p[c] == x
      ensures q[..c] == p[..c] && q[c] != x
    {
      UnchangedBefore(x, p, q, holes, c);
      assert q[c] in Elems(q);
    }
    if x in p {
      UsedSets(nodes, x, y, Elems(p), Elems(q));
    }
  }

  lemma UsedSets(nodes: set<string>, x: string, y: string, a: set<string>, b: set<string>)
    requires a <= nodes && b <= nodes - {x} && x in a && y in nodes && y !in a
    requires nodes - {x} - b == nodes - a - {y}
    ensures b == a - {x} + {y}
  {
    forall z | z in nodes
      ensures z in b <==> z in a - {x} + {y}
    {
      assert z in nodes - {x} - b <==> z in nodes - a - {y};
    }
  }

  /** As long as x has not been met, nothing has changed. */
  lemma {:induction false} UnchangedBefore(x: string, p: seq<string>, q: seq<string>, holes: seq<string>, c: nat)
    requires IsChain(x, p, q, holes) && c <= |p|
    ensures x !in p[..c] ==> q[..c] == p[..c] && holes[c] == x
  {
    if c > 0 && x !in p[..c] {
      assert p[..c] == p[..c - 1] + [p[c - 1]];
      assert q[..c] == q[..c - 1] + [q[c - 1]];
      UnchangedBefore(x, p, q, holes, c - 1);
    }
  }

  /* ---------- When only the shard of the dropped node moves ---------- */

  /** If some shard after c changed, then so did a next one, and shard c takes over its node. */
  lemma {:induction false} NextChangedAfter(p: seq<string>, q: seq<string>, c: nat, i: nat) returns (j: nat)
    requires c < i < |p| == |q| && p[i] != q[i]
    ensures NextChanged(p, q, c, j)
    decreases i
  {
    if l :| c < l < i && p[l] != q[l] {
      j := NextChangedAfter(p, q, c, l);
    } else {
      j := i;
    }
  }

  /**
   Dropping the node of shard c moves that shard alone if and only if the best of the nodes
   that are then free for it, y, holds no other shard. The condition speaks of the placement
   before the node is dropped.
   */
  lemma OnlyLostShardMoves(w: Weights, nodes: set<string>, p: seq<string>, q: seq<string>, c: nat, y: string)
    requires c < |p| == |q| && p[c] in nodes
    requires IsPlacement(w, nodes, p) && IsPlacement(w, nodes - {p[c]}, q)
    requires IsBest(w, c, nodes - {p[c]} - Elems(p[..c]), y)
    ensures (forall i :: 0 <= i < |p| && i != c ==> q[i] == p[i]) <==> y !in p
  {
    var x := p[c];
    var last := SingleDisplacement(w, nodes, x, p, q);
    assert q[..c] == p[..c];
    assert IsBest(w, c, nodes - {x} - Elems(q[..c]), q[c]);
    BestUnique(w, c, nodes - {x} - Elems(p[..c]), q[c], y);
    PlacementInjective(w, nodes - {x}, q);
    if y !in p {
      forall i | 0 <= i < |p| && i != c
        ensures q[i] == p[i]
      {
        if i < c {
          assert q[..c][i] == p[..c][i];
        } else if q[i] != p[i] {
          var j := NextChangedAfter(p, q, c, i);
          assert false;
        }
      }
    }
  }

  /** "a" wins shard 0 by weight and "b" wins shard 1; "a" comes last for shard 1. */
  function CascadeWeight(i: nat, node: string): nat {
    if i == 0 then (if node == "a" then 3 else if node == "b" then 2 else 1)
    else (if node == "b" then 3 else if node == "c" then 2 else 1)
  }

  /** Dropping "a" moves shard 1 as well, which "a" neither held nor would have won from any node. */
  lemma OtherShardMovesToo()
    ensures IsPlacement(CascadeWeight, {"a", "b", "c"}, ["a", "b"])
    ensures IsPlacement(CascadeWeight, {"a", "b", "c"} - {"a"}, ["b", "c"])
    ensures Beats(CascadeWeight, 1, "b", "a") && Beats(CascadeWeight, 1, "c", "a")
  {
    assert "a"[0] != "b"[0] && "b"[0] != "c"[0] && "a"[0] != "c"[0];
    var p, q := ["a", "b"], ["b", "c"];
    assert p[..0] == [] && q[..0] == [] && p[..1] == ["a"] && q[..1] == ["b"];
    assert Elems(p[..1]) == {"a"} && Elems(q[..1]) == {"b"};
  }
}
