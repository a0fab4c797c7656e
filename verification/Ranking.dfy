/**
 The busiest addresses: ORDER BY bytes DESC LIMIT keep over one row per address,
 with ties broken by the address itself. The prune recomputes this ranking
 between its deletes, so what matters is when two weighings keep the same set.
 */
module Ranking {
  import opened Text

  type Weights = map<string, int>

  predicate Beats(w: Weights, a: string, b: string)
    requires a in w && b in w
  {
    w[a] > w[b] || (w[a] == w[b] && Less(a, b))
  }

  function Beaters(w: Weights, a: string): set<string>
    requires a in w
  {
    set b | b in w && Beats(w, b, a)
  }

  function Survivors(w: Weights, keep: nat): set<string> {
    set a | a in w && |Beaters(w, a)| < keep
  }

  lemma BeatsTotal(w: Weights, a: string, b: string)
    requires a in w && b in w
    ensures a == b || Beats(w, a, b) || Beats(w, b, a)
  {
    LessTotal(a, b);
  }

  lemma BeatsAsymmetric(w: Weights, a: string, b: string)
    requires a in w && b in w && Beats(w, a, b)
    ensures !Beats(w, b, a) && a != b
  {
    if w[a] == w[b] {
      LessAsymmetric(a, b);
    }
  }

  lemma BeatsTransitive(w: Weights, a: string, b: string, c: string)
    requires a in w && b in w && c in w && Beats(w, a, b) && Beats(w, b, c)
    ensures Beats(w, a, c)
  {
    if w[a] == w[b] == w[c] {
      LessTransitive(a, b, c);
    }
  }

  lemma SubsetSize<T>(a: set<T>, b: set<T>)
    requires a <= b
    ensures |a| <= |b|
    ensures a < b ==> |a| < |b|
  {
    assert b == a + (b - a);
  }

  /** A beaten address has strictly more beaters than the one that beats it. */
  lemma BeatersGrow(w: Weights, a: string, b: string)
    requires a in w && b in w && Beats(w, a, b)
    ensures |Beaters(w, a)| < |Beaters(w, b)|
  {
    forall c | c in Beaters(w, a) ensures c in Beaters(w, b) {
      BeatsTransitive(w, c, a, b);
    }
    assert a in Beaters(w, b);
    assert a !in Beaters(w, a) by {
      if Beats(w, a, a) { BeatsAsymmetric(w, a, a); }
    }
    SubsetSize(Beaters(w, a), Beaters(w, b));
  }

  /** In a non-empty set of addresses one beats all the others. */
  lemma {:induction false} BestOf(w: Weights, s: set<string>) returns (best: string)
    requires s != {} && s <= w.Keys
    ensures best in s && forall a :: a in s && a != best ==> Beats(w, best, a)
    decreases |s|
  {
    best :| best in s;
    var rest := s - {best};
    if rest != {} {
      SubsetSize(rest, s);
      var first := best;
      var other := BestOf(w, rest);
      BeatsTotal(w, first, other);
      if Beats(w, first, other) {
        forall a | a in s && a != first ensures Beats(w, first, a) {
          assert a in rest;
          if a != other { BeatsTransitive(w, first, other, a); }
        }
      } else {
        forall a | a in s && a != other ensures Beats(w, other, a) {
          assert a == first || a in rest;
        }
        best := other;
      }
    } else {
      assert forall a :: a in s && a != best ==> a in rest;
    }
  }

  /** In a non-empty set of addresses one is beaten by all the others. */
  lemma {:induction false} WorstOf(w: Weights, s: set<string>) returns (worst: string)
    requires s != {} && s <= w.Keys
    ensures worst in s && forall a :: a in s && a != worst ==> Beats(w, a, worst)
    decreases |s|
  {
    worst :| worst in s;
    var rest := s - {worst};
    if rest != {} {
      SubsetSize(rest, s);
      var first := worst;
      var other := WorstOf(w, rest);
      BeatsTotal(w, first, other);
      if Beats(w, other, first) {
        forall a | a in s && a != first ensures Beats(w, a, first) {
          assert a in rest;
          if a != other { BeatsTransitive(w, a, other, first); }
        }
      } else {
        forall a | a in s && a != other ensures Beats(w, a, other) {
          assert a == first || a in rest;
        }
        worst := other;
      }
    } else {
      assert forall a :: a in s && a != worst ==> a in rest;
    }
  }

  /** Every survivor beats every address that does not survive. */
  lemma SurvivorsBeatTheRest(w: Weights, keep: nat, a: string, b: string)
    requires a in Survivors(w, keep) && b in w && b !in Survivors(w, keep)
    ensures Beats(w, a, b)
  {
    BeatsTotal(w, a, b);
    if Beats(w, b, a) {
      BeatersGrow(w, b, a);
    }
  }

  /** At most keep addresses survive, and exactly keep when any address is dropped. */
  lemma SurvivorCount(w: Weights, keep: nat)
    ensures |Survivors(w, keep)| <= keep
    ensures Survivors(w, keep) != w.Keys ==> |Survivors(w, keep)| == keep
  {
    var s := Survivors(w, keep);
    if s != {} {
      var worst := WorstOf(w, s);
      assert s - {worst} <= Beaters(w, worst);
      SubsetSize(s - {worst}, Beaters(w, worst));
      assert s == (s - {worst}) + {worst};
    }
    var dropped := w.Keys - s;
    if dropped != {} {
      var best := BestOf(w, dropped);
      forall a | a in Beaters(w, best) ensures a in s {
        if a in dropped {
          BeatsAsymmetric(w, a, best);
        }
      }
      SubsetSize(Beaters(w, best), s);
    }
  }

  /** w' is w with some losers' weight lowered or removed. */
  ghost predicate LowersOnly(w: Weights, w': Weights, kept: set<string>) {
    && kept <= w'.Keys <= w.Keys
    && (forall a :: a in w' ==> w'[a] <= w[a])
    && (forall a :: a in kept ==> w'[a] == w[a])
  }

  /** Lowering or removing addresses outside the top set never changes the top set. */
  lemma SurvivorsStable(w: Weights, w': Weights, keep: nat)
    requires LowersOnly(w, w', Survivors(w, keep))
    ensures Survivors(w', keep) == Survivors(w, keep)
  {
    var s := Survivors(w, keep);
    forall a | a in s ensures a in Survivors(w', keep) {
      assert Beaters(w', a) <= Beaters(w, a);
      SubsetSize(Beaters(w', a), Beaters(w, a));
    }
    forall a | a in w' && a !in s ensures a !in Survivors(w', keep) {
      SurvivorCount(w, keep);
      assert a in w && s != w.Keys;
      forall b | b in s ensures b in Beaters(w', a) {
        SurvivorsBeatTheRest(w, keep, b, a);
      }
      SubsetSize(s, Beaters(w', a));
    }
  }
}
