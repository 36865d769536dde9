/** Facts about finite sets that the protocol proofs count with. */
module Counting {

  lemma SubsetCard<T>(a: set<T>, b: set<T>)
    requires a <= b
    ensures |a| <= |b|
    ensures a != b ==> |a| < |b|
  {
    assert b == a + (b - a);
    if b - a == {} {
      assert a == b;
    }
  }

  /** The first `n` thread identifiers. */
  ghost function Ids(n: nat): (ids: set<nat>)
    ensures |ids| == n
    ensures forall k: nat :: k in ids <==> k < n
  {
    if n == 0 then {} else Ids(n - 1) + {n - 1}
  }

  /** A signal wakes at least one blocked thread, if there is one. */
  predicate GoodWake(blocked: set<nat>, wake: set<nat>) {
    wake <= blocked && (blocked != {} ==> wake != {})
  }

  /** Waking some of the blocked members makes that many more of them unblocked. */
  lemma WakeCard<T>(members: set<T>, blocked: set<T>, wake: set<T>)
    requires wake <= blocked <= members
    ensures |members - (blocked - wake)| == |members - blocked| + |wake|
    ensures wake != {} ==> |wake| >= 1
  {
    assert members - (blocked - wake) == (members - blocked) + wake;
    assert (members - blocked) * wake == {};
    if x :| x in wake {
      assert |wake| == |wake - {x}| + 1;
    }
  }

  /** Threads that occupy pairwise different slots below `n` number at most `n`. */
  lemma {:induction false} SlotBound(owners: set<nat>, slot: map<nat, nat>, n: nat)
    requires owners <= slot.Keys
    requires forall w | w in owners :: slot[w] < n
    requires forall v, w | v in owners && w in owners && v != w :: slot[v] != slot[w]
    ensures |owners| <= n
    decreases n
  {
    if owners != {} {
      var w :| w in owners;
      if n == 0 {
        assert false;
      } else if exists v :: v in owners && slot[v] == n - 1 {
        var v :| v in owners && slot[v] == n - 1;
        SlotBound(owners - {v}, slot, n - 1);
      } else {
        SlotBound(owners, slot, n - 1);
      }
    }
  }

  /** The indices at which `f` holds. */
  ghost function Where<T>(xs: seq<T>, f: T -> bool): set<nat> {
    set i: nat | i < |xs| && f(xs[i])
  }

  lemma WhereUpdate<T>(xs: seq<T>, i: nat, x: T, f: T -> bool)
    requires i < |xs|
    ensures Where(xs[i := x], f) == if f(x) then Where(xs, f) + {i} else Where(xs, f) - {i}
    ensures i in Where(xs, f) <==> f(xs[i])
  {
  }

  lemma WhereAppend<T>(xs: seq<T>, x: T, f: T -> bool)
    ensures Where(xs + [x], f) == if f(x) then Where(xs, f) + {|xs|} else Where(xs, f)
    ensures |xs| !in Where(xs, f)
  {
  }
}
