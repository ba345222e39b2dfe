/**
 Keeping count of the nodes that still wait for an attempt: each step of a run may lose the
 cause for some attempts and may make up for others.
 */
module Ledgers {
  import opened Flow

  datatype Entry = Entry(tried: set<NodeId>, lost: set<NodeId>)

  /** What is open after all steps, starting from `open`. */
  function Balance(open: set<NodeId>, es: seq<Entry>): set<NodeId> {
    if es == [] then open else Balance(open, es[..|es| - 1]) - es[|es| - 1].tried + es[|es| - 1].lost
  }

  /** No step from `from` on makes up for the node. */
  predicate Untried(es: seq<Entry>, from: nat, n: NodeId) {
    forall j | from <= j < |es| :: n !in es[j].tried
  }

  lemma UntriedMore(es: seq<Entry>, from: nat, n: NodeId)
    requires from < |es|
    ensures Untried(es, from, n) <==> Untried(es[..|es| - 1], from, n) && n !in es[|es| - 1].tried
  {
    var before := es[..|es| - 1];
    if Untried(es, from, n) {
      forall j | from <= j < |before| ensures n !in before[j].tried { assert n !in es[j].tried; }
    }
    if Untried(before, from, n) {
      forall j | from <= j < |before| ensures n !in es[j].tried { assert n !in before[j].tried; }
    }
  }

  /** Some step lost the node, and no later one made up for it. */
  predicate LostSince(es: seq<Entry>, n: NodeId) {
    exists i | 0 <= i < |es| :: n in es[i].lost && Untried(es, i + 1, n)
  }

  lemma LostMore(es: seq<Entry>, n: NodeId)
    requires es != []
    ensures LostSince(es, n) <==>
      (n in es[|es| - 1].lost || (LostSince(es[..|es| - 1], n) && n !in es[|es| - 1].tried))
  {
    var before, last := es[..|es| - 1], |es| - 1;
    if n in es[last].lost { assert Untried(es, last + 1, n); }
    if LostSince(before, n) && n !in es[last].tried {
      var i :| 0 <= i < |before| && n in before[i].lost && Untried(before, i + 1, n);
      UntriedMore(es, i + 1, n);
      assert n in es[i].lost;
    }
    if LostSince(es, n) && n !in es[last].lost {
      var i :| 0 <= i < |es| && n in es[i].lost && Untried(es, i + 1, n);
      UntriedMore(es, i + 1, n);
      assert n in before[i].lost;
    }
  }

  /** A node is open exactly if it was lost since it was last tried, or open from the start and never tried. */
  lemma {:induction false} BalanceMeaning(open: set<NodeId>, es: seq<Entry>, n: NodeId)
    ensures n in Balance(open, es) <==> LostSince(es, n) || (n in open && Untried(es, 0, n))
    decreases |es|
  {
    if es != [] {
      BalanceMeaning(open, es[..|es| - 1], n);
      LostMore(es, n);
      UntriedMore(es, 0, n);
    }
  }

  lemma {:induction false} NothingLost(es: seq<Entry>)
    requires forall e | e in es :: e.lost == {}
    ensures Balance({}, es) == {}
    decreases |es|
  {
    if es != [] {
      NothingLost(es[..|es| - 1]);
    }
  }
}
