/** How a list of items is cut into PDUs, and why no other cut needs fewer. */
module Batching {

  const MAX_ITEMS_PER_PDU := 20

  /** A batch holds at most twenty items, and, unless it is a single item, keeps within two budgets: a fixed cost
      per item and a cost of each item's own. */
  datatype Rule = Rule(perItem: nat, itemBudget: nat, weights: seq<nat>, weightBudget: nat)

  function Sum(w: seq<nat>, i: nat, j: nat): nat
    requires i <= j <= |w|
  {
    if i == j then 0 else Sum(w, i, j - 1) + w[j - 1]
  }

  /** Whether items `i` up to `j` may share a PDU. */
  predicate Fits(rule: Rule, i: nat, j: nat)
    requires i <= j <= |rule.weights|
  {
    && j - i <= MAX_ITEMS_PER_PDU
    && (j - i <= 1 || (rule.perItem * (j - i) <= rule.itemBudget && Sum(rule.weights, i, j) <= rule.weightBudget))
  }

  /** Grows the batch from `i` item by item for as long as the next one fits. */
  function Extend(rule: Rule, i: nat, j: nat): (e: nat)
    requires i <= j <= |rule.weights| && Fits(rule, i, j)
    ensures j <= e <= |rule.weights| && Fits(rule, i, e)
    ensures e < |rule.weights| ==> !Fits(rule, i, e + 1)
    decreases |rule.weights| - j
  {
    if j < |rule.weights| && Fits(rule, i, j + 1) then Extend(rule, i, j + 1) else j
  }

  function GreedyEnd(rule: Rule, i: nat): (e: nat)
    requires i < |rule.weights|
    ensures i < e <= |rule.weights| && Fits(rule, i, e)
  {
    Extend(rule, i, i)
  }

  /** The ends of the batches cut from item `i` on. */
  function GreedyEnds(rule: Rule, i: nat): seq<nat>
    requires i <= |rule.weights|
    decreases |rule.weights| - i
  {
    if i == |rule.weights| then [] else [GreedyEnd(rule, i)] + GreedyEnds(rule, GreedyEnd(rule, i))
  }

  /** Any way to cut the items from `i` on into consecutive batches that obey the rule. */
  predicate IsCut(rule: Rule, i: nat, ends: seq<nat>)
    requires i <= |rule.weights|
    decreases |ends|
  {
    if ends == [] then i == |rule.weights|
    else i < ends[0] <= |rule.weights| && Fits(rule, i, ends[0]) && IsCut(rule, ends[0], ends[1..])
  }

  lemma {:induction false} GreedyIsCut(rule: Rule, i: nat)
    requires i <= |rule.weights|
    ensures IsCut(rule, i, GreedyEnds(rule, i))
    decreases |rule.weights| - i
  {
    if i < |rule.weights| {
      GreedyIsCut(rule, GreedyEnd(rule, i));
    }
  }

  lemma {:induction false} SumSplit(w: seq<nat>, i: nat, k: nat, j: nat)
    requires i <= k <= j <= |w|
    ensures Sum(w, i, j) == Sum(w, i, k) + Sum(w, k, j)
    decreases j - k
  {
    if k < j {
      SumSplit(w, i, k, j - 1);
    }
  }

  /** Dropping items at either end keeps a batch within the rule. */
  lemma FitsInside(rule: Rule, i: nat, i': nat, j': nat, j: nat)
    requires i <= i' <= j' <= j <= |rule.weights| && Fits(rule, i, j)
    ensures Fits(rule, i', j')
  {
    SumSplit(rule.weights, i, i', j);
    SumSplit(rule.weights, i', j', j);
    hide Sum;
    MoreItems(rule.perItem, j' - i', j - i);
  }

  lemma MoreItems(perItem: nat, few: nat, many: nat)
    requires few <= many
    ensures perItem * few <= perItem * many
  {
  }

  /** The greedy batch reaches as far as any batch with the same or an earlier start. */
  lemma GreedyReaches(rule: Rule, i: nat, i': nat, j: nat)
    requires i <= i' < j <= |rule.weights| && Fits(rule, i, j)
    ensures GreedyEnd(rule, i') >= j
  {
    var e := GreedyEnd(rule, i');
    if e < j {
      FitsInside(rule, i, i', e + 1, j);
    }
  }

  lemma {:induction false} StaysAhead(rule: Rule, i: nat, i': nat, ends: seq<nat>)
    requires i <= i' <= |rule.weights| && IsCut(rule, i, ends)
    ensures |GreedyEnds(rule, i')| <= |ends|
    decreases |ends|
  {
    if i' < |rule.weights| {
      if ends[0] <= i' {
        StaysAhead(rule, ends[0], i', ends[1..]);
      } else {
        GreedyReaches(rule, i, i', ends[0]);
        StaysAhead(rule, ends[0], GreedyEnd(rule, i'), ends[1..]);
      }
    }
  }

  /** No admissible cut has fewer batches than the greedy one, which is itself admissible. */
  lemma GreedyIsOptimal(rule: Rule, ends: seq<nat>)
    requires IsCut(rule, 0, ends)
    ensures IsCut(rule, 0, GreedyEnds(rule, 0))
    ensures |GreedyEnds(rule, 0)| <= |ends|
  {
    GreedyIsCut(rule, 0);
    StaysAhead(rule, 0, 0, ends);
  }
}
