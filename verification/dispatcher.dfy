/**
 * The fan-in at the end of main: every token is classified by its own task,
 * the results are taken in the order in which `as_completed` hands the
 * futures over, and each truthy one is printed.
 */
module Dispatcher {
  import opened Options
  import opened Probes
  import opened Classifier

  /** The printed lines for results taken in the order given: the truthy ones, kept in order. */
  function Survivors(results: seq<Option<string>>): (printed: seq<string>)
    ensures |printed| <= |results|
    ensures forall s :: s in printed ==> s != "" && Some(s) in results
  {
    if results == [] then []
    else
      var last := results[|results| - 1];
      Survivors(results[..|results| - 1]) + (if Truthy(last) then [last.value] else [])
  }

  /** The filter keeps order: the lines for a run of results are those of its parts, in turn. */
  lemma {:induction false} SurvivorsAppend(a: seq<Option<string>>, b: seq<Option<string>>)
    ensures Survivors(a + b) == Survivors(a) + Survivors(b)
    decreases |b|
  {
    if b == [] {
      assert a + b == a;
    } else {
      var init, last := b[..|b| - 1], b[|b| - 1];
      assert b == init + [last];
      assert (a + b)[..|a + b| - 1] == a + init;
      SurvivorsAppend(a, init);
    }
  }

  /**
   * The printed lines are exactly the truthy results, one line per result,
   * duplicates included: a line `d` appears as often as `Some(d)` does, and
   * the empty line never.
   */
  lemma {:induction false} SurvivorCount(results: seq<Option<string>>)
    ensures forall d :: multiset(Survivors(results))[d] == if d == "" then 0 else multiset(results)[Some(d)]
    decreases |results|
  {
    if results != [] {
      var init, last := results[..|results| - 1], results[|results| - 1];
      SurvivorCount(init);
      assert results == init + [last];
    }
  }

  /** What is printed, as a multiset, does not depend on the order in which results arrive. */
  lemma FanInOrderIndependent(r1: seq<Option<string>>, r2: seq<Option<string>>)
    requires multiset(r1) == multiset(r2)
    ensures multiset(Survivors(r1)) == multiset(Survivors(r2))
  {
    SurvivorCount(r1);
    SurvivorCount(r2);
  }

  /** 0, 1, ..., n - 1: the submission order. */
  function Indices(n: nat): (r: seq<nat>)
    ensures |r| == n && forall i :: 0 <= i < n ==> r[i] == i
  {
    if n == 0 then [] else Indices(n - 1) + [n - 1]
  }

  /** `order` lists every submitted task exactly once: an order in which `as_completed` can hand the futures over. */
  ghost predicate IsCompletionOrder(order: seq<nat>, n: nat) {
    (forall k :: 0 <= k < |order| ==> order[k] < n) && multiset(order) == multiset(Indices(n))
  }

  /**
   * The results of the tasks named by `order`, in that order (a name outside
   * the submitted tasks, which a completion order never holds, reads as `None`).
   */
  function Pick(results: seq<Option<string>>, order: seq<nat>): (r: seq<Option<string>>)
    ensures |r| == |order|
  {
    seq(|order|, k requires 0 <= k < |order| => if order[k] < |results| then results[order[k]] else None)
  }

  lemma PickAppend(results: seq<Option<string>>, a: seq<nat>, b: seq<nat>)
    ensures Pick(results, a + b) == Pick(results, a) + Pick(results, b)
  {
  }

  /** Picking splits around any one position. */
  lemma PickSplit(results: seq<Option<string>>, t: seq<nat>, j: nat)
    requires j < |t|
    ensures multiset(Pick(results, t)) ==
      multiset(Pick(results, t[..j] + t[j + 1..])) + multiset(Pick(results, [t[j]]))
  {
    var left, right := t[..j], t[j + 1..];
    assert t == left + [t[j]] + right;
    PickAppend(results, left + [t[j]], right);
    PickAppend(results, left, [t[j]]);
    PickAppend(results, left, right);
  }

  /** Removing the element at position j of t leaves the multiset minus that element. */
  lemma RemoveAt(t: seq<nat>, j: nat)
    requires j < |t|
    ensures multiset(t[..j] + t[j + 1..]) == multiset(t) - multiset{t[j]}
  {
    assert t == t[..j] + [t[j]] + t[j + 1..];
  }

  /** Taking the results in orders that are permutations of each other permutes them. */
  lemma {:induction false} PickPermutes(results: seq<Option<string>>, s: seq<nat>, t: seq<nat>)
    requires multiset(s) == multiset(t)
    ensures multiset(Pick(results, s)) == multiset(Pick(results, t))
    decreases |s|
  {
    if s == [] {
      assert |t| == |multiset(t)| == 0;
    } else {
      var i := |s| - 1;
      var x := s[i];
      assert x in multiset(t);
      var j :| 0 <= j < |t| && t[j] == x;
      var s', t' := s[..i] + s[i + 1..], t[..j] + t[j + 1..];
      RemoveAt(s, i);
      RemoveAt(t, j);
      assert |s'| < |s|;
      PickPermutes(results, s', t');
      PickSplit(results, s, i);
      PickSplit(results, t, j);
    }
  }

  /**
   * The results of the submitted tasks, in submission order. Task i classifies
   * `domains[i]` against its own observations `envs[i]`: every task runs its
   * own `host`, `dig` and GET. Each result is `None` or the task's stripped host.
   */
  function Outcomes(domains: seq<string>, envs: seq<Env>): (r: seq<Option<string>>)
    requires |envs| == |domains|
    ensures |r| == |domains|
    ensures forall i :: 0 <= i < |domains| ==> r[i] == None || r[i] == Some(StripPort(domains[i]))
  {
    seq(|domains|, i requires 0 <= i < |domains| => ProcessDomain(domains[i], envs[i]).result)
  }

  /**
   * Classify every token and print the truthy results in the order `order` in
   * which the futures are handed over. What is printed is, as a multiset, the
   * truthy results in submission order whatever the order; when the futures
   * are taken in submission order, it is those results in input order.
   */
  method Dispatch(domains: seq<string>, envs: seq<Env>, order: seq<nat>) returns (printed: seq<string>)
    requires |envs| == |domains|
    requires IsCompletionOrder(order, |domains|)
    ensures printed == Survivors(Pick(Outcomes(domains, envs), order))
    ensures multiset(printed) == multiset(Survivors(Outcomes(domains, envs)))
    ensures order == Indices(|domains|) ==> printed == Survivors(Outcomes(domains, envs))
  {
    ghost var results := Outcomes(domains, envs);
    printed := [];
    var k := 0;
    while k < |order|
      invariant 0 <= k <= |order|
      invariant printed == Survivors(Pick(results, order[..k]))
    {
      var result := ProcessDomain(domains[order[k]], envs[order[k]]).result;
      assert order[..k + 1] == order[..k] + [order[k]];
      PickAppend(results, order[..k], [order[k]]);
      assert Pick(results, [order[k]]) == [result];
      if Truthy(result) {
        printed := printed + [result.value];
      }
      k := k + 1;
    }
    assert order[..k] == order;
    CompletionOrderPermutes(results, order);
  }

  /** The printed multiset is the same for every completion order, including submission order. */
  lemma CompletionOrderPermutes(results: seq<Option<string>>, order: seq<nat>)
    requires IsCompletionOrder(order, |results|)
    ensures multiset(Survivors(Pick(results, order))) == multiset(Survivors(results))
    ensures order == Indices(|results|) ==> Pick(results, order) == results
  {
    assert Pick(results, Indices(|results|)) == results;
    PickPermutes(results, order, Indices(|results|));
    FanInOrderIndependent(Pick(results, order), results);
  }
}
