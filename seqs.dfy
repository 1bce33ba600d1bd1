/** Sequence helpers shared by every stage: the skip-on-failure loop that
    all of the pipeline's stages use, and first-maximum selection. */
module Seqs {
  import opened Wrappers

  function Min(a: int, b: int): int { if a <= b then a else b }

  function Max(a: int, b: int): int { if a >= b then a else b }

  /** Python's `s[:n]` for a non-negative `n`. */
  function Take<T>(s: seq<T>, n: nat): (r: seq<T>)
    ensures |r| == Min(|s|, n)
    ensures forall i :: 0 <= i < |r| ==> r[i] == s[i]
  {
    if n <= |s| then s[..n] else s
  }

  predicate NonDecreasing(s: seq<int>)
  {
    forall i, j :: 0 <= i <= j < |s| ==> s[i] <= s[j]
  }

  predicate StrictlyIncreasing(s: seq<int>)
  {
    forall i, j :: 0 <= i < j < |s| ==> s[i] < s[j]
  }

  predicate Distinct(s: seq<int>)
  {
    forall i, j :: 0 <= i < j < |s| ==> s[i] != s[j]
  }

  function Elements(s: seq<nat>): set<nat>
  {
    set x | x in s
  }

  /** The loop `for x in s: try: out.append(f(x)) except: continue`, with
      `f(x) == None` standing for the iteration that raised or was skipped. */
  function FilterMap<T, U>(s: seq<T>, f: T -> Option<U>): (r: seq<U>)
    ensures |r| <= |s|
  {
    if s == [] then []
    else FilterMap(s[..|s| - 1], f) + Kept1(f(s[|s| - 1]))
  }

  function Kept1<U>(o: Option<U>): seq<U>
  {
    match o
    case Some(u) => [u]
    case None => []
  }

  /** The positions of `s` whose iteration contributed to `FilterMap(s, f)`. */
  function Survivors<T, U>(s: seq<T>, f: T -> Option<U>): seq<nat>
  {
    if s == [] then []
    else Survivors(s[..|s| - 1], f) + (if f(s[|s| - 1]).Some? then [|s| - 1] else [])
  }

  /** One more iteration of the loop appends at most one element. */
  lemma FilterMapSnoc<T, U>(s: seq<T>, x: T, f: T -> Option<U>)
    ensures FilterMap(s + [x], f) == FilterMap(s, f) + Kept1(f(x))
  {
    assert (s + [x])[..|s|] == s;
  }

  /** The loop after `i + 1` iterations: what it had after `i`, plus the outcome of the next one. */
  lemma FilterMapPrefix<T, U>(s: seq<T>, i: nat, f: T -> Option<U>)
    requires i < |s|
    ensures FilterMap(s[..i + 1], f) == FilterMap(s[..i], f) + Kept1(f(s[i]))
  {
    assert s[..i + 1] == s[..i] + [s[i]];
    FilterMapSnoc(s[..i], s[i], f);
  }

  /** The survivors are listed once each, in input order, and the output holds
      exactly their results: the `k`-th output comes from the `k`-th survivor. */
  lemma {:induction false} FilterMapInOrder<T, U>(s: seq<T>, f: T -> Option<U>)
    ensures |Survivors(s, f)| == |FilterMap(s, f)|
    ensures StrictlyIncreasing(Survivors(s, f))
    ensures forall k :: 0 <= k < |Survivors(s, f)| ==>
      Survivors(s, f)[k] < |s| && f(s[Survivors(s, f)[k]]) == Some(FilterMap(s, f)[k])
    ensures forall i :: 0 <= i < |s| && f(s[i]).Some? ==> i in Survivors(s, f)
  {
    if s != [] {
      var init := s[..|s| - 1];
      FilterMapInOrder(init, f);
      forall i | 0 <= i < |init| ensures init[i] == s[i] { }
    }
  }

  /** The output is empty exactly when no iteration contributed. */
  lemma {:induction false} FilterMapEmpty<T, U>(s: seq<T>, f: T -> Option<U>)
    ensures FilterMap(s, f) == [] <==> forall i :: 0 <= i < |s| ==> f(s[i]).None?
  {
    if s != [] {
      var init := s[..|s| - 1];
      FilterMapEmpty(init, f);
      forall i | 0 <= i < |init| ensures init[i] == s[i] { }
    }
  }

  /** Index of the first maximal element. Python's `max(xs, key=...)` and
      `torch.argmax` both keep the earliest of several equal maxima. */
  function ArgMax(s: seq<real>): (k: nat)
    requires |s| > 0
    ensures k < |s|
    ensures forall j :: 0 <= j < |s| ==> s[j] <= s[k]
    ensures forall j :: 0 <= j < k ==> s[j] < s[k]
  {
    if |s| == 1 then 0
    else
      var k := ArgMax(s[..|s| - 1]);
      if s[|s| - 1] > s[k] then |s| - 1 else k
  }

  /** The first-maximum property pins the index down: ArgMax is the only index having it. */
  lemma ArgMaxUnique(s: seq<real>, k: nat)
    requires k < |s|
    requires forall j :: 0 <= j < |s| ==> s[j] <= s[k]
    requires forall j :: 0 <= j < k ==> s[j] < s[k]
    ensures k == ArgMax(s)
  {
  }
}
