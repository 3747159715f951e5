/** Shared value types. */
module Prelude {

  /** An optional value; `None` stands for SQL NULL and for JavaScript's undefined. */
  datatype Option<+T> = None | Some(value: T)

  /** The outcome of a call that may throw. */
  datatype Result<+T, +E> = Ok(value: T) | Err(error: E)

  /** No value occurs at two positions. */
  predicate Distinct<T(==)>(s: seq<T>) {
    forall i, j :: 0 <= i < j < |s| ==> s[i] != s[j]
  }

  /** The elements of `s` outside `drop`, in order. */
  function Without<T(==, !new)>(s: seq<T>, drop: set<T>): (r: seq<T>)
    ensures forall x :: x in r <==> x in s && x !in drop
    ensures Distinct(s) ==> Distinct(r)
  {
    if s == [] then []
    else
      var rest := Without(s[1..], drop);
      if s[0] in drop then rest else [s[0]] + rest
  }

  /** The elements of `s` in `keep`, in order. */
  function Within<T(==)>(s: seq<T>, keep: set<T>): (r: seq<T>)
    ensures forall i :: 0 <= i < |r| ==> r[i] in keep
  {
    if s == [] then []
    else
      var rest := Within(s[..|s| - 1], keep);
      if s[|s| - 1] in keep then rest + [s[|s| - 1]] else rest
  }

  /** The first `n` elements are in `chosen` and the others are not. */
  predicate Leads<T(==)>(s: seq<T>, chosen: set<T>, n: nat) {
    n <= |s| && forall i :: 0 <= i < |s| ==> (s[i] in chosen <==> i < n)
  }

  lemma {:induction false} LeadersFirst<T(!new)>(s: seq<T>, chosen: set<T>, n: nat)
    requires Leads(s, chosen, n)
    ensures n <= |s| && Within(s, chosen) == s[..n]
  {
    if s != [] {
      var m := |s| - 1;
      LeadersFirst(s[..m], chosen, if n < |s| then n else m);
      assert n < |s| ==> s[..m][..n] == s[..n];
      assert n == |s| ==> s[..n] == s[..m] + [s[m]];
    }
  }

  lemma {:induction false} OthersLast<T(!new)>(s: seq<T>, chosen: set<T>, n: nat)
    requires Leads(s, chosen, n)
    ensures n <= |s| && Without(s, chosen) == s[n..]
  {
    if s != [] {
      OthersLast(s[1..], chosen, if n > 0 then n - 1 else 0);
    }
  }

  lemma FrontLeads<T(!new)>(s: seq<T>, front: seq<T>, back: seq<T>, chosen: set<T>)
    requires front + back == s && (forall i :: 0 <= i < |front| ==> front[i] in chosen)
    requires forall x :: x in back ==> x !in chosen
    ensures Leads(s, chosen, |front|)
  {
    forall i | 0 <= i < |s| ensures s[i] in chosen <==> i < |front| {
      assert i >= |front| ==> s[i] == back[i - |front|] && s[i] in back;
    }
  }

  /** Moving the chosen elements to the front changes nothing exactly when they already lead. */
  lemma FrontUnmoved<T(!new)>(s: seq<T>, chosen: set<T>)
    ensures Within(s, chosen) + Without(s, chosen) == s <==> exists n: nat :: Leads(s, chosen, n)
  {
    hide Within, Without, Leads;
    if n: nat :| Leads(s, chosen, n) {
      LeadersFirst(s, chosen, n);
      OthersLast(s, chosen, n);
      assert s[..n] + s[n..] == s;
    }
    if Within(s, chosen) + Without(s, chosen) == s {
      FrontLeads(s, Within(s, chosen), Without(s, chosen), chosen);
    }
  }

  lemma {:induction false} SubsetSize<T>(a: set<T>, b: set<T>)
    requires a <= b
    ensures |a| <= |b|
  {
    if a != {} {
      var x :| x in a;
      SubsetSize(a - {x}, b - {x});
    }
  }
}
