/** The validator's recorded entries: prefixed error and warning lines, batches of them,
    and the accumulation of per-item entries over a fixed list. */
module Entries {

  datatype Option<T> = None | Some(value: T)

  const ErrorPrefix: string := "❌ ERROR: "
  const WarningPrefix: string := "⚠️  WARNING: "

  /** The line `error(msg)` records. */
  function ErrorEntry(msg: string): (r: string)
    ensures |r| == |ErrorPrefix| + |msg|
    ensures IsErrorEntry(r) && r[|ErrorPrefix|..] == msg
  {
    ErrorPrefix + msg
  }

  /** The line `warning(msg)` records. */
  function WarningEntry(msg: string): (r: string)
    ensures |r| == |WarningPrefix| + |msg|
    ensures IsWarningEntry(r) && r[|WarningPrefix|..] == msg
  {
    WarningPrefix + msg
  }

  predicate IsErrorEntry(s: string) { ErrorPrefix <= s }
  predicate IsWarningEntry(s: string) { WarningPrefix <= s }

  /** Equal strings with an equal lead have equal remainders. */
  lemma ConcatInjective(lead: string, a: string, b: string)
    requires lead + a == lead + b
    ensures a == b
  {
    assert a == (lead + a)[|lead|..];
    assert b == (lead + b)[|lead|..];
  }

  /** Equal strings with an equal tail have equal heads. */
  lemma SuffixInjective(a: string, b: string, tail: string)
    requires a + tail == b + tail
    ensures a == b
  {
    assert a == (a + tail)[..|a|];
    assert b == (b + tail)[..|b|];
  }

  /** What one check appends to the error list and to the warning list. */
  datatype Findings = Findings(errs: seq<string>, warns: seq<string>)
  {
    /** The findings of this check followed by those of the next one. */
    function Then(next: Findings): Findings
    {
      Findings(errs + next.errs, warns + next.warns)
    }
  }

  const NoFindings: Findings := Findings([], [])

  /** Helper: regrouping consecutive checks' findings leaves the combined findings unchanged. */
  lemma ThenAssoc(a: Findings, b: Findings, c: Findings)
    ensures a.Then(b).Then(c) == a.Then(b.Then(c))
  {
  }

  /** The entries a loop over `xs` appends when item `x` contributes `f(x)`, in list order. */
  function Collect<T>(xs: seq<T>, f: T -> seq<string>): seq<string>
    decreases |xs|
  {
    if xs == [] then [] else Collect(xs[..|xs| - 1], f) + f(xs[|xs| - 1])
  }

  /** One more loop iteration appends the next item's contribution. */
  lemma CollectStep<T>(xs: seq<T>, i: nat, f: T -> seq<string>)
    requires i < |xs|
    ensures Collect(xs[..i + 1], f) == Collect(xs[..i], f) + f(xs[i])
  {
    assert xs[..i + 1][..i] == xs[..i];
  }

  /** The entries appended over a prefix of the list begin the entries appended over a longer one. */
  lemma {:induction false} CollectPrefix<T>(xs: seq<T>, m: nat, n: nat, f: T -> seq<string>)
    requires m <= n <= |xs|
    ensures Collect(xs[..m], f) <= Collect(xs[..n], f)
    decreases n - m
  {
    if m < n {
      CollectPrefix(xs, m, n - 1, f);
      CollectStep(xs, n - 1, f);
    }
  }

  /** Items after position `m` that contribute nothing leave the entries of the first `m` items. */
  lemma {:induction false} CollectSilentTail<T>(xs: seq<T>, m: nat, f: T -> seq<string>)
    requires m <= |xs|
    requires forall i :: m <= i < |xs| ==> f(xs[i]) == []
    ensures Collect(xs, f) == Collect(xs[..m], f)
    decreases |xs|
  {
    if |xs| > m {
      var init := xs[..|xs| - 1];
      assert init[..m] == xs[..m];
      forall i | m <= i < |init|
        ensures f(init[i]) == []
      {
        assert init[i] == xs[i];
      }
      CollectSilentTail(init, m, f);
    } else {
      assert xs[..m] == xs;
    }
  }

  /** Two positions contributing the same single entry put it at two distinct positions of the result. */
  lemma CollectTwice<T>(xs: seq<T>, i: nat, j: nat, f: T -> seq<string>, e: string)
    requires i < j < |xs|
    requires f(xs[i]) == [e] && f(xs[j]) == [e]
    ensures exists p, q :: 0 <= p < q < |Collect(xs, f)| && Collect(xs, f)[p] == e && Collect(xs, f)[q] == e
  {
    CollectStep(xs, i, f);
    CollectStep(xs, j, f);
    CollectPrefix(xs, i + 1, j, f);
    CollectPrefix(xs, j + 1, |xs|, f);
    assert xs[..|xs|] == xs;
    var p := |Collect(xs[..i], f)|;
    var q := |Collect(xs[..j], f)|;
    assert Collect(xs, f)[p] == e && Collect(xs, f)[q] == e;
  }

  /** When each item contributes at most one entry, there are at most as many entries as items. */
  lemma {:induction false} CollectBound<T>(xs: seq<T>, f: T -> seq<string>)
    requires forall x :: |f(x)| <= 1
    ensures |Collect(xs, f)| <= |xs|
    decreases |xs|
  {
    if xs != [] {
      CollectBound(xs[..|xs| - 1], f);
    }
  }

  /** The positions of `xs` whose item contributes something. */
  function Positions<T>(xs: seq<T>, f: T -> seq<string>): set<nat>
  {
    set i: nat | i < |xs| && f(xs[i]) != []
  }

  /** When each item contributes at most one entry, there is one entry per contributing position
      (positions, not values: a repeated item contributes once per repetition). */
  lemma {:induction false} CollectLength<T>(xs: seq<T>, f: T -> seq<string>)
    requires forall x :: |f(x)| <= 1
    ensures |Collect(xs, f)| == |Positions(xs, f)|
    decreases |xs|
  {
    if xs != [] {
      var n := |xs| - 1;
      var init := xs[..n];
      CollectLength(init, f);
      var before := Positions(init, f);
      var after := Positions(xs, f);
      assert before == set i: nat | i < n && f(xs[i]) != [];
      if f(xs[n]) != [] {
        assert after == before + {n};
        assert |f(xs[n])| == 1;
      } else {
        assert after == before;
      }
    }
  }

  /** An entry is collected exactly when some item contributes it. */
  lemma {:induction false} CollectMembership<T>(xs: seq<T>, f: T -> seq<string>, s: string)
    ensures s in Collect(xs, f) <==> exists i :: 0 <= i < |xs| && s in f(xs[i])
    decreases |xs|
  {
    if xs != [] {
      var n := |xs| - 1;
      var init := xs[..n];
      CollectMembership(init, f, s);
      if exists i :: 0 <= i < |init| && s in f(init[i]) {
        var i :| 0 <= i < |init| && s in f(init[i]);
        assert init[i] == xs[i];
      }
      if exists i :: 0 <= i < |xs| && s in f(xs[i]) {
        var i :| 0 <= i < |xs| && s in f(xs[i]);
        if i < n {
          assert init[i] == xs[i];
        }
      }
    }
  }
}
