/** `Array.prototype.filter` as the model uses it: the elements a predicate
    keeps, in their order, and where they came from. */
module Lists {
  /** The elements of `xs` that `keep` accepts, in order. */
  function Filter<T>(xs: seq<T>, keep: T -> bool): seq<T>
  {
    if xs == [] then []
    else Filter(xs[..|xs| - 1], keep) + (if keep(xs[|xs| - 1]) then [xs[|xs| - 1]] else [])
  }

  /** The positions `Filter` keeps: increasing, each accepted, and every
      accepted position present. */
  function Positions<T>(xs: seq<T>, keep: T -> bool): (ks: seq<int>)
    ensures forall i :: 0 <= i < |ks| ==> 0 <= ks[i] < |xs| && keep(xs[ks[i]])
    ensures forall i, j :: 0 <= i < j < |ks| ==> ks[i] < ks[j]
    ensures forall j :: 0 <= j < |xs| && keep(xs[j]) ==> j in ks
  {
    if xs == [] then []
    else Positions(xs[..|xs| - 1], keep) + (if keep(xs[|xs| - 1]) then [|xs| - 1] else [])
  }

  /** `Filter` holds exactly the elements at the positions `Positions` lists,
      so it keeps every accepted element, drops every other one, and keeps
      their order. */
  lemma {:induction false} FilterAt<T>(xs: seq<T>, keep: T -> bool)
    ensures |Filter(xs, keep)| == |Positions(xs, keep)| <= |xs|
    ensures forall i :: 0 <= i < |Positions(xs, keep)| ==> Filter(xs, keep)[i] == xs[Positions(xs, keep)[i]]
  {
    if xs != [] {
      var init := xs[..|xs| - 1];
      FilterAt(init, keep);
      var f, ks := Filter(xs, keep), Positions(xs, keep);
      var f0, ks0 := Filter(init, keep), Positions(init, keep);
      assert f == f0 + (if keep(xs[|xs| - 1]) then [xs[|xs| - 1]] else []);
      assert ks == ks0 + (if keep(xs[|xs| - 1]) then [|xs| - 1] else []);
      forall i | 0 <= i < |ks|
        ensures f[i] == xs[ks[i]]
      {
        if i < |ks0| {
          assert f[i] == f0[i] && ks[i] == ks0[i];
          assert init[ks0[i]] == xs[ks0[i]];
        }
      }
    }
  }

  /** Every element of the filtered list is accepted, and an element is in it
      exactly when it is an accepted element of the input. */
  lemma FilterMembers<T>(xs: seq<T>, keep: T -> bool)
    ensures forall i :: 0 <= i < |Filter(xs, keep)| ==> keep(Filter(xs, keep)[i])
    ensures forall x :: x in Filter(xs, keep) <==> x in xs && keep(x)
  {
    FilterAt(xs, keep);
    var f := Filter(xs, keep);
    var ks := Positions(xs, keep);
    forall x | x in xs && keep(x)
      ensures x in f
    {
      var j :| 0 <= j < |xs| && xs[j] == x;
      var i :| 0 <= i < |ks| && ks[i] == j;
      assert f[i] == x;
    }
  }

  /** A list whose every element is accepted is left as it is. */
  lemma {:induction false} FilterAll<T>(xs: seq<T>, keep: T -> bool)
    requires forall i :: 0 <= i < |xs| ==> keep(xs[i])
    ensures Filter(xs, keep) == xs
  {
    if xs != [] {
      FilterAll(xs[..|xs| - 1], keep);
    }
  }

  /** A rejected element at the front is dropped. */
  lemma {:induction false} FilterDropFront<T>(x: T, xs: seq<T>, keep: T -> bool)
    requires !keep(x)
    ensures Filter([x] + xs, keep) == Filter(xs, keep)
  {
    if xs != [] {
      var init := xs[..|xs| - 1];
      assert ([x] + xs)[..|xs|] == [x] + init;
      FilterDropFront(x, init, keep);
    } else {
      assert ([x] + xs)[..0] == [];
    }
  }

  /** Filtering a prefix one element longer appends that element when it is
      accepted. */
  lemma FilterExtend<T>(xs: seq<T>, i: nat, keep: T -> bool)
    requires i < |xs|
    ensures Filter(xs[..i + 1], keep) == Filter(xs[..i], keep) + (if keep(xs[i]) then [xs[i]] else [])
  {
    assert xs[..i + 1][..i] == xs[..i];
  }
}
