/** List helpers behind `Array.prototype.filter` as the components and the seeder use it. */
module Lists {

  /** `xs.filter(x => x !== v)`. */
  function Without(xs: seq<string>, v: string): (r: seq<string>)
    ensures v !in r
    ensures forall x :: x in r <==> x in xs && x != v
    ensures |r| <= |xs| && (v in xs ==> |r| < |xs|)
    ensures multiset(r) == multiset(xs)[v := 0]
  {
    if xs == [] then []
    else
      assert multiset(xs) == multiset([xs[0]]) + multiset(xs[1..]) by {
        assert xs == [xs[0]] + xs[1..];
      }
      if xs[0] == v then Without(xs[1..], v) else [xs[0]] + Without(xs[1..], v)
  }

  /** Filtering distributes over concatenation, so the kept elements stay in their order. */
  lemma {:induction false} WithoutAppend(xs: seq<string>, ys: seq<string>, v: string)
    ensures Without(xs + ys, v) == Without(xs, v) + Without(ys, v)
  {
    if xs == [] {
      assert xs + ys == ys;
    } else {
      assert (xs + ys)[0] == xs[0] && (xs + ys)[1..] == xs[1..] + ys;
      WithoutAppend(xs[1..], ys, v);
    }
  }

  /** Removing a value that is not there changes nothing. */
  lemma {:induction false} WithoutAbsent(xs: seq<string>, v: string)
    requires v !in xs
    ensures Without(xs, v) == xs
  {
    if xs != [] {
      WithoutAbsent(xs[1..], v);
    }
  }

  /** `xs.filter(x => allowed.includes(x))`. */
  function KeepIn(xs: seq<string>, allowed: seq<string>): (r: seq<string>)
    ensures |r| <= |xs|
    ensures forall x :: x in r <==> x in xs && x in allowed
  {
    if xs == [] then []
    else if xs[0] in allowed then [xs[0]] + KeepIn(xs[1..], allowed)
    else KeepIn(xs[1..], allowed)
  }

  /** Filtering distributes over concatenation, so the kept values keep their order. */
  lemma {:induction false} KeepInAppend(xs: seq<string>, ys: seq<string>, allowed: seq<string>)
    ensures KeepIn(xs + ys, allowed) == KeepIn(xs, allowed) + KeepIn(ys, allowed)
  {
    if xs == [] {
      assert xs + ys == ys;
    } else {
      assert (xs + ys)[0] == xs[0] && (xs + ys)[1..] == xs[1..] + ys;
      KeepInAppend(xs[1..], ys, allowed);
    }
  }

  /** Keeping only allowed values keeps a list whose values are all allowed unchanged. */
  lemma {:induction false} KeepInAll(xs: seq<string>, allowed: seq<string>)
    requires forall x :: x in xs ==> x in allowed
    ensures KeepIn(xs, allowed) == xs
  {
    if xs != [] {
      KeepInAll(xs[1..], allowed);
    }
  }

  /** Nothing survives a filter against an empty list. */
  lemma {:induction false} KeepInNone(xs: seq<string>)
    ensures KeepIn(xs, []) == []
  {
    if xs != [] {
      KeepInNone(xs[1..]);
    }
  }

  predicate NoDuplicates(xs: seq<string>) {
    forall i, j :: 0 <= i < j < |xs| ==> xs[i] != xs[j]
  }
}
