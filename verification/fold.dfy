/** The scalar merge policy: every merger walks its source records in order
    and keeps the last value that is not `None` ("last present wins"); one
    place keeps the first instead. */
module Fold {
  import opened Wrappers

  /** One step of the scalar merge: a present candidate replaces the
      current value, an absent one leaves it alone. */
  function MoreInteresting<T>(current: Option<T>, candidate: Option<T>): (r: Option<T>)
    ensures candidate.None? ==> r == current
    ensures current.None? ==> r == candidate
    ensures r.None? <==> current.None? && candidate.None?
  {
    if candidate.Some? then candidate else current
  }

  /** `r` is what a last-present-wins scan of `xs` must produce: `None`
      exactly when every entry is `None`, otherwise an entry after which
      every entry is `None`. */
  ghost predicate IsLastPresent<T>(xs: seq<Option<T>>, r: Option<T>) {
    && (r.None? <==> forall i :: 0 <= i < |xs| ==> xs[i].None?)
    && (r.Some? ==> exists i :: 0 <= i < |xs| && xs[i] == r &&
                       forall j :: i < j < |xs| ==> xs[j].None?)
  }

  /** `r` is what a first-present-wins scan of `xs` must produce. */
  ghost predicate IsFirstPresent<T>(xs: seq<Option<T>>, r: Option<T>) {
    && (r.None? <==> forall i :: 0 <= i < |xs| ==> xs[i].None?)
    && (r.Some? ==> exists i :: 0 <= i < |xs| && xs[i] == r &&
                       forall j :: 0 <= j < i ==> xs[j].None?)
  }

  /** The loop `for x in xs: if x is not None: v = x`, started from `None`. */
  function LastPresent<T>(xs: seq<Option<T>>): (r: Option<T>)
    ensures IsLastPresent(xs, r)
  {
    if |xs| == 0 then None
    else
      var prefix := LastPresent(xs[..|xs| - 1]);
      assert forall j :: 0 <= j < |xs| - 1 ==> xs[..|xs| - 1][j] == xs[j];
      MoreInteresting(prefix, xs[|xs| - 1])
  }

  /** The loop `for x in xs: v = x; if v is not None: break`. */
  function FirstPresent<T>(xs: seq<Option<T>>): (r: Option<T>)
    ensures IsFirstPresent(xs, r)
  {
    if |xs| == 0 then None
    else if xs[0].Some? then xs[0]
    else
      var rest := FirstPresent(xs[1..]);
      assert forall j :: 1 <= j < |xs| ==> xs[1..][j - 1] == xs[j];
      rest
  }

  /** The present values of `xs`, in order (collecting into a list every
      value that is not `None`). */
  function Present<T>(xs: seq<Option<T>>): (r: seq<T>)
    ensures |r| <= |xs|
  {
    if |xs| == 0 then []
    else if xs[0].Some? then [xs[0].value] + Present(xs[1..])
    else Present(xs[1..])
  }

  /** `Present` invents nothing and misses nothing: each value it returns
      is present in `xs`, and each present entry of `xs` is returned. */
  lemma {:induction false} PresentMembers<T>(xs: seq<Option<T>>)
    ensures forall k :: 0 <= k < |Present(xs)| ==> Some(Present(xs)[k]) in xs
    ensures forall i :: 0 <= i < |xs| && xs[i].Some? ==> xs[i].value in Present(xs)
  {
    if |xs| > 0 {
      var rest := xs[1..];
      PresentMembers(rest);
      assert forall i :: 1 <= i < |xs| ==> xs[i] == rest[i - 1];
      assert forall x :: x in rest ==> x in xs;
    }
  }

  /** The indices of the present entries of `xs`, in increasing order. */
  function PresentIndices<T>(xs: seq<Option<T>>): (r: seq<nat>)
    ensures forall k :: 0 <= k < |r| ==> r[k] < |xs| && xs[r[k]].Some?
  {
    if |xs| == 0 then []
    else
      var rest := PresentIndices(xs[..|xs| - 1]);
      if xs[|xs| - 1].Some? then rest + [|xs| - 1] else rest
  }

  /** `PresentIndices` lists every present index, in increasing order. */
  lemma {:induction false} PresentIndicesComplete<T>(xs: seq<Option<T>>)
    ensures forall i :: 0 <= i < |xs| && xs[i].Some? ==> i in PresentIndices(xs)
    ensures forall k, l :: 0 <= k < l < |PresentIndices(xs)| ==> PresentIndices(xs)[k] < PresentIndices(xs)[l]
  {
    if |xs| > 0 {
      var init := xs[..|xs| - 1];
      PresentIndicesComplete(init);
      assert forall i :: 0 <= i < |init| ==> init[i] == xs[i];
    }
  }

  /** `Present` keeps exactly the present entries, in input order: its
      k-th value is the entry at the k-th present index. */
  lemma {:induction false} PresentIsOrderedSelection<T>(xs: seq<Option<T>>)
    ensures |Present(xs)| == |PresentIndices(xs)|
    ensures forall k :: 0 <= k < |Present(xs)| ==>
              Present(xs)[k] == xs[PresentIndices(xs)[k]].value
  {
    if |xs| > 0 {
      var init := xs[..|xs| - 1];
      var x := xs[|xs| - 1];
      PresentIsOrderedSelection(init);
      PresentSnoc(init, x);
      assert xs == init + [x];
      var p, p0 := Present(xs), Present(init);
      var ix, ix0 := PresentIndices(xs), PresentIndices(init);
      assert ix == ix0 + (if x.Some? then [|xs| - 1] else []);
      assert p == p0 + (if x.Some? then [x.value] else []);
      forall k | 0 <= k < |p|
        ensures p[k] == xs[ix[k]].value
      {
        if k < |p0| {
          assert p[k] == p0[k] && ix[k] == ix0[k];
          assert xs[ix0[k]] == init[ix0[k]];
        } else {
          assert p[k] == x.value && ix[k] == |xs| - 1;
        }
      }
    }
  }

  /** Appending one entry to the input appends its value, if any, to the
      output of `Present`. */
  lemma {:induction false} PresentSnoc<T>(xs: seq<Option<T>>, x: Option<T>)
    ensures Present(xs + [x]) == Present(xs) + (if x.Some? then [x.value] else [])
  {
    if |xs| == 0 {
      assert xs + [x] == [x];
      assert [x][1..] == [];
    } else {
      assert (xs + [x])[1..] == xs[1..] + [x];
      PresentSnoc(xs[1..], x);
    }
  }

  /** `Present` distributes over concatenation. */
  lemma {:induction false} PresentAppend<T>(a: seq<Option<T>>, b: seq<Option<T>>)
    ensures Present(a + b) == Present(a) + Present(b)
  {
    if |a| > 0 {
      assert (a + b)[1..] == a[1..] + b;
      PresentAppend(a[1..], b);
    } else {
      assert a + b == b;
    }
  }

  /** First-wins is the first of the present values. */
  lemma {:induction false} FirstPresentIsHead<T>(xs: seq<Option<T>>)
    ensures |Present(xs)| == 0 <==> FirstPresent(xs).None?
    ensures |Present(xs)| > 0 ==> FirstPresent(xs) == Some(Present(xs)[0])
  {
    if |xs| > 0 && xs[0].None? {
      FirstPresentIsHead(xs[1..]);
    }
  }

  /** Last-wins is the last of the present values. */
  lemma {:induction false} LastPresentIsEnd<T>(xs: seq<Option<T>>)
    ensures |Present(xs)| == 0 <==> LastPresent(xs).None?
    ensures |Present(xs)| > 0 ==> LastPresent(xs) == Some(Present(xs)[|Present(xs)| - 1])
  {
    if |xs| > 0 {
      var init := xs[..|xs| - 1];
      var last := xs[|xs| - 1];
      assert xs == init + [last];
      PresentSnoc(init, last);
      LastPresentIsEnd(init);
    }
  }

  /** Folding a one-element list returns that element unchanged. */
  lemma LastPresentSingleton<T>(x: Option<T>)
    ensures LastPresent([x]) == x
    ensures FirstPresent([x]) == x
  {
    assert [x][..0] == [];
    assert [x][1..] == [];
  }

  /** An absent candidate never overrides: inserting `None` anywhere
      leaves the last-present fold unchanged. */
  lemma {:induction false} LastPresentIgnoresNone<T>(a: seq<Option<T>>, b: seq<Option<T>>)
    ensures LastPresent(a + [None] + b) == LastPresent(a + b)
  {
    if |b| == 0 {
      assert a + [None] + b == a + [None];
      assert a + b == a;
      assert (a + [None])[..|a|] == a;
    } else {
      var b' := b[..|b| - 1];
      assert (a + [None] + b)[..|a + [None] + b| - 1] == a + [None] + b';
      assert (a + b)[..|a + b| - 1] == a + b';
      LastPresentIgnoresNone(a, b');
    }
  }

  /** The present entry with no present entry after it is the result of
      last-wins: a later source overrides every earlier one. */
  lemma LastPresentAt<T>(xs: seq<Option<T>>, i: nat)
    requires i < |xs| && xs[i].Some?
    requires forall j :: i < j < |xs| ==> xs[j].None?
    ensures LastPresent(xs) == xs[i]
  {
    var r := LastPresent(xs);
    var k :| 0 <= k < |xs| && xs[k] == r && forall j :: k < j < |xs| ==> xs[j].None?;
    assert !(k < i) && !(i < k);
  }

  /** The present entry with no present entry before it is the result of
      first-wins. */
  lemma FirstPresentAt<T>(xs: seq<Option<T>>, i: nat)
    requires i < |xs| && xs[i].Some?
    requires forall j :: 0 <= j < i ==> xs[j].None?
    ensures FirstPresent(xs) == xs[i]
  {
    var r := FirstPresent(xs);
    var k :| 0 <= k < |xs| && xs[k] == r && forall j :: 0 <= j < k ==> xs[j].None?;
    assert !(k < i) && !(i < k);
  }

  // ---------------------------------------------------------------------
  // Nested collection loops

  /** The concatenation of `xss` in order: the list a nested loop
      `for xs in xss: for x in xs: out.append(x)` builds. */
  function Flatten<T>(xss: seq<seq<T>>): seq<T> {
    if |xss| == 0 then [] else Flatten(xss[..|xss| - 1]) + xss[|xss| - 1]
  }

  /** The sum of the lengths of `xss`. */
  function TotalLength<T>(xss: seq<seq<T>>): nat {
    if |xss| == 0 then 0 else TotalLength(xss[..|xss| - 1]) + |xss[|xss| - 1]|
  }

  lemma {:induction false} FlattenLength<T>(xss: seq<seq<T>>)
    ensures |Flatten(xss)| == TotalLength(xss)
  {
    if |xss| > 0 {
      FlattenLength(xss[..|xss| - 1]);
    }
  }

  /** An element is collected exactly when it occurs in one of the inner
      lists. */
  lemma {:induction false} FlattenMembership<T>(xss: seq<seq<T>>, x: T)
    ensures x in Flatten(xss) <==> exists i :: 0 <= i < |xss| && x in xss[i]
  {
    if |xss| > 0 {
      var init := xss[..|xss| - 1];
      FlattenMembership(init, x);
      assert forall i :: 0 <= i < |init| ==> init[i] == xss[i];
      if x in xss[|xss| - 1] {
        assert x in Flatten(xss);
      }
    }
  }

  /** Flattening distributes over concatenation of the outer list. */
  lemma {:induction false} FlattenAppend<T>(xss: seq<seq<T>>, yss: seq<seq<T>>)
    ensures Flatten(xss + yss) == Flatten(xss) + Flatten(yss)
  {
    if |yss| == 0 {
      assert xss + yss == xss;
    } else {
      var init := yss[..|yss| - 1];
      FlattenAppend(xss, init);
      assert (xss + yss)[..|xss + yss| - 1] == xss + init;
      assert (xss + yss)[|xss + yss| - 1] == yss[|yss| - 1];
    }
  }

  lemma FlattenSingleton<T>(xs: seq<T>)
    ensures Flatten([xs]) == xs
  {
    assert [xs][..0] == [];
  }
}
