/** The pipeline shape both derives share: walk the members in declaration
    order, drop the skipped ones (`Iterator::filter`), and map each remaining
    member through a step that may fail (`Iterator::map` with a panicking
    `expect`, or a darling decode of each member). */
module Members {
  import opened Wrappers

  /** The members that are not skipped, in declaration order. */
  function Kept<M>(ms: seq<M>, skipped: M -> bool): (r: seq<M>)
    ensures |r| <= |ms|
    ensures forall k :: 0 <= k < |r| ==> !skipped(r[k]) && r[k] in ms
  {
    if ms == [] then []
    else if skipped(ms[0]) then Kept(ms[1..], skipped)
    else [ms[0]] + Kept(ms[1..], skipped)
  }

  /** The positions of the members that are not skipped. */
  ghost function RetainedIndices<M>(ms: seq<M>, skipped: M -> bool): set<int>
  {
    set i | 0 <= i < |ms| && !skipped(ms[i])
  }

  /** Where the kept member at index `i` lands in the output: the number of
      kept members before it. */
  function Rank<M>(ms: seq<M>, skipped: M -> bool, i: nat): nat
    requires i <= |ms|
  {
    |Kept(ms[..i], skipped)|
  }

  /** Filtering a concatenation filters each part. */
  lemma {:induction false} KeptAppend<M>(a: seq<M>, b: seq<M>, skipped: M -> bool)
    ensures Kept(a + b, skipped) == Kept(a, skipped) + Kept(b, skipped)
  {
    if a == [] {
      assert a + b == b;
    } else {
      assert (a + b)[0] == a[0];
      assert (a + b)[1..] == a[1..] + b;
      KeptAppend(a[1..], b, skipped);
    }
  }

  /** Each kept member appears in the output, at its rank. */
  lemma KeptAt<M>(ms: seq<M>, skipped: M -> bool, i: nat)
    requires i < |ms| && !skipped(ms[i])
    ensures Rank(ms, skipped, i) < |Kept(ms, skipped)|
    ensures Kept(ms, skipped)[Rank(ms, skipped, i)] == ms[i]
    ensures Rank(ms, skipped, i) == |set j | 0 <= j < i && !skipped(ms[j])|
  {
    KeptCount(ms[..i], skipped);
    assert RetainedIndices(ms[..i], skipped) == set j | 0 <= j < i && !skipped(ms[j]);
    var rest := [ms[i]] + ms[i + 1..];
    assert ms == ms[..i] + rest;
    KeptAppend(ms[..i], rest, skipped);
    assert rest[0] == ms[i] && rest[1..] == ms[i + 1..];
  }

  /** Order preservation: a kept member is placed before every member that
      follows it, however many skipped members lie between them. */
  lemma RankMonotone<M>(ms: seq<M>, skipped: M -> bool, i: nat, j: nat)
    requires i < j <= |ms| && !skipped(ms[i])
    ensures Rank(ms, skipped, i) < Rank(ms, skipped, j)
  {
    assert ms[..j] == ms[..i] + ms[i..j];
    KeptAppend(ms[..i], ms[i..j], skipped);
    assert ms[i..j][0] == ms[i];
  }

  /** The rank of the member after the first one, in terms of the tail. */
  lemma RankStep<M>(ms: seq<M>, skipped: M -> bool, i: nat)
    requires i < |ms|
    ensures Rank(ms, skipped, i + 1) == (if skipped(ms[0]) then 0 else 1) + Rank(ms[1..], skipped, i)
  {
    var p := ms[..i + 1];
    assert p[0] == ms[0];
    assert p[1..] == ms[1..][..i];
  }

  /** Every output position is the rank of some kept member: the output holds
      nothing but kept members. */
  lemma {:induction false} KeptSurjective<M>(ms: seq<M>, skipped: M -> bool, k: nat)
    requires k < |Kept(ms, skipped)|
    ensures exists i: nat :: i < |ms| && !skipped(ms[i]) && Rank(ms, skipped, i) == k
  {
    if !skipped(ms[0]) && k == 0 {
      assert ms[..0] == [];
      assert Rank(ms, skipped, 0) == 0;
    } else {
      var k' := if skipped(ms[0]) then k else k - 1;
      KeptSurjective(ms[1..], skipped, k');
      var i': nat :| i' < |ms[1..]| && !skipped(ms[1..][i']) && Rank(ms[1..], skipped, i') == k';
      RankStep(ms, skipped, i');
      assert ms[i' + 1] == ms[1..][i'];
    }
  }

  /** The output length is the number of members that are not skipped. */
  lemma {:induction false} KeptCount<M>(ms: seq<M>, skipped: M -> bool)
    ensures |Kept(ms, skipped)| == |RetainedIndices(ms, skipped)|
  {
    if ms == [] {
      assert RetainedIndices(ms, skipped) == {};
    } else {
      var n := |ms| - 1;
      var p := ms[..n];
      assert ms == p + [ms[n]];
      KeptAppend(p, [ms[n]], skipped);
      KeptCount(p, skipped);
      assert [ms[n]][1..] == [];
      var extra: set<int> := if skipped(ms[n]) then {} else {n};
      assert RetainedIndices(ms, skipped) == RetainedIndices(p, skipped) + extra;
      assert n !in RetainedIndices(p, skipped);
    }
  }

  /** The output is empty exactly when every member is skipped. */
  lemma {:induction false} KeptEmptyIff<M>(ms: seq<M>, skipped: M -> bool)
    ensures Kept(ms, skipped) == [] <==> forall i :: 0 <= i < |ms| ==> skipped(ms[i])
  {
    if ms != [] {
      KeptEmptyIff(ms[1..], skipped);
      assert forall i :: 1 <= i < |ms| ==> ms[i] == ms[1..][i - 1];
    }
  }

  /** The output is the whole member list exactly when nothing is skipped. */
  lemma {:induction false} KeptAllIff<M>(ms: seq<M>, skipped: M -> bool)
    ensures Kept(ms, skipped) == ms <==> forall i :: 0 <= i < |ms| ==> !skipped(ms[i])
  {
    if ms != [] {
      KeptAllIff(ms[1..], skipped);
      assert forall i :: 1 <= i < |ms| ==> ms[i] == ms[1..][i - 1];
      if skipped(ms[0]) {
        assert |Kept(ms[1..], skipped)| < |ms|;
      }
    }
  }

  /** Applies a step that may fail to every member, in order, stopping at the
      first failure (a lazily collected iterator whose map panics, or darling
      decoding each member). */
  function TryMap<A, B, E>(xs: seq<A>, f: A -> Result<B, E>): (r: Result<seq<B>, E>)
    ensures r.Ok? <==> forall i :: 0 <= i < |xs| ==> f(xs[i]).Ok?
    ensures r.Ok? ==> |r.value| == |xs| && forall i :: 0 <= i < |xs| ==> r.value[i] == f(xs[i]).value
    ensures r.Err? ==> exists i :: 0 <= i < |xs| && f(xs[i]) == Err(r.error) && forall j :: 0 <= j < i ==> f(xs[j]).Ok?
  {
    if xs == [] then Ok([])
    else match f(xs[0])
      case Err(e) => Err(e)
      case Ok(y) =>
        match TryMap(xs[1..], f)
        case Err(e) =>
          assert forall i :: 1 <= i < |xs| ==> xs[i] == xs[1..][i - 1];
          Err(e)
        case Ok(ys) => Ok([y] + ys)
  }

  /** Two member lists on which the step agrees pointwise give the same result. */
  lemma {:induction false} TryMapPointwise<A, B, E>(xs: seq<A>, ys: seq<A>, f: A -> Result<B, E>)
    requires |xs| == |ys|
    requires forall i :: 0 <= i < |xs| ==> f(xs[i]) == f(ys[i])
    ensures TryMap(xs, f) == TryMap(ys, f)
  {
    if xs != [] {
      assert f(xs[0]) == f(ys[0]);
      assert forall i :: 0 <= i < |xs| - 1 ==> xs[1..][i] == xs[i + 1] && ys[1..][i] == ys[i + 1];
      TryMapPointwise(xs[1..], ys[1..], f);
    }
  }
}
