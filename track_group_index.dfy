/**
 * The period's global track-group numbering. The catalog lists the track groups of
 * every wrapper, wrapper after wrapper; a global group index is mapped back to its
 * wrapper and to the group's index inside that wrapper by a running prefix sum.
 */
module TrackGroupIndex {
  import opened Options

  /** The IndexOutOfBoundsException getSourceAndGroup throws. */
  datatype LookupError = IndexOutOfBounds

  /** The total of a list of group counts. */
  function Sum(counts: seq<nat>): nat {
    if |counts| == 0 then 0 else Sum(counts[..|counts| - 1]) + counts[|counts| - 1]
  }

  /** How many groups the wrappers before wrapper `i` contribute. */
  function Prefix(counts: seq<nat>, i: nat): nat
    requires i <= |counts|
  {
    Sum(counts[..i])
  }

  /**
   * The lookup loop from wrapper `i` on, `total` being the groups of the wrappers already
   * passed: the first wrapper whose groups reach past `group`, and the index relative to it.
   */
  function SourceAndGroupFrom(counts: seq<nat>, group: int, i: nat, total: int): Result<(nat, int), LookupError>
    requires i <= |counts|
    decreases |counts| - i
  {
    if i == |counts| then Err(IndexOutOfBounds)
    else if group < total + counts[i] then Ok((i, group - total))
    else SourceAndGroupFrom(counts, group, i + 1, total + counts[i])
  }

  /** getSourceAndGroup over the wrappers' group counts: (wrapper index, local group index). */
  function SourceAndGroup(counts: seq<nat>, group: int): Result<(nat, int), LookupError> {
    SourceAndGroupFrom(counts, group, 0, 0)
  }

  /** The catalog: every wrapper's groups, in wrapper order. */
  function Concat<G>(groups: seq<seq<G>>): seq<G> {
    if |groups| == 0 then [] else Concat(groups[..|groups| - 1]) + groups[|groups| - 1]
  }

  function Counts<G>(groups: seq<seq<G>>): (counts: seq<nat>)
    ensures |counts| == |groups|
    ensures forall i :: 0 <= i < |groups| ==> counts[i] == |groups[i]|
  {
    seq(|groups|, i requires 0 <= i < |groups| => |groups[i]|)
  }

  // Prefix sums.

  lemma PrefixStep(counts: seq<nat>, i: nat)
    requires i < |counts|
    ensures Prefix(counts, i + 1) == Prefix(counts, i) + counts[i]
  {
    assert counts[..i + 1][..i] == counts[..i];
  }

  lemma {:induction false} PrefixMonotone(counts: seq<nat>, i: nat, j: nat)
    requires i <= j <= |counts|
    ensures Prefix(counts, i) <= Prefix(counts, j)
    decreases j - i
  {
    if i < j {
      PrefixStep(counts, i);
      PrefixMonotone(counts, i + 1, j);
    }
  }

  lemma PrefixAll(counts: seq<nat>)
    ensures Prefix(counts, |counts|) == Sum(counts)
  {
    assert counts[..|counts|] == counts;
  }

  /** A group index lies in the range of at most one wrapper. */
  lemma PrefixRangesDisjoint(counts: seq<nat>, g: int, i: nat, j: nat)
    requires i < |counts| && j < |counts|
    requires Prefix(counts, i) <= g < Prefix(counts, i + 1)
    requires Prefix(counts, j) <= g < Prefix(counts, j + 1)
    ensures i == j
  {
    if i < j {
      PrefixMonotone(counts, i + 1, j);
    } else if j < i {
      PrefixMonotone(counts, j + 1, i);
    }
  }

  // The lookup loop.

  lemma {:induction false} SourceAndGroupFromInRange(counts: seq<nat>, group: int, i: nat)
    requires i <= |counts| && Prefix(counts, i) <= group < Sum(counts)
    ensures SourceAndGroupFrom(counts, group, i, Prefix(counts, i)).Ok?
    ensures SourceAndGroupFrom(counts, group, i, Prefix(counts, i)).value.0 < |counts|
    ensures Prefix(counts, SourceAndGroupFrom(counts, group, i, Prefix(counts, i)).value.0) <= group
    ensures group < Prefix(counts, SourceAndGroupFrom(counts, group, i, Prefix(counts, i)).value.0 + 1)
    ensures SourceAndGroupFrom(counts, group, i, Prefix(counts, i)).value.1 ==
      group - Prefix(counts, SourceAndGroupFrom(counts, group, i, Prefix(counts, i)).value.0)
    decreases |counts| - i
  {
    PrefixAll(counts);
    if i < |counts| {
      PrefixStep(counts, i);
      if group >= Prefix(counts, i) + counts[i] {
        SourceAndGroupFromInRange(counts, group, i + 1);
      }
    }
  }

  lemma {:induction false} SourceAndGroupFromPastEnd(counts: seq<nat>, group: int, i: nat)
    requires i <= |counts| && Sum(counts) <= group
    ensures SourceAndGroupFrom(counts, group, i, Prefix(counts, i)).Err?
    decreases |counts| - i
  {
    if i < |counts| {
      PrefixStep(counts, i);
      PrefixMonotone(counts, i + 1, |counts|);
      PrefixAll(counts);
      SourceAndGroupFromPastEnd(counts, group, i + 1);
    }
  }

  /**
   * A global index inside the catalog maps to the one wrapper whose range holds it, and to
   * the offset into that range, which is a valid local group index of that wrapper.
   */
  lemma SourceAndGroupInRange(counts: seq<nat>, group: int)
    requires 0 <= group < Sum(counts)
    ensures SourceAndGroup(counts, group).Ok?
    ensures SourceAndGroup(counts, group).value.0 < |counts|
    ensures Prefix(counts, SourceAndGroup(counts, group).value.0) <= group < Prefix(counts, SourceAndGroup(counts, group).value.0 + 1)
    ensures SourceAndGroup(counts, group).value.1 == group - Prefix(counts, SourceAndGroup(counts, group).value.0)
    ensures 0 <= SourceAndGroup(counts, group).value.1 < counts[SourceAndGroup(counts, group).value.0]
  {
    assert counts[..0] == [];
    SourceAndGroupFromInRange(counts, group, 0);
    PrefixStep(counts, SourceAndGroup(counts, group).value.0);
  }

  /** A global index at or past the end of the catalog makes the lookup throw. */
  lemma SourceAndGroupPastEnd(counts: seq<nat>, group: int)
    requires Sum(counts) <= group
    ensures SourceAndGroup(counts, group).Err?
  {
    assert counts[..0] == [];
    SourceAndGroupFromPastEnd(counts, group, 0);
  }

  lemma {:induction false} SourceAndGroupFromBound(counts: seq<nat>, group: int, i: nat, total: int)
    requires i <= |counts|
    ensures SourceAndGroupFrom(counts, group, i, total).Ok? ==> i <= SourceAndGroupFrom(counts, group, i, total).value.0 < |counts|
    decreases |counts| - i
  {
    if i < |counts| && group >= total + counts[i] {
      SourceAndGroupFromBound(counts, group, i + 1, total + counts[i]);
    }
  }

  /** Whatever the index, a successful lookup names one of the wrappers. */
  lemma SourceAndGroupBound(counts: seq<nat>, group: int)
    ensures SourceAndGroup(counts, group).Ok? ==> SourceAndGroup(counts, group).value.0 < |counts|
  {
    SourceAndGroupFromBound(counts, group, 0, 0);
  }

  /**
   * A negative index is not rejected: as soon as there is a wrapper at all, it goes to the
   * first one, unchanged, as a negative local index.
   */
  lemma SourceAndGroupNegative(counts: seq<nat>, group: int)
    requires group < 0
    ensures SourceAndGroup(counts, group).Ok? <==> |counts| > 0
    ensures SourceAndGroup(counts, group).Ok? ==> SourceAndGroup(counts, group).value == (0, group)
  {
  }

  // The catalog.

  lemma {:induction false} ConcatLength<G>(groups: seq<seq<G>>)
    ensures |Concat(groups)| == Sum(Counts(groups))
  {
    if |groups| > 0 {
      var init := groups[..|groups| - 1];
      ConcatLength(init);
      assert Counts(groups)[..|groups| - 1] == Counts(init);
    }
  }

  lemma CountsPrefix<G>(groups: seq<seq<G>>, k: nat)
    requires k <= |groups|
    ensures Prefix(Counts(groups), k) == |Concat(groups[..k])|
  {
    assert Counts(groups)[..k] == Counts(groups[..k]);
    ConcatLength(groups[..k]);
  }

  lemma {:induction false} ConcatIndex<G>(groups: seq<seq<G>>, k: nat, l: nat)
    requires k < |groups| && l < |groups[k]|
    ensures |Concat(groups[..k])| + l < |Concat(groups)|
    ensures Concat(groups)[|Concat(groups[..k])| + l] == groups[k][l]
  {
    var n := |groups|;
    var init := groups[..n - 1];
    if k == n - 1 {
      assert groups[..k] == init;
    } else {
      assert init[..k] == groups[..k];
      ConcatIndex(init, k, l);
    }
  }

  /** The catalog of the first i + 1 wrappers extends that of the first i by wrapper i's groups. */
  lemma ConcatPrefixStep<G>(groups: seq<seq<G>>, i: nat)
    requires i < |groups|
    ensures Concat(groups[..i + 1]) == Concat(groups[..i]) + groups[i]
    ensures |Concat(groups[..i])| + |groups[i]| <= |Concat(groups)|
  {
    assert groups[..i + 1][..i] == groups[..i];
    CountsPrefix(groups, i + 1);
    PrefixMonotone(Counts(groups), i + 1, |groups|);
    PrefixAll(Counts(groups));
    ConcatLength(groups);
  }

  /**
   * The catalog entry at a global index is the group the lookup names: group `local` of
   * wrapper `i`. The catalog is as long as the wrappers' group counts add up to.
   */
  lemma CatalogLookup<G>(groups: seq<seq<G>>, group: int)
    requires 0 <= group < |Concat(groups)|
    ensures |Concat(groups)| == Sum(Counts(groups))
    ensures SourceAndGroup(Counts(groups), group).Ok?
    ensures SourceAndGroup(Counts(groups), group).value.0 < |groups|
    ensures 0 <= SourceAndGroup(Counts(groups), group).value.1 < |groups[SourceAndGroup(Counts(groups), group).value.0]|
    ensures Concat(groups)[group] ==
      groups[SourceAndGroup(Counts(groups), group).value.0][SourceAndGroup(Counts(groups), group).value.1]
  {
    ConcatLength(groups);
    SourceAndGroupInRange(Counts(groups), group);
    var i := SourceAndGroup(Counts(groups), group).value.0;
    var l := SourceAndGroup(Counts(groups), group).value.1;
    CountsPrefix(groups, i);
    ConcatIndex(groups, i, l as nat);
  }
}
