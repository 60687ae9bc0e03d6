/**
 * The value-level steps of per-wrapper track selection, over handles `H` compared by
 * identity and wrappers `W`: taking a wrapper's old streams out of the owner map,
 * re-indexing the new selections that fall to the wrapper into its local groups, and
 * writing the wrapper's new streams back at their original positions while binding
 * them to the wrapper.
 */
module TrackSelectionDiff {
  import opened Options
  import opened Seqs
  import opened TrackGroupIndex

  /** A track selection: a (global or local) group index and the selected tracks of that group. */
  datatype TrackSelection = TrackSelection(group: int, tracks: seq<int>)

  /** No element occurs again before its own position. */
  predicate NoDuplicates<H(==)>(s: seq<H>) {
    forall j :: 0 <= j < |s| ==> s[j] !in s[..j]
  }

  /** The handles the owner map assigns to `w`. */
  ghost function Owned<H, W>(owners: map<H, W>, w: W): set<H> {
    set h | h in owners && owners[h] == w
  }

  /**
   * The loop over the old streams: each stream the map assigns to `w` is removed from the
   * map and collected, in order; it yields the collected streams and the map left behind.
   */
  function TakeOwned<H(==), W(==)>(owners: map<H, W>, olds: seq<H>, w: W): (seq<H>, map<H, W>)
    decreases |olds|
  {
    if |olds| == 0 then ([], owners)
    else if olds[0] in owners && owners[olds[0]] == w then
      ([olds[0]] + TakeOwned(owners - {olds[0]}, olds[1..], w).0, TakeOwned(owners - {olds[0]}, olds[1..], w).1)
    else TakeOwned(owners, olds[1..], w)
  }

  /**
   * The loop over the new selections from index `i` on: the selections whose global group
   * falls to wrapper `wi`, re-indexed to its local groups, and their original positions.
   * A group index the lookup rejects makes the whole loop fail.
   */
  function LocalSelectionsFrom(counts: seq<nat>, sels: seq<TrackSelection>, wi: nat, i: nat)
    : Result<(seq<TrackSelection>, seq<nat>), LookupError>
    requires i <= |sels|
    decreases |sels| - i
  {
    if i == |sels| then Ok(([], []))
    else match SourceAndGroup(counts, sels[i].group)
      case Err(e) => Err(e)
      case Ok(sourceAndGroup) =>
        match LocalSelectionsFrom(counts, sels, wi, i + 1)
        case Err(e) => Err(e)
        case Ok(rest) =>
          if sourceAndGroup.0 == wi then
            Ok(([TrackSelection(sourceAndGroup.1, sels[i].tracks)] + rest.0, [i] + rest.1))
          else Ok(rest)
  }

  function LocalSelections(counts: seq<nat>, sels: seq<TrackSelection>, wi: nat)
    : Result<(seq<TrackSelection>, seq<nat>), LookupError>
  {
    LocalSelectionsFrom(counts, sels, wi, 0)
  }

  /** The write-back loop: `outs[j]` goes to position `idx[j]`, in order of `j`. */
  function Place<H>(streams: seq<H>, idx: seq<nat>, outs: seq<H>): (r: seq<H>)
    requires |outs| == |idx|
    requires forall j :: 0 <= j < |idx| ==> idx[j] < |streams|
    ensures |r| == |streams|
    decreases |outs|
  {
    if |outs| == 0 then streams
    else Place(streams, idx[..|idx| - 1], outs[..|outs| - 1])[idx[|idx| - 1] := outs[|outs| - 1]]
  }

  /** The binding loop: every new stream is put into the owner map as owned by `w`. */
  function Bind<H(==), W>(owners: map<H, W>, outs: seq<H>, w: W): map<H, W>
    decreases |outs|
  {
    if |outs| == 0 then owners else Bind(owners, outs[..|outs| - 1], w)[outs[|outs| - 1] := w]
  }

  /** The wrappers with a positive selected-track count, in wrapper order. */
  function Enabled<W>(ws: seq<W>, counts: seq<int>): seq<W>
    requires |counts| == |ws|
  {
    if |ws| == 0 then [] else (if counts[0] > 0 then [ws[0]] else []) + Enabled(ws[1..], counts[1..])
  }

  // Taking the old streams.

  /**
   * The collected streams are exactly the listed streams `w` owned, each once; the map left
   * behind is the old one without them.
   */
  lemma {:induction false} TakeOwnedSpec<H, W>(owners: map<H, W>, olds: seq<H>, w: W)
    ensures forall h :: h in TakeOwned(owners, olds, w).0 ==> h in olds && h in owners && owners[h] == w
    ensures forall h :: h in olds && h in owners && owners[h] == w ==> h in TakeOwned(owners, olds, w).0
    ensures NoDuplicates(TakeOwned(owners, olds, w).0)
    ensures forall h :: h in TakeOwned(owners, olds, w).1 ==> h in owners && h !in TakeOwned(owners, olds, w).0
    ensures forall h :: h in owners && h !in TakeOwned(owners, olds, w).0 ==> h in TakeOwned(owners, olds, w).1
    ensures forall h :: h in TakeOwned(owners, olds, w).1 ==> TakeOwned(owners, olds, w).1[h] == owners[h]
    decreases |olds|
  {
    if |olds| > 0 {
      var o := olds[0];
      assert forall h :: h in olds <==> h == o || h in olds[1..];
      if o in owners && owners[o] == w {
        TakeOwnedSpec(owners - {o}, olds[1..], w);
        var rest := TakeOwned(owners - {o}, olds[1..], w).0;
        assert forall j :: 0 <= j < |rest| ==> ([o] + rest)[j + 1] == rest[j];
        var left := TakeOwned(owners, olds, w).1;
        assert left == TakeOwned(owners - {o}, olds[1..], w).1;
        forall h | h in left
          ensures h in owners && left[h] == owners[h]
        {
          assert h in TakeOwned(owners - {o}, olds[1..], w).1;
          assert h in owners - {o};
          assert (owners - {o})[h] == owners[h];
        }
      } else {
        TakeOwnedSpec(owners, olds[1..], w);
      }
    }
  }

  /** When no stream is taken, the map is left as it was. */
  lemma TakeOwnedNothing<H, W>(owners: map<H, W>, olds: seq<H>, w: W)
    requires |TakeOwned(owners, olds, w).0| == 0
    ensures TakeOwned(owners, olds, w).1 == owners
  {
    var rest := TakeOwned(owners, olds, w).1;
    TakeOwnedSpec(owners, olds, w);
    assert rest.Keys == owners.Keys;
  }

  /** Only listed streams are removed, so the map agrees with the old one off the list. */
  lemma TakeOwnedKeepsUnlisted<H, W>(owners: map<H, W>, olds: seq<H>, w: W, h: H)
    requires h in owners && (h !in olds || owners[h] != w)
    ensures h in TakeOwned(owners, olds, w).1 && TakeOwned(owners, olds, w).1[h] == owners[h]
  {
    TakeOwnedSpec(owners, olds, w);
  }

  /** What is taken depends only on which listed streams the map assigns to `w`. */
  lemma {:induction false} TakeOwnedAgree<H, W>(m1: map<H, W>, m2: map<H, W>, olds: seq<H>, w: W)
    requires forall h :: h in olds ==> ((h in m1 && m1[h] == w) <==> (h in m2 && m2[h] == w))
    ensures TakeOwned(m1, olds, w).0 == TakeOwned(m2, olds, w).0
    decreases |olds|
  {
    if |olds| > 0 {
      var o := olds[0];
      if o in m1 && m1[o] == w {
        TakeOwnedAgree(m1 - {o}, m2 - {o}, olds[1..], w);
      } else {
        TakeOwnedAgree(m1, m2, olds[1..], w);
      }
    }
  }

  // Re-indexing the new selections.

  lemma {:induction false} LocalSelectionsFromErr(counts: seq<nat>, sels: seq<TrackSelection>, wi: nat, i: nat)
    requires i <= |sels|
    ensures LocalSelectionsFrom(counts, sels, wi, i).Err? <==>
      exists k :: i <= k < |sels| && SourceAndGroup(counts, sels[k].group).Err?
    decreases |sels| - i
  {
    if i < |sels| {
      LocalSelectionsFromErr(counts, sels, wi, i + 1);
      if SourceAndGroup(counts, sels[i].group).Err? {
        assert exists k :: i <= k < |sels| && SourceAndGroup(counts, sels[k].group).Err?;
      } else if exists k :: i <= k < |sels| && SourceAndGroup(counts, sels[k].group).Err? {
        var k :| i <= k < |sels| && SourceAndGroup(counts, sels[k].group).Err?;
        assert k != i;
      }
    }
  }

  /** Position `i` and after hold exactly the selections from `i` on that fall to `wi`, re-indexed. */
  ghost predicate LocalSelectionsExact(counts: seq<nat>, sels: seq<TrackSelection>, wi: nat, i: nat,
                                       locals: seq<TrackSelection>, idx: seq<nat>)
  {
    |locals| == |idx| &&
    (forall j :: 0 <= j < |idx| ==> i <= idx[j] < |sels|) &&
    (forall j, j' :: 0 <= j < j' < |idx| ==> idx[j] < idx[j']) &&
    (forall j :: 0 <= j < |idx| ==>
      SourceAndGroup(counts, sels[idx[j]].group).Ok? &&
      SourceAndGroup(counts, sels[idx[j]].group).value.0 == wi &&
      locals[j] == TrackSelection(SourceAndGroup(counts, sels[idx[j]].group).value.1, sels[idx[j]].tracks)) &&
    (forall k :: (i <= k < |sels| && SourceAndGroup(counts, sels[k].group).Ok? &&
                  SourceAndGroup(counts, sels[k].group).value.0 == wi) ==> k in idx)
  }

  lemma {:induction false} LocalSelectionsFromOk(counts: seq<nat>, sels: seq<TrackSelection>, wi: nat, i: nat)
    requires i <= |sels| && LocalSelectionsFrom(counts, sels, wi, i).Ok?
    ensures LocalSelectionsExact(counts, sels, wi, i,
      LocalSelectionsFrom(counts, sels, wi, i).value.0, LocalSelectionsFrom(counts, sels, wi, i).value.1)
    decreases |sels| - i
  {
    if i < |sels| {
      LocalSelectionsFromOk(counts, sels, wi, i + 1);
      var rest := LocalSelectionsFrom(counts, sels, wi, i + 1).value;
      if SourceAndGroup(counts, sels[i].group).value.0 == wi {
        ConsExact(counts, sels, wi, i, rest.0, rest.1);
      }
    }
  }

  lemma ConsExact(counts: seq<nat>, sels: seq<TrackSelection>, wi: nat, i: nat,
                  locals: seq<TrackSelection>, idx: seq<nat>)
    requires i < |sels| && LocalSelectionsExact(counts, sels, wi, i + 1, locals, idx)
    requires SourceAndGroup(counts, sels[i].group).Ok? && SourceAndGroup(counts, sels[i].group).value.0 == wi
    ensures LocalSelectionsExact(counts, sels, wi, i,
      [TrackSelection(SourceAndGroup(counts, sels[i].group).value.1, sels[i].tracks)] + locals, [i] + idx)
  {
    var idx' := [i] + idx;
    assert forall j :: 0 < j < |idx'| ==> idx'[j] == idx[j - 1];
  }

  /** Two wrappers are handed disjoint positions. */
  lemma ExactDisjoint(counts: seq<nat>, sels: seq<TrackSelection>, wi: nat, wi': nat,
                      locals: seq<TrackSelection>, idx: seq<nat>, locals': seq<TrackSelection>, idx': seq<nat>)
    requires wi != wi'
    requires LocalSelectionsExact(counts, sels, wi, 0, locals, idx)
    requires LocalSelectionsExact(counts, sels, wi', 0, locals', idx')
    ensures forall t :: 0 <= t < |idx| ==> idx[t] !in idx'
  {
    forall t | 0 <= t < |idx|
      ensures idx[t] !in idx'
    {
      assert forall t' :: 0 <= t' < |idx'| ==> SourceAndGroup(counts, sels[idx'[t']].group).value.0 != wi;
    }
  }

  /**
   * The loop fails exactly when some selection's group is rejected by the lookup, whichever
   * wrapper it runs for. Otherwise it yields, in order, exactly the selections that fall to
   * wrapper `wi`, each with its group replaced by the local index and its tracks kept, and
   * their positions among all selections.
   */
  lemma LocalSelectionsSpec(counts: seq<nat>, sels: seq<TrackSelection>, wi: nat)
    ensures LocalSelections(counts, sels, wi).Err? <==>
      exists k :: 0 <= k < |sels| && SourceAndGroup(counts, sels[k].group).Err?
    ensures LocalSelections(counts, sels, wi).Ok? ==>
      LocalSelectionsExact(counts, sels, wi, 0,
        LocalSelections(counts, sels, wi).value.0, LocalSelections(counts, sels, wi).value.1)
  {
    LocalSelectionsFromErr(counts, sels, wi, 0);
    if LocalSelections(counts, sels, wi).Ok? {
      LocalSelectionsFromOk(counts, sels, wi, 0);
    }
  }

  /** The part of the characterisation a caller writing the selections back needs: one position per selection, each in range. */
  lemma LocalSelectionsShape(counts: seq<nat>, sels: seq<TrackSelection>, wi: nat)
    ensures LocalSelections(counts, sels, wi).Err? <==>
      exists k :: 0 <= k < |sels| && SourceAndGroup(counts, sels[k].group).Err?
    ensures LocalSelections(counts, sels, wi).Ok? ==>
      |LocalSelections(counts, sels, wi).value.0| == |LocalSelections(counts, sels, wi).value.1| &&
      forall j :: 0 <= j < |LocalSelections(counts, sels, wi).value.1| ==> LocalSelections(counts, sels, wi).value.1[j] < |sels|
  {
    LocalSelectionsSpec(counts, sels, wi);
  }

  /**
   * A front-to-back pass over the selections that has reached position `i` having
   * collected `locals` at positions `idx` ends where the whole loop ends.
   */
  ghost predicate Collected(counts: seq<nat>, sels: seq<TrackSelection>, wi: nat, i: nat,
                            locals: seq<TrackSelection>, idx: seq<nat>)
    requires i <= |sels|
  {
    (LocalSelections(counts, sels, wi).Err? <==> LocalSelectionsFrom(counts, sels, wi, i).Err?) &&
    (LocalSelectionsFrom(counts, sels, wi, i).Ok? ==>
      LocalSelections(counts, sels, wi).value ==
        (locals + LocalSelectionsFrom(counts, sels, wi, i).value.0, idx + LocalSelectionsFrom(counts, sels, wi, i).value.1))
  }

  lemma CollectedStart(counts: seq<nat>, sels: seq<TrackSelection>, wi: nat)
    ensures Collected(counts, sels, wi, 0, [], [])
  {
    if LocalSelections(counts, sels, wi).Ok? {
      var v := LocalSelections(counts, sels, wi).value;
      assert [] + v.0 == v.0 && [] + v.1 == v.1;
    }
  }

  lemma CollectedStep(counts: seq<nat>, sels: seq<TrackSelection>, wi: nat, i: nat,
                      locals: seq<TrackSelection>, idx: seq<nat>)
    requires i < |sels| && Collected(counts, sels, wi, i, locals, idx)
    requires SourceAndGroup(counts, sels[i].group).Ok?
    ensures SourceAndGroup(counts, sels[i].group).value.0 == wi ==>
      Collected(counts, sels, wi, i + 1,
        locals + [TrackSelection(SourceAndGroup(counts, sels[i].group).value.1, sels[i].tracks)], idx + [i])
    ensures SourceAndGroup(counts, sels[i].group).value.0 != wi ==> Collected(counts, sels, wi, i + 1, locals, idx)
  {
    var rest := LocalSelectionsFrom(counts, sels, wi, i + 1);
    if rest.Ok? && SourceAndGroup(counts, sels[i].group).value.0 == wi {
      var x := TrackSelection(SourceAndGroup(counts, sels[i].group).value.1, sels[i].tracks);
      assert locals + ([x] + rest.value.0) == (locals + [x]) + rest.value.0;
      assert idx + ([i] + rest.value.1) == (idx + [i]) + rest.value.1;
    }
  }

  lemma CollectedFails(counts: seq<nat>, sels: seq<TrackSelection>, wi: nat, i: nat,
                       locals: seq<TrackSelection>, idx: seq<nat>)
    requires i < |sels| && Collected(counts, sels, wi, i, locals, idx)
    requires SourceAndGroup(counts, sels[i].group).Err?
    ensures LocalSelections(counts, sels, wi) == Err(IndexOutOfBounds)
  {
    assert LocalSelectionsFrom(counts, sels, wi, i).Err?;
    match LocalSelections(counts, sels, wi).error {
      case IndexOutOfBounds =>
    }
  }

  lemma CollectedEnd(counts: seq<nat>, sels: seq<TrackSelection>, wi: nat,
                     locals: seq<TrackSelection>, idx: seq<nat>)
    requires Collected(counts, sels, wi, |sels|, locals, idx)
    ensures LocalSelections(counts, sels, wi) == Ok((locals, idx))
  {
    assert locals + [] == locals && idx + [] == idx;
  }

  // Writing back and binding.

  /**
   * With distinct positions, each new stream lands at its original position and every
   * other position keeps what it held.
   */
  lemma {:induction false} PlaceSpec<H>(streams: seq<H>, idx: seq<nat>, outs: seq<H>)
    requires |outs| == |idx|
    requires forall j :: 0 <= j < |idx| ==> idx[j] < |streams|
    requires forall j, j' :: 0 <= j < j' < |idx| ==> idx[j] != idx[j']
    ensures forall j :: 0 <= j < |idx| ==> Place(streams, idx, outs)[idx[j]] == outs[j]
    ensures forall k :: 0 <= k < |streams| && k !in idx ==> Place(streams, idx, outs)[k] == streams[k]
    decreases |outs|
  {
    if |outs| > 0 {
      var n := |outs|;
      PlaceSpec(streams, idx[..n - 1], outs[..n - 1]);
      assert forall k :: k in idx <==> k == idx[n - 1] || k in idx[..n - 1];
    }
  }

  /** After binding, the new streams are owned by `w` and every other entry is as it was. */
  lemma {:induction false} BindSpec<H, W>(owners: map<H, W>, outs: seq<H>, w: W)
    ensures forall h :: h in Bind(owners, outs, w) ==> h in owners || h in outs
    ensures forall h :: h in owners || h in outs ==> h in Bind(owners, outs, w)
    ensures forall h :: h in outs ==> Bind(owners, outs, w)[h] == w
    ensures forall h :: h in owners && h !in outs ==> Bind(owners, outs, w)[h] == owners[h]
    decreases |outs|
  {
    if |outs| > 0 {
      var n := |outs|;
      BindSpec(owners, outs[..n - 1], w);
      assert forall h :: h in outs <==> h == outs[n - 1] || h in outs[..n - 1];
    }
  }

  lemma PlaceStep<H>(streams: seq<H>, idx: seq<nat>, outs: seq<H>, j: nat)
    requires |outs| == |idx| && j < |idx|
    requires forall j :: 0 <= j < |idx| ==> idx[j] < |streams|
    ensures Place(streams, idx[..j + 1], outs[..j + 1]) == Place(streams, idx[..j], outs[..j])[idx[j] := outs[j]]
  {
    assert idx[..j + 1][..j] == idx[..j];
    assert outs[..j + 1][..j] == outs[..j];
  }

  lemma BindStep<H, W>(owners: map<H, W>, outs: seq<H>, w: W, j: nat)
    requires j < |outs|
    ensures Bind(owners, outs[..j + 1], w) == Bind(owners, outs[..j], w)[outs[j] := w]
  {
    assert outs[..j + 1][..j] == outs[..j];
  }

  // The enabled wrappers.

  lemma {:induction false} EnabledSnoc<W>(ws: seq<W>, counts: seq<int>, w: W, c: int)
    requires |counts| == |ws|
    ensures Enabled(ws + [w], counts + [c]) == Enabled(ws, counts) + (if c > 0 then [w] else [])
  {
    if |ws| == 0 {
      assert ws + [w] == [w] && counts + [c] == [c];
      assert [w][1..] == [] && [c][1..] == [];
    } else {
      assert (ws + [w])[1..] == ws[1..] + [w];
      assert (counts + [c])[1..] == counts[1..] + [c];
      EnabledSnoc(ws[1..], counts[1..], w, c);
    }
  }

  /** A wrapper is enabled only if it is one of the wrappers. */
  lemma {:induction false} EnabledMembers<W>(ws: seq<W>, counts: seq<int>)
    requires |counts| == |ws|
    ensures forall w :: w in Enabled(ws, counts) ==> w in ws
  {
    if |ws| > 0 {
      EnabledMembers(ws[1..], counts[1..]);
    }
  }

  /** With distinct wrappers, a wrapper is enabled exactly when its count is positive. */
  lemma {:induction false} EnabledExactly<W>(ws: seq<W>, counts: seq<int>)
    requires |counts| == |ws| && NoDuplicates(ws)
    ensures forall i :: 0 <= i < |ws| ==> (ws[i] in Enabled(ws, counts) <==> counts[i] > 0)
  {
    if |ws| > 0 {
      EnabledExactly(ws[1..], counts[1..]);
      EnabledMembers(ws[1..], counts[1..]);
      assert ws[0] !in ws[1..];
      forall i | 1 <= i < |ws|
        ensures ws[i] in Enabled(ws, counts) <==> counts[i] > 0
      {
        assert ws[i] == ws[1..][i - 1] && counts[i] == counts[1..][i - 1];
        assert ws[i] != ws[0] by {
          assert ws[..i][0] == ws[0];
        }
      }
    }
  }

  /** The enabled wrappers keep the wrapper order, and with distinct wrappers they are distinct. */
  lemma {:induction false} EnabledOrdered<W>(ws: seq<W>, counts: seq<int>)
    requires |counts| == |ws| && NoDuplicates(ws)
    ensures NoDuplicates(Enabled(ws, counts))
    ensures IsSubsequence(Enabled(ws, counts), ws)
  {
    if |ws| > 0 {
      var rest := Enabled(ws[1..], counts[1..]);
      assert forall i :: 1 <= i < |ws| ==> ws[i] == ws[1..][i - 1];
      EnabledOrdered(ws[1..], counts[1..]);
      if counts[0] > 0 {
        EnabledMembers(ws[1..], counts[1..]);
        assert ws[0] !in ws[1..];
        assert Enabled(ws, counts) == [ws[0]] + rest;
        assert forall j :: 0 <= j < |rest| ==> ([ws[0]] + rest)[j + 1] == rest[j];
        assert Enabled(ws, counts)[1..] == rest;
      } else {
        assert Enabled(ws, counts) == rest;
        SubsequenceSkip(rest, ws);
      }
    }
  }

  /**
   * With distinct wrappers, a wrapper is enabled exactly when its count is positive; the
   * enabled wrappers are distinct and keep the wrapper order.
   */
  lemma EnabledSpec<W>(ws: seq<W>, counts: seq<int>)
    requires |counts| == |ws| && NoDuplicates(ws)
    ensures forall i :: 0 <= i < |ws| ==> (ws[i] in Enabled(ws, counts) <==> counts[i] > 0)
    ensures forall w :: w in Enabled(ws, counts) ==> w in ws
    ensures NoDuplicates(Enabled(ws, counts))
    ensures IsSubsequence(Enabled(ws, counts), ws)
  {
    EnabledMembers(ws, counts);
    EnabledExactly(ws, counts);
    EnabledOrdered(ws, counts);
  }

  // Ownership counts.

  lemma {:induction false} DistinctCardinality<H>(s: seq<H>)
    requires NoDuplicates(s)
    ensures |set h | h in s| == |s|
  {
    if |s| > 0 {
      assert (set h | h in s) == {s[0]} + (set h | h in s[1..]);
      assert s[0] !in s[1..];
      DistinctCardinality(s[1..]);
    }
  }

  lemma OwnedAfterTake<H, W>(owners: map<H, W>, olds: seq<H>, w: W, w': W)
    ensures NoDuplicates(TakeOwned(owners, olds, w).0)
    ensures (set h | h in TakeOwned(owners, olds, w).0) <= Owned(owners, w)
    ensures Owned(TakeOwned(owners, olds, w).1, w) ==
      Owned(owners, w) - (set h | h in TakeOwned(owners, olds, w).0)
    ensures w' != w ==> Owned(TakeOwned(owners, olds, w).1, w') == Owned(owners, w')
  {
    var taken := TakeOwned(owners, olds, w).0;
    var rest := TakeOwned(owners, olds, w).1;
    TakeOwnedSpec(owners, olds, w);
    var takenSet := set h | h in taken;
    forall h | h in Owned(rest, w)
      ensures h in Owned(owners, w) - takenSet
    {
      assert h in rest && rest[h] == owners[h];
    }
    forall h | h in Owned(owners, w) - takenSet
      ensures h in Owned(rest, w)
    {
      assert h in rest && rest[h] == owners[h];
    }
    forall h | h in Owned(rest, w')
      ensures h in Owned(owners, w')
    {
      assert h in rest && rest[h] == owners[h];
    }
    if w' != w {
      forall h | h in Owned(owners, w')
        ensures h in Owned(rest, w')
      {
        assert h !in taken;
      }
    }
  }

  lemma OwnedAfterBind<H, W>(owners: map<H, W>, outs: seq<H>, w: W, w': W)
    ensures Owned(Bind(owners, outs, w), w) == Owned(owners, w) + (set h | h in outs)
    ensures w' != w ==> Owned(Bind(owners, outs, w), w') == Owned(owners, w') - (set h | h in outs)
  {
    var m := Bind(owners, outs, w);
    BindSpec(owners, outs, w);
    var outSet := set h | h in outs;
    forall h | h in Owned(m, w)
      ensures h in Owned(owners, w) + outSet
    {
      if h !in outs {
        assert m[h] == owners[h];
      }
    }
    forall h | h in Owned(owners, w) + outSet
      ensures h in Owned(m, w)
    {
      if h !in outs {
        assert m[h] == owners[h];
      }
    }
    if w' != w {
      forall h | h in Owned(m, w')
        ensures h in Owned(owners, w') - outSet
      {
        assert h !in outs;
        assert m[h] == owners[h];
      }
      forall h | h in Owned(owners, w') - outSet
        ensures h in Owned(m, w')
      {
        assert m[h] == owners[h];
      }
    }
  }

  lemma CountAfterStep<H>(owned: set<H>, taken: seq<H>, outs: seq<H>)
    requires NoDuplicates(taken) && NoDuplicates(outs)
    requires (set h | h in taken) <= owned
    requires forall h :: h in outs ==> h !in owned
    ensures |(owned - (set h | h in taken)) + (set h | h in outs)| == |owned| - |taken| + |outs|
  {
    DistinctCardinality(taken);
    DistinctCardinality(outs);
    assert (owned - (set h | h in taken)) * (set h | h in outs) == {};
  }

  /**
   * One wrapper's selection step changes only that wrapper's ownership: it loses the old
   * streams it was handed back and gains the new ones, so its count moves by the difference.
   */
  lemma OwnedAfterStep<H, W>(owners: map<H, W>, olds: seq<H>, w: W, outs: seq<H>, w': W)
    requires NoDuplicates(outs)
    requires forall h :: h in outs ==> h !in owners
    ensures |Owned(Bind(TakeOwned(owners, olds, w).1, outs, w), w)| ==
      |Owned(owners, w)| - |TakeOwned(owners, olds, w).0| + |outs|
    ensures w' != w ==> Owned(Bind(TakeOwned(owners, olds, w).1, outs, w), w') == Owned(owners, w')
  {
    OwnedAfterTake(owners, olds, w, w');
    OwnedAfterBind(TakeOwned(owners, olds, w).1, outs, w, w');
    CountAfterStep(Owned(owners, w), TakeOwned(owners, olds, w).0, outs);
    if w' != w {
      assert Owned(owners, w') * (set h | h in outs) == {};
    }
  }
}
