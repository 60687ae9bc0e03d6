/**
 * A whole selection round over the wrappers, at the level of values: wrapper after
 * wrapper takes its old streams out of the owner map and binds its new ones, and writes
 * its new streams into the period's result at their positions. What the round leaves
 * behind is described wrapper-independent: which streams remain bound and to whom, and
 * where each new stream lands.
 */
module TrackSelectionRound {
  import opened Options
  import opened TrackGroupIndex
  import opened TrackSelectionDiff

  /** The owner map after the first `i` wrappers have taken their old streams and bound `outsAll[j]`. */
  function OwnersAfter<H(==), W(==)>(owners: map<H, W>, olds: seq<H>, ws: seq<W>, outsAll: seq<seq<H>>, i: nat)
    : map<H, W>
    requires i <= |ws| && i <= |outsAll|
  {
    if i == 0 then owners
    else Bind(TakeOwned(OwnersAfter(owners, olds, ws, outsAll, i - 1), olds, ws[i - 1]).1, outsAll[i - 1], ws[i - 1])
  }

  /** Position lists that fit the result and the streams written to them. */
  predicate Placeable<H>(n: nat, idxAll: seq<seq<nat>>, outsAll: seq<seq<H>>, i: nat) {
    i <= |idxAll| && i <= |outsAll| && forall j :: 0 <= j < i ==> Fits(n, idxAll[j], outsAll[j])
  }

  /** One wrapper's positions are as many as its new streams, and all inside the result. */
  predicate Fits<H>(n: nat, idx: seq<nat>, outs: seq<H>) {
    |outs| == |idx| && forall t :: 0 <= t < |idx| ==> idx[t] < n
  }

  /** The period's result after the first `i` wrappers have written their new streams. */
  function StreamsAfter<H>(streams: seq<H>, idxAll: seq<seq<nat>>, outsAll: seq<seq<H>>, i: nat): (r: seq<H>)
    requires Placeable(|streams|, idxAll, outsAll, i)
    ensures |r| == |streams|
  {
    if i == 0 then streams
    else Place(StreamsAfter(streams, idxAll, outsAll, i - 1), idxAll[i - 1], outsAll[i - 1])
  }

  /** The new streams of the first `i` wrappers are new: not old streams, not in the map, not shared. */
  predicate NewStreams<H(==), W>(owners: map<H, W>, olds: seq<H>, outsAll: seq<seq<H>>, i: nat)
    requires i <= |outsAll|
  {
    (forall j, h :: 0 <= j < i && h in outsAll[j] ==> h !in owners && h !in olds) &&
    (forall j, j', h :: 0 <= j < j' < i && h in outsAll[j] ==> h !in outsAll[j'])
  }

  lemma NewStreamsSnoc<H, W>(owners: map<H, W>, olds: seq<H>, outsAll: seq<seq<H>>, outs: seq<H>)
    requires NewStreams(owners, olds, outsAll, |outsAll|)
    requires forall h :: h in outs ==> h !in owners && h !in olds
    requires forall j, h :: 0 <= j < |outsAll| && h in outsAll[j] ==> h !in outs
    ensures NewStreams(owners, olds, outsAll + [outs], |outsAll| + 1)
  {
    var outs' := outsAll + [outs];
    assert forall j :: 0 <= j < |outsAll| ==> outs'[j] == outsAll[j];
    assert outs'[|outsAll|] == outs;
  }

  lemma NewStreamsPrefix<H, W>(owners: map<H, W>, olds: seq<H>, outsAll: seq<seq<H>>, i: nat)
    requires 0 < i <= |outsAll| && NewStreams(owners, olds, outsAll, i)
    ensures NewStreams(owners, olds, outsAll, i - 1)
  {
  }

  /**
   * An old stream's ownership by a wrapper not yet processed is what it was at the start:
   * the earlier wrappers neither take it from that wrapper nor give it to them.
   */
  lemma {:induction false} OwnersAfterKeepsOld<H, W>(owners: map<H, W>, olds: seq<H>, ws: seq<W>,
                                                   outsAll: seq<seq<H>>, i: nat, h: H, u: W)
    requires i <= |ws| && i <= |outsAll| && NewStreams(owners, olds, outsAll, i)
    requires h in olds && u !in ws[..i]
    ensures (h in OwnersAfter(owners, olds, ws, outsAll, i) && OwnersAfter(owners, olds, ws, outsAll, i)[h] == u) <==>
      (h in owners && owners[h] == u)
  {
    if i > 0 {
      var m := OwnersAfter(owners, olds, ws, outsAll, i - 1);
      var w := ws[i - 1];
      assert ws[..i] == ws[..i - 1] + [w];
      NewStreamsPrefix(owners, olds, outsAll, i);
      OwnersAfterKeepsOld(owners, olds, ws, outsAll, i - 1, h, u);
      TakeOwnedSpec(m, olds, w);
      BindSpec(TakeOwned(m, olds, w).1, outsAll[i - 1], w);
      assert h !in outsAll[i - 1];
    }
  }

  /** What a wrapper takes back is what it owned among the old streams at the start of the round. */
  lemma TakenAtStart<H, W>(owners: map<H, W>, olds: seq<H>, ws: seq<W>, outsAll: seq<seq<H>>, i: nat)
    requires i < |ws| && i <= |outsAll| && NewStreams(owners, olds, outsAll, i) && NoDuplicates(ws)
    ensures TakeOwned(OwnersAfter(owners, olds, ws, outsAll, i), olds, ws[i]).0 == TakeOwned(owners, olds, ws[i]).0
  {
    assert ws[i] !in ws[..i];
    forall h | h in olds
      ensures (h in OwnersAfter(owners, olds, ws, outsAll, i) && OwnersAfter(owners, olds, ws, outsAll, i)[h] == ws[i]) <==>
        (h in owners && owners[h] == ws[i])
    {
      OwnersAfterKeepsOld(owners, olds, ws, outsAll, i, h, ws[i]);
    }
    TakeOwnedAgree(OwnersAfter(owners, olds, ws, outsAll, i), owners, olds, ws[i]);
  }

  /**
   * A stream bound at the start of the round stays bound to the same wrapper, unless it is
   * listed as old and one of the processed wrappers owned it, in which case it is unbound.
   */
  lemma {:induction false} OwnersAfterOld<H, W>(owners: map<H, W>, olds: seq<H>, ws: seq<W>,
                                               outsAll: seq<seq<H>>, i: nat, h: H)
    requires i <= |ws| && i <= |outsAll| && NewStreams(owners, olds, outsAll, i) && NoDuplicates(ws)
    requires h in owners
    ensures !(h in olds && owners[h] in ws[..i]) ==>
      h in OwnersAfter(owners, olds, ws, outsAll, i) && OwnersAfter(owners, olds, ws, outsAll, i)[h] == owners[h]
    ensures h in olds && owners[h] in ws[..i] ==> h !in OwnersAfter(owners, olds, ws, outsAll, i)
  {
    if i > 0 {
      var m := OwnersAfter(owners, olds, ws, outsAll, i - 1);
      var w := ws[i - 1];
      assert ws[..i] == ws[..i - 1] + [w];
      NewStreamsPrefix(owners, olds, outsAll, i);
      OwnersAfterOld(owners, olds, ws, outsAll, i - 1, h);
      TakeOwnedSpec(m, olds, w);
      BindSpec(TakeOwned(m, olds, w).1, outsAll[i - 1], w);
      assert h !in outsAll[i - 1];
    }
  }

  /** A new stream of a processed wrapper is bound to that wrapper. */
  lemma {:induction false} OwnersAfterNew<H, W>(owners: map<H, W>, olds: seq<H>, ws: seq<W>,
                                               outsAll: seq<seq<H>>, i: nat, j: nat, h: H)
    requires i <= |ws| && i <= |outsAll| && NewStreams(owners, olds, outsAll, i) && NoDuplicates(ws)
    requires j < i && h in outsAll[j]
    ensures h in OwnersAfter(owners, olds, ws, outsAll, i) && OwnersAfter(owners, olds, ws, outsAll, i)[h] == ws[j]
  {
    var m := OwnersAfter(owners, olds, ws, outsAll, i - 1);
    var w := ws[i - 1];
    BindSpec(TakeOwned(m, olds, w).1, outsAll[i - 1], w);
    if j < i - 1 {
      NewStreamsPrefix(owners, olds, outsAll, i);
      OwnersAfterNew(owners, olds, ws, outsAll, i - 1, j, h);
      TakeOwnedSpec(m, olds, w);
      assert h !in outsAll[i - 1];
      assert ws[j] != w;
    }
  }

  /** Every stream bound after the round was bound at its start or is a new stream of a processed wrapper. */
  lemma {:induction false} OwnersAfterOnly<H, W>(owners: map<H, W>, olds: seq<H>, ws: seq<W>,
                                                outsAll: seq<seq<H>>, i: nat, h: H)
    requires i <= |ws| && i <= |outsAll|
    ensures h in OwnersAfter(owners, olds, ws, outsAll, i) && h !in owners ==>
      exists j :: 0 <= j < i && h in outsAll[j]
  {
    if i > 0 {
      var m := OwnersAfter(owners, olds, ws, outsAll, i - 1);
      var w := ws[i - 1];
      BindSpec(TakeOwned(m, olds, w).1, outsAll[i - 1], w);
      TakeOwnedSpec(m, olds, w);
      OwnersAfterOnly(owners, olds, ws, outsAll, i - 1, h);
    }
  }

  /**
   * After the round, each processed wrapper owns what it owned, less the old streams it
   * took back, plus its new streams; the others own what they owned.
   */
  lemma {:induction false} OwnedAfterRound<H, W>(owners: map<H, W>, olds: seq<H>, ws: seq<W>,
                                                outsAll: seq<seq<H>>, i: nat, j: nat)
    requires i <= |ws| && i <= |outsAll| && NewStreams(owners, olds, outsAll, i) && NoDuplicates(ws)
    requires forall j' :: 0 <= j' < i ==> NoDuplicates(outsAll[j'])
    requires j < |ws|
    ensures j < i ==>
      |Owned(OwnersAfter(owners, olds, ws, outsAll, i), ws[j])| ==
        |Owned(owners, ws[j])| - |TakeOwned(owners, olds, ws[j]).0| + |outsAll[j]|
    ensures j >= i ==> Owned(OwnersAfter(owners, olds, ws, outsAll, i), ws[j]) == Owned(owners, ws[j])
  {
    if i > 0 {
      var m := OwnersAfter(owners, olds, ws, outsAll, i - 1);
      var w := ws[i - 1];
      var outs := outsAll[i - 1];
      NewStreamsPrefix(owners, olds, outsAll, i);
      forall h | h in outs
        ensures h !in m
      {
        OwnersAfterOnly(owners, olds, ws, outsAll, i - 1, h);
      }
      OwnedAfterStep(m, olds, w, outs, ws[j]);
      TakenAtStart(owners, olds, ws, outsAll, i - 1);
      OwnedAfterRound(owners, olds, ws, outsAll, i - 1, j);
      OwnedAfterRound(owners, olds, ws, outsAll, i - 1, i - 1);
    }
  }

  /**
   * With all positions distinct, each new stream lands at its position and every position
   * no wrapper writes keeps its initial content.
   */
  lemma {:induction false} StreamsAfterSpec<H>(streams: seq<H>, idxAll: seq<seq<nat>>, outsAll: seq<seq<H>>, i: nat)
    requires Placeable(|streams|, idxAll, outsAll, i)
    requires forall j, t, t' :: 0 <= j < i && 0 <= t < t' < |idxAll[j]| ==> idxAll[j][t] != idxAll[j][t']
    requires forall j, j', t :: 0 <= j < j' < i && 0 <= t < |idxAll[j]| ==> idxAll[j][t] !in idxAll[j']
    ensures forall j, t :: 0 <= j < i && 0 <= t < |idxAll[j]| ==>
      StreamsAfter(streams, idxAll, outsAll, i)[idxAll[j][t]] == outsAll[j][t]
    ensures forall k :: 0 <= k < |streams| && (forall j :: 0 <= j < i ==> k !in idxAll[j]) ==>
      StreamsAfter(streams, idxAll, outsAll, i)[k] == streams[k]
  {
    if i > 0 {
      var prev := StreamsAfter(streams, idxAll, outsAll, i - 1);
      StreamsAfterSpec(streams, idxAll, outsAll, i - 1);
      PlaceSpec(prev, idxAll[i - 1], outsAll[i - 1]);
    }
  }

  // Extending a round by one wrapper.

  lemma {:induction false} OwnersAfterAgree<H, W>(owners: map<H, W>, olds: seq<H>, ws: seq<W>,
                                                 a: seq<seq<H>>, b: seq<seq<H>>, i: nat)
    requires i <= |ws| && i <= |a| && i <= |b| && forall j :: 0 <= j < i ==> a[j] == b[j]
    ensures OwnersAfter(owners, olds, ws, a, i) == OwnersAfter(owners, olds, ws, b, i)
  {
    if i > 0 {
      OwnersAfterAgree(owners, olds, ws, a, b, i - 1);
    }
  }

  lemma OwnersAfterSnoc<H, W>(owners: map<H, W>, olds: seq<H>, ws: seq<W>, outsAll: seq<seq<H>>, outs: seq<H>)
    requires |outsAll| < |ws|
    ensures OwnersAfter(owners, olds, ws, outsAll + [outs], |outsAll| + 1) ==
      Bind(TakeOwned(OwnersAfter(owners, olds, ws, outsAll, |outsAll|), olds, ws[|outsAll|]).1, outs, ws[|outsAll|])
  {
    OwnersAfterAgree(owners, olds, ws, outsAll + [outs], outsAll, |outsAll|);
  }

  lemma {:induction false} StreamsAfterAgree<H>(streams: seq<H>, idxA: seq<seq<nat>>, outsA: seq<seq<H>>,
                                               idxB: seq<seq<nat>>, outsB: seq<seq<H>>, i: nat)
    requires Placeable(|streams|, idxA, outsA, i) && Placeable(|streams|, idxB, outsB, i)
    requires forall j :: 0 <= j < i ==> idxA[j] == idxB[j] && outsA[j] == outsB[j]
    ensures StreamsAfter(streams, idxA, outsA, i) == StreamsAfter(streams, idxB, outsB, i)
  {
    if i > 0 {
      StreamsAfterAgree(streams, idxA, outsA, idxB, outsB, i - 1);
    }
  }

  lemma PlaceableSnoc<H>(n: nat, idxAll: seq<seq<nat>>, outsAll: seq<seq<H>>, idx: seq<nat>, outs: seq<H>)
    requires |idxAll| == |outsAll| && Placeable(n, idxAll, outsAll, |outsAll|) && Fits(n, idx, outs)
    ensures Placeable(n, idxAll + [idx], outsAll + [outs], |outsAll| + 1)
  {
    var idx' := idxAll + [idx];
    var outs' := outsAll + [outs];
    assert forall j :: 0 <= j < |outsAll| ==> idx'[j] == idxAll[j] && outs'[j] == outsAll[j];
    assert idx'[|outsAll|] == idx && outs'[|outsAll|] == outs;
  }

  /** `outsB` extends `outsA` (and `idxB` extends `idxA`) by wrapper n's positions and streams. */
  lemma StreamsAfterSnoc<H>(streams: seq<H>, idxA: seq<seq<nat>>, outsA: seq<seq<H>>,
                            idxB: seq<seq<nat>>, outsB: seq<seq<H>>, n: nat)
    requires Placeable(|streams|, idxA, outsA, n) && Placeable(|streams|, idxB, outsB, n + 1)
    requires forall j :: 0 <= j < n ==> idxA[j] == idxB[j] && outsA[j] == outsB[j]
    ensures StreamsAfter(streams, idxB, outsB, n + 1) == Place(StreamsAfter(streams, idxA, outsA, n), idxB[n], outsB[n])
  {
    StreamsAfterAgree(streams, idxA, outsA, idxB, outsB, n);
  }

  // The whole round.

  /**
   * After a round over all wrappers: a stream bound at the start stays bound to the same
   * wrapper unless it was listed as old, in which case it is unbound; every new stream is
   * bound to the wrapper that returned it; nothing else is bound.
   */
  lemma RoundOwners<H, W>(owners: map<H, W>, olds: seq<H>, ws: seq<W>, outsAll: seq<seq<H>>)
    requires |outsAll| == |ws| && NewStreams(owners, olds, outsAll, |ws|) && NoDuplicates(ws)
    ensures forall h :: h in owners && !(h in olds && owners[h] in ws) ==>
      h in OwnersAfter(owners, olds, ws, outsAll, |ws|) && OwnersAfter(owners, olds, ws, outsAll, |ws|)[h] == owners[h]
    ensures forall h :: h in owners && h in olds && owners[h] in ws ==> h !in OwnersAfter(owners, olds, ws, outsAll, |ws|)
    ensures forall j, h :: 0 <= j < |ws| && h in outsAll[j] ==>
      h in OwnersAfter(owners, olds, ws, outsAll, |ws|) && OwnersAfter(owners, olds, ws, outsAll, |ws|)[h] == ws[j]
    ensures forall h :: h in OwnersAfter(owners, olds, ws, outsAll, |ws|) && h !in owners ==>
      exists j :: 0 <= j < |ws| && h in outsAll[j]
  {
    assert ws[..|ws|] == ws;
    forall h | h in owners {
      OwnersAfterOld(owners, olds, ws, outsAll, |ws|, h);
    }
    forall j, h | 0 <= j < |ws| && h in outsAll[j] {
      OwnersAfterNew(owners, olds, ws, outsAll, |ws|, j, h);
    }
    forall h {
      OwnersAfterOnly(owners, olds, ws, outsAll, |ws|, h);
    }
  }

  /** After a round over all wrappers, each wrapper owns its old count, less what it took back, plus its new streams. */
  lemma RoundCounts<H, W>(owners: map<H, W>, olds: seq<H>, ws: seq<W>, outsAll: seq<seq<H>>)
    requires |outsAll| == |ws| && NewStreams(owners, olds, outsAll, |ws|) && NoDuplicates(ws)
    requires forall j :: 0 <= j < |ws| ==> NoDuplicates(outsAll[j])
    ensures forall j :: 0 <= j < |ws| ==>
      |Owned(OwnersAfter(owners, olds, ws, outsAll, |ws|), ws[j])| ==
        |Owned(owners, ws[j])| - |TakeOwned(owners, olds, ws[j]).0| + |outsAll[j]|
  {
    forall j | 0 <= j < |ws| {
      OwnedAfterRound(owners, olds, ws, outsAll, |ws|, j);
    }
  }

  /**
   * After a round over all wrappers, where wrapper `j` was handed the selections
   * `selAll[j]` by the lookup: each new stream sits at the position of the selection it
   * answers, every selection the lookup resolves holds a new stream of the wrapper that owns
   * its group, and a selection the lookup rejects keeps its starting entry.
   */
  lemma RoundPlacement<H>(counts: seq<nat>, sels: seq<TrackSelection>, start: seq<H>,
                          selAll: seq<(seq<TrackSelection>, seq<nat>)>, idxAll: seq<seq<nat>>, outsAll: seq<seq<H>>)
    requires |start| == |sels| && |selAll| == |counts| && |idxAll| == |counts| && |outsAll| == |counts|
    requires forall j :: 0 <= j < |counts| ==>
      LocalSelections(counts, sels, j) == Ok(selAll[j]) && idxAll[j] == selAll[j].1 && |outsAll[j]| == |selAll[j].0|
    ensures Placeable(|start|, idxAll, outsAll, |counts|)
    ensures forall j, t :: 0 <= j < |counts| && 0 <= t < |idxAll[j]| ==>
      StreamsAfter(start, idxAll, outsAll, |counts|)[idxAll[j][t]] == outsAll[j][t]
    ensures forall k :: 0 <= k < |sels| && SourceAndGroup(counts, sels[k].group).Ok? ==>
      SourceAndGroup(counts, sels[k].group).value.0 < |counts| &&
      StreamsAfter(start, idxAll, outsAll, |counts|)[k] in outsAll[SourceAndGroup(counts, sels[k].group).value.0]
    ensures forall k :: 0 <= k < |sels| && SourceAndGroup(counts, sels[k].group).Err? ==>
      StreamsAfter(start, idxAll, outsAll, |counts|)[k] == start[k]
  {
    var n := |counts|;
    forall j | 0 <= j < n
      ensures LocalSelectionsExact(counts, sels, j, 0, selAll[j].0, idxAll[j])
    {
      LocalSelectionsSpec(counts, sels, j);
    }
    assert forall j :: 0 <= j < n ==> Fits(|start|, idxAll[j], outsAll[j]);
    forall j, j' | 0 <= j < j' < n
      ensures forall t :: 0 <= t < |idxAll[j]| ==> idxAll[j][t] !in idxAll[j']
    {
      ExactDisjoint(counts, sels, j, j', selAll[j].0, idxAll[j], selAll[j'].0, idxAll[j']);
    }
    StreamsAfterSpec(start, idxAll, outsAll, n);
    forall k | 0 <= k < |sels| && SourceAndGroup(counts, sels[k].group).Ok?
      ensures SourceAndGroup(counts, sels[k].group).value.0 < n
      ensures StreamsAfter(start, idxAll, outsAll, n)[k] in outsAll[SourceAndGroup(counts, sels[k].group).value.0]
    {
      SourceAndGroupBound(counts, sels[k].group);
      var j := SourceAndGroup(counts, sels[k].group).value.0;
      var t :| 0 <= t < |idxAll[j]| && idxAll[j][t] == k;
      assert StreamsAfter(start, idxAll, outsAll, n)[k] == outsAll[j][t];
    }
  }
}
