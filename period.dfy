/**
 * The HLS media period: it builds one sample-stream wrapper per rendition group of the
 * playlist, waits until every wrapper has prepared, publishes the catalog of all track
 * groups, routes track selections to the wrappers that own the selected groups, and
 * forwards seeks, buffered-position queries and release to the enabled wrappers.
 *
 * Wrappers are abstract: what a wrapper reports once prepared (its track groups, duration,
 * liveness) is a parameter of the playlist load, and a wrapper records the calls it gets.
 */
module Period {
  import opened Options
  import opened Seqs
  import opened Classification
  import opened TrackGroupIndex
  import opened Buffering
  import opened TrackSelectionDiff
  import opened TrackSelectionRound

  /** The retry count the source's shorter constructor passes to the wrappers. */
  const DEFAULT_MIN_LOADABLE_RETRY_COUNT: int := 3

  /** A track group: the formats of interchangeable tracks. */
  datatype TrackGroup = TrackGroup(formats: seq<Format>)

  /** What a prepared wrapper reports: its track groups, duration and liveness, and where it has buffered to. */
  datatype WrapperOutcome = WrapperOutcome(trackGroups: seq<TrackGroup>, durationUs: Long, isLive: bool,
                                           bufferedPositionUs: Long)

  /** The failures a playlist load can report: a parse failure or any other I/O failure. */
  datatype LoadError = ParserError | OtherIOError

  /** Loader.RETRY and Loader.DONT_RETRY_FATAL. */
  datatype LoadErrorAction = Retry | DontRetryFatal

  /** onLoadError: a playlist that does not parse is fatal, any other failure is retried. */
  function OnLoadError(error: LoadError): (action: LoadErrorAction)
    ensures action == DontRetryFatal <==> error.ParserError?
    ensures action == Retry <==> !error.ParserError?
  {
    match error
    case ParserError => DontRetryFatal
    case OtherIOError => Retry
  }

  /** A sample stream handed to a renderer; compared by identity. */
  class SampleStream {
    constructor () {}
  }

  /** One selectTracks call the period made on a wrapper, and the streams it got back. */
  datatype SelectCall = SelectCall(wrapper: SampleStreamWrapper, oldStreams: seq<SampleStream>,
                                   selections: seq<TrackSelection>, isFirst: bool, newStreams: seq<SampleStream>)

  /** The shared timestamp-adjuster provider; only its resets are observed. */
  class TimestampAdjusterProvider {
    var resets: nat

    constructor ()
      ensures resets == 0
    {
      resets := 0;
    }

    method Reset()
      modifies this
      ensures resets == old(resets) + 1
    {
      resets := resets + 1;
    }
  }

  /**
   * A sample-stream wrapper, reduced to what the period sees of it. Besides its
   * configuration it is built with the period's start position, its retry count and the
   * shared timestamp-adjuster provider its chunk source uses.
   */
  class SampleStreamWrapper {
    const config: WrapperConfig
    const positionUs: Long
    const minLoadableRetryCount: int
    const timestampAdjusterProvider: TimestampAdjusterProvider
    const trackGroups: seq<TrackGroup>
    const durationUs: Long
    const isLive: bool
    var bufferedPositionUs: Long
    var prepareCalls: nat
    var seeks: seq<Long>
    var released: bool

    constructor (config: WrapperConfig, positionUs: Long, minLoadableRetryCount: int,
                 timestampAdjusterProvider: TimestampAdjusterProvider, outcome: WrapperOutcome)
      ensures this.config == config && this.positionUs == positionUs
      ensures this.minLoadableRetryCount == minLoadableRetryCount
      ensures this.timestampAdjusterProvider == timestampAdjusterProvider
      ensures trackGroups == outcome.trackGroups
      ensures durationUs == outcome.durationUs && isLive == outcome.isLive
      ensures bufferedPositionUs == outcome.bufferedPositionUs
      ensures prepareCalls == 0 && seeks == [] && !released
    {
      this.config := config;
      this.positionUs := positionUs;
      this.minLoadableRetryCount := minLoadableRetryCount;
      this.timestampAdjusterProvider := timestampAdjusterProvider;
      trackGroups := outcome.trackGroups;
      durationUs := outcome.durationUs;
      isLive := outcome.isLive;
      bufferedPositionUs := outcome.bufferedPositionUs;
      prepareCalls := 0;
      seeks := [];
      released := false;
    }

    method Prepare()
      modifies this`prepareCalls
      ensures prepareCalls == old(prepareCalls) + 1
    {
      prepareCalls := prepareCalls + 1;
    }

    /** Returns one new, distinct stream per selection. */
    method SelectTracks(olds: seq<SampleStream>, sels: seq<TrackSelection>, isFirst: bool)
      returns (streams: seq<SampleStream>)
      ensures |streams| == |sels| && NoDuplicates(streams)
      ensures forall j :: 0 <= j < |streams| ==> fresh(streams[j])
    {
      streams := [];
      while |streams| < |sels|
        invariant |streams| <= |sels| && NoDuplicates(streams)
        invariant forall j :: 0 <= j < |streams| ==> fresh(streams[j])
      {
        var s := new SampleStream();
        streams := streams + [s];
      }
    }

    method SeekTo(positionUs: Long)
      modifies this`seeks
      ensures seeks == old(seeks) + [positionUs]
    {
      seeks := seeks + [positionUs];
    }

    method Release()
      modifies this`released
      ensures released
    {
      released := true;
    }
  }

  /** The track groups of each wrapper, in wrapper order. */
  function GroupsOf(ws: seq<SampleStreamWrapper>): (groups: seq<seq<TrackGroup>>)
    ensures |groups| == |ws|
    ensures forall i :: 0 <= i < |ws| ==> groups[i] == ws[i].trackGroups
  {
    seq(|ws|, i requires 0 <= i < |ws| => ws[i].trackGroups)
  }

  /** The wrappers' group counts, which the lookup walks. */
  function GroupCounts(ws: seq<SampleStreamWrapper>): seq<nat> {
    Counts(GroupsOf(ws))
  }

  /** Whether a wrapper's selectTracks is called, rather than skipped for lack of change. */
  predicate Performs(seenFirstTrackSelection: bool, taken: seq<SampleStream>, locals: seq<TrackSelection>) {
    !seenFirstTrackSelection || |taken| > 0 || |locals| > 0
  }

  /** The buffered positions of the given wrappers, in order. */
  function Positions(ws: seq<SampleStreamWrapper>): (ps: seq<Long>)
    reads set w | w in ws
    ensures |ps| == |ws|
    ensures forall i :: 0 <= i < |ws| ==> ps[i] == ws[i].bufferedPositionUs
  {
    seq(|ws|, i reads set w | w in ws requires 0 <= i < |ws| => ws[i].bufferedPositionUs)
  }

  /** The counting loop of onPrepared: the total number of track groups over all wrappers. */
  method TotalTrackGroupCount(ws: seq<SampleStreamWrapper>) returns (total: nat)
    ensures total == |Concat(GroupsOf(ws))|
  {
    ghost var counts := Counts(GroupsOf(ws));
    total := 0;
    for i := 0 to |ws|
      invariant total == Prefix(counts, i)
    {
      PrefixStep(counts, i);
      total := total + |ws[i].trackGroups|;
    }
    PrefixAll(counts);
    ConcatLength(GroupsOf(ws));
  }

  /** The inner copying loop of onPrepared: one wrapper's groups go to the array from `start` on. */
  method CopyGroups(trackGroupArray: array<TrackGroup>, start: nat, groups: seq<TrackGroup>)
    requires start + |groups| <= trackGroupArray.Length
    modifies trackGroupArray
    ensures trackGroupArray[..start + |groups|] == old(trackGroupArray[..start]) + groups
  {
    for j := 0 to |groups|
      invariant trackGroupArray[..start + j] == old(trackGroupArray[..start]) + groups[..j]
    {
      trackGroupArray[start + j] := groups[j];
      assert groups[..j + 1] == groups[..j] + [groups[j]];
    }
    assert groups[..|groups|] == groups;
  }

  /**
   * The catalog loop of onPrepared: the wrappers' track groups are counted, then copied
   * into one array, wrapper after wrapper.
   */
  method BuildCatalog(ws: seq<SampleStreamWrapper>) returns (catalog: seq<TrackGroup>)
    ensures catalog == Concat(GroupsOf(ws))
  {
    ghost var groups := GroupsOf(ws);
    var total := TotalTrackGroupCount(ws);
    var trackGroupArray := new TrackGroup[total](_ => TrackGroup([]));
    var trackGroupIndex := 0;
    for i := 0 to |ws|
      invariant trackGroupIndex == |Concat(groups[..i])| <= total
      invariant trackGroupArray[..trackGroupIndex] == Concat(groups[..i])
    {
      ConcatPrefixStep(groups, i);
      CopyGroups(trackGroupArray, trackGroupIndex, ws[i].trackGroups);
      trackGroupIndex := trackGroupIndex + |ws[i].trackGroups|;
    }
    assert groups[..|ws|] == groups;
    catalog := trackGroupArray[..];
  }

  /**
   * A wrapper as built for `config` with start position `positionUs`, retry count
   * `retryCount` and adjuster provider `provider`, reporting `outcome`, before any
   * selection, seek or release.
   */
  predicate Initial(w: SampleStreamWrapper, config: WrapperConfig, positionUs: Long, retryCount: int,
                    provider: TimestampAdjusterProvider, outcome: WrapperOutcome)
    reads w`seeks, w`released
  {
    w.config == config && w.positionUs == positionUs && w.minLoadableRetryCount == retryCount &&
    w.timestampAdjusterProvider == provider && w.trackGroups == outcome.trackGroups &&
    w.durationUs == outcome.durationUs && w.isLive == outcome.isLive &&
    w.seeks == [] && !w.released
  }

  /** The wrapper-building loop of onLoadCompleted: one fresh, unprepared wrapper per configuration. */
  method NewWrappers(configs: seq<WrapperConfig>, positionUs: Long, retryCount: int,
                     provider: TimestampAdjusterProvider, outcome: WrapperConfig -> WrapperOutcome,
                     ghost owners: map<SampleStream, SampleStreamWrapper>)
    returns (ws: seq<SampleStreamWrapper>)
    ensures |ws| == |configs| && NoDuplicates(ws)
    ensures forall i :: 0 <= i < |ws| ==> Owned(owners, ws[i]) == {}
    ensures forall i :: 0 <= i < |ws| ==>
      fresh(ws[i]) && Initial(ws[i], configs[i], positionUs, retryCount, provider, outcome(configs[i])) &&
        ws[i].prepareCalls == 0
  {
    ws := [];
    while |ws| < |configs|
      invariant |ws| <= |configs| && NoDuplicates(ws)
      invariant forall i :: 0 <= i < |ws| ==>
        fresh(ws[i]) && Initial(ws[i], configs[i], positionUs, retryCount, provider, outcome(configs[i])) &&
        ws[i].prepareCalls == 0
      invariant forall i :: 0 <= i < |ws| ==> Owned(owners, ws[i]) == {}
    {
      var w := new SampleStreamWrapper(configs[|ws|], positionUs, retryCount, provider, outcome(configs[|ws|]));
      assert Owned(owners, w) == {} by {
        assert forall h :: h in owners ==> owners[h] != w;
      }
      assert w !in ws;
      ghost var ws0 := ws;
      ws := ws + [w];
      assert forall i :: 0 <= i < |ws0| ==> ws[i] == ws0[i];
    }
  }

  /** The preparing loop of onLoadCompleted: each wrapper is asked to prepare once. */
  method PrepareWrappers(ws: seq<SampleStreamWrapper>)
    requires NoDuplicates(ws)
    modifies (set w | w in ws)`prepareCalls
    ensures forall i :: 0 <= i < |ws| ==> ws[i].prepareCalls == old(ws[i].prepareCalls) + 1
  {
    for i := 0 to |ws|
      invariant forall k :: 0 <= k < |ws| ==>
        ws[k].prepareCalls == old(ws[k].prepareCalls) + (if k < i then 1 else 0)
    {
      ws[i].Prepare();
    }
  }

  /** The releasing loop of release. */
  method ReleaseWrappers(ws: seq<SampleStreamWrapper>)
    modifies (set w | w in ws)`released
    ensures forall w :: w in ws ==> w.released
  {
    for i := 0 to |ws|
      invariant forall k :: 0 <= k < i ==> ws[k].released
    {
      ws[i].Release();
    }
  }

  /**
   * The re-indexing loop of the per-wrapper selectTracks: the selections whose group the
   * lookup attributes to wrapper `wi`, with local group indices, and their positions. The
   * lookup's IndexOutOfBoundsException ends the loop.
   */
  method CollectSelections(counts: seq<nat>, sels: seq<TrackSelection>, wi: nat)
    returns (r: Result<(seq<TrackSelection>, seq<nat>), LookupError>)
    ensures r == LocalSelections(counts, sels, wi)
  {
    var locals: seq<TrackSelection> := [];
    var idx: seq<nat> := [];
    CollectedStart(counts, sels, wi);
    for i := 0 to |sels|
      invariant Collected(counts, sels, wi, i, locals, idx)
    {
      var sourceAndGroup := SourceAndGroup(counts, sels[i].group);
      if sourceAndGroup.Err? {
        CollectedFails(counts, sels, wi, i, locals, idx);
        return Err(IndexOutOfBounds);
      }
      CollectedStep(counts, sels, wi, i, locals, idx);
      if sourceAndGroup.value.0 == wi {
        locals := locals + [TrackSelection(sourceAndGroup.value.1, sels[i].tracks)];
        idx := idx + [i];
      }
    }
    CollectedEnd(counts, sels, wi, locals, idx);
    return Ok((locals, idx));
  }

  /** Before the first turn, the loop state is the starting state. */
  lemma LoopAtStart(ws: seq<SampleStreamWrapper>, allOld: seq<SampleStream>, allSels: seq<TrackSelection>,
                    m0: map<SampleStream, SampleStreamWrapper>, a0: seq<SampleStream?>, c0: seq<int>,
                    selAll: seq<(seq<TrackSelection>, seq<nat>)>, idxAll: seq<seq<nat>>,
                    outsAll: seq<seq<SampleStream>>, avoid: set<SampleStream>,
                    owners: map<SampleStream, SampleStreamWrapper>, streams: seq<SampleStream?>, counts: seq<int>)
    requires LoopAll(ws, allOld, allSels, m0, a0, c0, 0, selAll, idxAll, outsAll, avoid, owners, streams, counts)
    ensures owners == m0 && streams == a0 && counts == c0
  {
  }

  /**
   * The call one turn makes on its wrapper `w`: the streams it took back, its selections
   * and the streams it answered, unless the turn is skipped.
   */
  function TurnCalls(seenFirstTrackSelection: bool, w: SampleStreamWrapper, taken: seq<SampleStream>,
                     sel: (seq<TrackSelection>, seq<nat>), outs: seq<SampleStream>): seq<SelectCall>
  {
    if Performs(seenFirstTrackSelection, taken, sel.0)
    then [SelectCall(w, taken, sel.0, !seenFirstTrackSelection, outs)] else []
  }

  /** The calls of turns 0 .. |selAll| - 1 of the wrapper loop, in order. */
  ghost function CallsUpTo(seenFirstTrackSelection: bool, m0: map<SampleStream, SampleStreamWrapper>,
                           allOld: seq<SampleStream>, ws: seq<SampleStreamWrapper>,
                           selAll: seq<(seq<TrackSelection>, seq<nat>)>, outsAll: seq<seq<SampleStream>>): seq<SelectCall>
    requires |selAll| == |outsAll| <= |ws|
    decreases |selAll|
  {
    var n := |selAll|;
    if n == 0 then []
    else CallsUpTo(seenFirstTrackSelection, m0, allOld, ws, selAll[..n - 1], outsAll[..n - 1]) +
         TurnCalls(seenFirstTrackSelection, ws[n - 1], TakeOwned(m0, allOld, ws[n - 1]).0, selAll[n - 1], outsAll[n - 1])
  }

  lemma CallsUpToStep(seenFirstTrackSelection: bool, m0: map<SampleStream, SampleStreamWrapper>,
                      allOld: seq<SampleStream>, ws: seq<SampleStreamWrapper>,
                      selAll: seq<(seq<TrackSelection>, seq<nat>)>, outsAll: seq<seq<SampleStream>>,
                      sel: (seq<TrackSelection>, seq<nat>), outs: seq<SampleStream>)
    requires |selAll| == |outsAll| < |ws|
    ensures CallsUpTo(seenFirstTrackSelection, m0, allOld, ws, selAll + [sel], outsAll + [outs]) ==
      CallsUpTo(seenFirstTrackSelection, m0, allOld, ws, selAll, outsAll) +
      TurnCalls(seenFirstTrackSelection, ws[|selAll|], TakeOwned(m0, allOld, ws[|selAll|]).0, sel, outs)
  {
    assert (selAll + [sel])[..|selAll|] == selAll && (outsAll + [outs])[..|outsAll|] == outsAll;
  }

  /** The period's call log holds `log0` followed by the calls of turns 0 .. i-1. */
  ghost predicate LoopCalls(seenFirstTrackSelection: bool, m0: map<SampleStream, SampleStreamWrapper>,
                            allOld: seq<SampleStream>, ws: seq<SampleStreamWrapper>, log0: seq<SelectCall>, i: nat,
                            selAll: seq<(seq<TrackSelection>, seq<nat>)>, outsAll: seq<seq<SampleStream>>,
                            calls: seq<SelectCall>)
  {
    |selAll| == i && |outsAll| == i && i <= |ws| &&
    calls == log0 + CallsUpTo(seenFirstTrackSelection, m0, allOld, ws, selAll, outsAll)
  }

  lemma LoopCallsStart(seenFirstTrackSelection: bool, m0: map<SampleStream, SampleStreamWrapper>,
                       allOld: seq<SampleStream>, ws: seq<SampleStreamWrapper>, log0: seq<SelectCall>)
    ensures LoopCalls(seenFirstTrackSelection, m0, allOld, ws, log0, 0, [], [], log0)
  {
    assert log0 + [] == log0;
  }

  lemma LoopCallsAtStart(seenFirstTrackSelection: bool, m0: map<SampleStream, SampleStreamWrapper>,
                         allOld: seq<SampleStream>, ws: seq<SampleStreamWrapper>, log0: seq<SelectCall>,
                         selAll: seq<(seq<TrackSelection>, seq<nat>)>, outsAll: seq<seq<SampleStream>>,
                         calls: seq<SelectCall>)
    requires LoopCalls(seenFirstTrackSelection, m0, allOld, ws, log0, 0, selAll, outsAll, calls)
    ensures calls == log0
  {
    assert log0 + [] == log0;
  }

  lemma LoopCallsStep(seenFirstTrackSelection: bool, m0: map<SampleStream, SampleStreamWrapper>,
                      allOld: seq<SampleStream>, ws: seq<SampleStreamWrapper>, log0: seq<SelectCall>, i: nat,
                      selAll: seq<(seq<TrackSelection>, seq<nat>)>, outsAll: seq<seq<SampleStream>>,
                      calls: seq<SelectCall>, sel: (seq<TrackSelection>, seq<nat>), outs: seq<SampleStream>)
    requires LoopCalls(seenFirstTrackSelection, m0, allOld, ws, log0, i, selAll, outsAll, calls) && i < |ws|
    ensures LoopCalls(seenFirstTrackSelection, m0, allOld, ws, log0, i + 1, selAll + [sel], outsAll + [outs],
                      calls + TurnCalls(seenFirstTrackSelection, ws[i], TakeOwned(m0, allOld, ws[i]).0, sel, outs))
  {
    CallsUpToStep(seenFirstTrackSelection, m0, allOld, ws, selAll, outsAll, sel, outs);
    var turn := TurnCalls(seenFirstTrackSelection, ws[i], TakeOwned(m0, allOld, ws[i]).0, sel, outs);
    assert (log0 + CallsUpTo(seenFirstTrackSelection, m0, allOld, ws, selAll, outsAll)) + turn ==
           log0 + (CallsUpTo(seenFirstTrackSelection, m0, allOld, ws, selAll, outsAll) + turn);
  }

  /** One selected-track count moves by `delta`. */
  method AddToCount(counts: array<int>, i: nat, delta: int)
    requires i < counts.Length
    modifies counts
    ensures counts[..] == old(counts[..])[i := old(counts[i]) + delta]
  {
    counts[i] := counts[i] + delta;
  }

  // The wrapper loop of selectTracks, wrapper by wrapper.

  /** Wrappers 0 .. i-1 got their selections from the lookup and answered one new stream per selection. */
  ghost predicate LoopSelections(ws: seq<SampleStreamWrapper>, allSels: seq<TrackSelection>, i: nat,
                                 selAll: seq<(seq<TrackSelection>, seq<nat>)>, idxAll: seq<seq<nat>>,
                                 outsAll: seq<seq<SampleStream>>)
  {
    i <= |ws| && |selAll| == i && |idxAll| == i && |outsAll| == i &&
    (i > 0 ==> forall k :: 0 <= k < |allSels| ==> SourceAndGroup(GroupCounts(ws), allSels[k].group).Ok?) &&
    forall j :: 0 <= j < i ==>
      LocalSelections(GroupCounts(ws), allSels, j) == Ok(selAll[j]) && idxAll[j] == selAll[j].1 &&
      |outsAll[j]| == |selAll[j].0| && NoDuplicates(outsAll[j])
  }

  /** The owner map is the one the round defines after wrappers 0 .. i-1, starting from `m0`. */
  ghost predicate LoopOwners(ws: seq<SampleStreamWrapper>, allOld: seq<SampleStream>,
                             m0: map<SampleStream, SampleStreamWrapper>, i: nat, outsAll: seq<seq<SampleStream>>,
                             owners: map<SampleStream, SampleStreamWrapper>)
  {
    i <= |ws| && |outsAll| == i && NewStreams(m0, allOld, outsAll, i) && owners == OwnersAfter(m0, allOld, ws, outsAll, i)
  }

  /** The result is the one the round defines after wrappers 0 .. i-1, starting from `a0`. */
  ghost predicate LoopStreams(a0: seq<SampleStream?>, i: nat, idxAll: seq<seq<nat>>, outsAll: seq<seq<SampleStream>>,
                              streams: seq<SampleStream?>)
  {
    |idxAll| == i && |outsAll| == i && Placeable(|a0|, idxAll, outsAll, i) && streams == StreamsAfter(a0, idxAll, outsAll, i)
  }

  /** The counts of wrappers 0 .. i-1 moved by what each gained less what it took back. */
  ghost predicate LoopCounts(ws: seq<SampleStreamWrapper>, allOld: seq<SampleStream>,
                             m0: map<SampleStream, SampleStreamWrapper>, counts0: seq<int>, i: nat,
                             selAll: seq<(seq<TrackSelection>, seq<nat>)>, counts: seq<int>)
  {
    i <= |ws| && |counts0| == |ws| && |counts| == |ws| && |selAll| == i &&
    forall j :: 0 <= j < |ws| ==>
      counts[j] == counts0[j] + (if j < i then |selAll[j].0| - |TakeOwned(m0, allOld, ws[j]).0| else 0)
  }

  lemma LoopSelectionsStep(ws: seq<SampleStreamWrapper>, allSels: seq<TrackSelection>, i: nat,
                           selAll: seq<(seq<TrackSelection>, seq<nat>)>, idxAll: seq<seq<nat>>,
                           outsAll: seq<seq<SampleStream>>, sel: (seq<TrackSelection>, seq<nat>), outs: seq<SampleStream>)
    requires LoopSelections(ws, allSels, i, selAll, idxAll, outsAll) && i < |ws|
    requires LocalSelections(GroupCounts(ws), allSels, i) == Ok(sel)
    requires |outs| == |sel.0| && NoDuplicates(outs)
    ensures LoopSelections(ws, allSels, i + 1, selAll + [sel], idxAll + [sel.1], outsAll + [outs])
  {
    LocalSelectionsSpec(GroupCounts(ws), allSels, i);
    var selAll' := selAll + [sel];
    var idxAll' := idxAll + [sel.1];
    var outsAll' := outsAll + [outs];
    assert forall j :: 0 <= j < i ==> selAll'[j] == selAll[j] && idxAll'[j] == idxAll[j] && outsAll'[j] == outsAll[j];
    assert selAll'[i] == sel && idxAll'[i] == sel.1 && outsAll'[i] == outs;
  }

  lemma LoopOwnersStep(ws: seq<SampleStreamWrapper>, allOld: seq<SampleStream>,
                       m0: map<SampleStream, SampleStreamWrapper>, i: nat, outsAll: seq<seq<SampleStream>>,
                       owners: map<SampleStream, SampleStreamWrapper>, outs: seq<SampleStream>)
    requires LoopOwners(ws, allOld, m0, i, outsAll, owners) && i < |ws| && NoDuplicates(ws)
    requires forall h :: h in outs ==> h !in m0 && h !in allOld
    requires forall j, h :: 0 <= j < i && h in outsAll[j] ==> h !in outs
    ensures TakeOwned(owners, allOld, ws[i]).0 == TakeOwned(m0, allOld, ws[i]).0
    ensures LoopOwners(ws, allOld, m0, i + 1, outsAll + [outs], Bind(TakeOwned(owners, allOld, ws[i]).1, outs, ws[i]))
  {
    TakenAtStart(m0, allOld, ws, outsAll, i);
    OwnersAfterSnoc(m0, allOld, ws, outsAll, outs);
    NewStreamsSnoc(m0, allOld, outsAll, outs);
  }

  lemma LoopStreamsStep(a0: seq<SampleStream?>, i: nat, idxAll: seq<seq<nat>>, outsAll: seq<seq<SampleStream>>,
                        streams: seq<SampleStream?>, idx: seq<nat>, outs: seq<SampleStream>)
    requires LoopStreams(a0, i, idxAll, outsAll, streams) && Fits(|a0|, idx, outs)
    ensures |streams| == |a0|
    ensures LoopStreams(a0, i + 1, idxAll + [idx], outsAll + [outs], Place(streams, idx, outs))
  {
    PlaceableSnoc(|a0|, idxAll, outsAll, idx, outs);
    StreamsAfterSnoc(a0, idxAll, outsAll, idxAll + [idx], outsAll + [outs], i);
  }

  lemma LoopCountsStep(ws: seq<SampleStreamWrapper>, allOld: seq<SampleStream>,
                       m0: map<SampleStream, SampleStreamWrapper>, counts0: seq<int>, i: nat,
                       selAll: seq<(seq<TrackSelection>, seq<nat>)>, counts: seq<int>,
                       sel: (seq<TrackSelection>, seq<nat>))
    requires LoopCounts(ws, allOld, m0, counts0, i, selAll, counts) && i < |ws|
    ensures LoopCounts(ws, allOld, m0, counts0, i + 1, selAll + [sel],
                       counts[i := counts[i] + |sel.0| - |TakeOwned(m0, allOld, ws[i]).0|])
  {
    var selAll' := selAll + [sel];
    assert forall j :: 0 <= j < i ==> selAll'[j] == selAll[j];
    assert selAll'[i] == sel;
  }

  /** The streams of a list, as a set. */
  function Members(outs: seq<SampleStream>): set<SampleStream> {
    set h | h in outs
  }

  /** Every stream of the starting map, of the old streams and of the turns so far is in `avoid`. */
  ghost predicate Avoided(avoid: set<SampleStream>, m0: map<SampleStream, SampleStreamWrapper>,
                          allOld: seq<SampleStream>, outsAll: seq<seq<SampleStream>>)
  {
    m0.Keys <= avoid && (forall h :: h in allOld ==> h in avoid) &&
    forall j, h :: 0 <= j < |outsAll| && h in outsAll[j] ==> h in avoid
  }

  lemma AvoidedSnoc(avoid: set<SampleStream>, m0: map<SampleStream, SampleStreamWrapper>,
                    allOld: seq<SampleStream>, outsAll: seq<seq<SampleStream>>, outs: seq<SampleStream>)
    requires Avoided(avoid, m0, allOld, outsAll)
    ensures Avoided(avoid + Members(outs), m0, allOld, outsAll + [outs])
  {
    var outsAll' := outsAll + [outs];
    assert forall j :: 0 <= j < |outsAll| ==> outsAll'[j] == outsAll[j];
    assert outsAll'[|outsAll|] == outs;
  }

  /**
   * The state of the wrapper loop after wrappers 0 .. i-1: their selections, the owner map,
   * the result and the counts are the ones the round defines, and `avoid` holds every
   * stream seen so far.
   */
  ghost predicate LoopAll(ws: seq<SampleStreamWrapper>, allOld: seq<SampleStream>, allSels: seq<TrackSelection>,
                          m0: map<SampleStream, SampleStreamWrapper>, a0: seq<SampleStream?>, c0: seq<int>, i: nat,
                          selAll: seq<(seq<TrackSelection>, seq<nat>)>, idxAll: seq<seq<nat>>,
                          outsAll: seq<seq<SampleStream>>, avoid: set<SampleStream>,
                          owners: map<SampleStream, SampleStreamWrapper>, streams: seq<SampleStream?>, counts: seq<int>)
  {
    LoopState(ws, allOld, allSels, m0, a0, c0, i, selAll, idxAll, outsAll, owners, streams, counts) &&
    Avoided(avoid, m0, allOld, outsAll)
  }

  /** The loop state without the set of streams seen. */
  ghost predicate LoopState(ws: seq<SampleStreamWrapper>, allOld: seq<SampleStream>, allSels: seq<TrackSelection>,
                            m0: map<SampleStream, SampleStreamWrapper>, a0: seq<SampleStream?>, c0: seq<int>, i: nat,
                            selAll: seq<(seq<TrackSelection>, seq<nat>)>, idxAll: seq<seq<nat>>,
                            outsAll: seq<seq<SampleStream>>,
                            owners: map<SampleStream, SampleStreamWrapper>, streams: seq<SampleStream?>, counts: seq<int>)
  {
    LoopSelections(ws, allSels, i, selAll, idxAll, outsAll) &&
    LoopOwners(ws, allOld, m0, i, outsAll, owners) &&
    LoopStreams(a0, i, idxAll, outsAll, streams) &&
    LoopCounts(ws, allOld, m0, c0, i, selAll, counts)
  }

  /**
   * One turn of the wrapper loop, on values: wrapper `i` took back its old streams, got
   * selections `sel` from the lookup and answered `outs`, new streams that no earlier
   * stream map or turn has seen; the map, the result and the counts moved accordingly.
   */
  lemma LoopStep(ws: seq<SampleStreamWrapper>, allOld: seq<SampleStream>, allSels: seq<TrackSelection>,
                 m0: map<SampleStream, SampleStreamWrapper>, a0: seq<SampleStream?>, c0: seq<int>, i: nat,
                 selAll: seq<(seq<TrackSelection>, seq<nat>)>, idxAll: seq<seq<nat>>, outsAll: seq<seq<SampleStream>>,
                 avoid: set<SampleStream>,
                 owners: map<SampleStream, SampleStreamWrapper>, streams: seq<SampleStream?>, counts: seq<int>,
                 sel: (seq<TrackSelection>, seq<nat>), outs: seq<SampleStream>,
                 owners': map<SampleStream, SampleStreamWrapper>, streams': seq<SampleStream?>, counts': seq<int>)
    requires NoDuplicates(ws) && i < |ws| && |a0| == |allSels|
    requires LoopAll(ws, allOld, allSels, m0, a0, c0, i, selAll, idxAll, outsAll, avoid, owners, streams, counts)
    requires LocalSelections(GroupCounts(ws), allSels, i) == Ok(sel)
    requires |outs| == |sel.0| && NoDuplicates(outs) && forall t :: 0 <= t < |outs| ==> outs[t] !in avoid
    requires owners' == Bind(TakeOwned(owners, allOld, ws[i]).1, outs, ws[i])
    requires Fits(|streams|, sel.1, outs) && streams' == Place(streams, sel.1, outs)
    requires counts' == counts[i := counts[i] + |sel.0| - |TakeOwned(owners, allOld, ws[i]).0|]
    ensures TakeOwned(owners, allOld, ws[i]).0 == TakeOwned(m0, allOld, ws[i]).0
    ensures LoopAll(ws, allOld, allSels, m0, a0, c0, i + 1, selAll + [sel], idxAll + [sel.1], outsAll + [outs],
                    avoid + Members(outs), owners', streams', counts')
  {
    LocalSelectionsSpec(GroupCounts(ws), allSels, i);
    assert forall h :: h in outs ==> h !in m0 && h !in allOld;
    LoopOwnersStep(ws, allOld, m0, i, outsAll, owners, outs);
    LoopSelectionsStep(ws, allSels, i, selAll, idxAll, outsAll, sel, outs);
    LoopStreamsStep(a0, i, idxAll, outsAll, streams, sel.1, outs);
    LoopCountsStep(ws, allOld, m0, c0, i, selAll, counts, sel);
    AvoidedSnoc(avoid, m0, allOld, outsAll, outs);
  }

  /**
   * The result of a completed selection round: an entry is empty exactly when the lookup
   * rejects its selection's group (which, once the round has completed, happens only when
   * there is no wrapper); otherwise it is a new stream, neither bound at the start nor
   * handed back as old, and now bound to the wrapper that owns the group.
   */
  ghost predicate RoundResult(ws: seq<SampleStreamWrapper>, allOld: seq<SampleStream>, allSels: seq<TrackSelection>,
                              m0: map<SampleStream, SampleStreamWrapper>,
                              owners: map<SampleStream, SampleStreamWrapper>, result: seq<SampleStream?>)
  {
    |result| == |allSels| &&
    (forall k :: 0 <= k < |allSels| ==>
      (result[k] == null <==> SourceAndGroup(GroupCounts(ws), allSels[k].group).Err?)) &&
    (forall k :: 0 <= k < |allSels| && result[k] != null ==>
      SourceAndGroup(GroupCounts(ws), allSels[k].group).value.0 < |ws| &&
      result[k] in owners && owners[result[k]] == ws[SourceAndGroup(GroupCounts(ws), allSels[k].group).value.0] &&
      result[k] !in m0 && result[k] !in allOld)
  }

  /**
   * The owner map after a completed round: a stream bound at the start stays bound to the
   * same wrapper unless a wrapper of the period handed it back as old, in which case it is
   * unbound; every other bound stream is one of the result.
   */
  ghost predicate RoundBindings(ws: seq<SampleStreamWrapper>, allOld: seq<SampleStream>, allSels: seq<TrackSelection>,
                                m0: map<SampleStream, SampleStreamWrapper>,
                                owners: map<SampleStream, SampleStreamWrapper>, result: seq<SampleStream?>)
  {
    |result| == |allSels| &&
    (forall h :: h in m0 && !(h in allOld && m0[h] in ws) ==> h in owners && owners[h] == m0[h]) &&
    (forall h :: h in m0 && h in allOld && m0[h] in ws ==> h !in owners) &&
    (forall h :: h in owners && h !in m0 ==> exists k :: 0 <= k < |allSels| && result[k] == h)
  }

  /**
   * The counts after a completed round: each wrapper's count moves by the selections whose
   * groups fall to it less the streams it took back, and counts that matched the owner map
   * at the start match it still.
   */
  ghost predicate RoundCountsMoved(ws: seq<SampleStreamWrapper>, allOld: seq<SampleStream>, allSels: seq<TrackSelection>,
                                   m0: map<SampleStream, SampleStreamWrapper>, c0: seq<int>,
                                   owners: map<SampleStream, SampleStreamWrapper>, counts: seq<int>)
  {
    |c0| == |ws| && |counts| == |ws| &&
    (forall j :: 0 <= j < |ws| ==>
      LocalSelections(GroupCounts(ws), allSels, j).Ok? &&
      counts[j] == c0[j] + |LocalSelections(GroupCounts(ws), allSels, j).value.0| - |TakeOwned(m0, allOld, ws[j]).0|) &&
    ((forall j :: 0 <= j < |ws| ==> c0[j] == |Owned(m0, ws[j])|) ==>
      forall j :: 0 <= j < |ws| ==> counts[j] == |Owned(owners, ws[j])|)
  }

  /**
   * Turn `j` of a completed round handed wrapper `j` the selections the lookup gives it,
   * and each stream it answered sits in the result at the position of the selection it answers.
   */
  ghost predicate RoundTurns(ws: seq<SampleStreamWrapper>, allSels: seq<TrackSelection>,
                             selAll: seq<(seq<TrackSelection>, seq<nat>)>, outsAll: seq<seq<SampleStream>>,
                             result: seq<SampleStream?>)
  {
    |selAll| == |ws| && |outsAll| == |ws| &&
    forall j :: 0 <= j < |ws| ==>
      LocalSelections(GroupCounts(ws), allSels, j) == Ok(selAll[j]) &&
      |outsAll[j]| == |selAll[j].0| == |selAll[j].1| &&
      forall t :: 0 <= t < |outsAll[j]| ==> selAll[j].1[t] < |result| && result[selAll[j].1[t]] == outsAll[j][t]
  }

  lemma RoundTurnsHold(ws: seq<SampleStreamWrapper>, allOld: seq<SampleStream>, allSels: seq<TrackSelection>,
                       m0: map<SampleStream, SampleStreamWrapper>, a0: seq<SampleStream?>, c0: seq<int>,
                       selAll: seq<(seq<TrackSelection>, seq<nat>)>, idxAll: seq<seq<nat>>,
                       outsAll: seq<seq<SampleStream>>,
                       owners: map<SampleStream, SampleStreamWrapper>, streams: seq<SampleStream?>, counts: seq<int>)
    requires |a0| == |allSels|
    requires LoopState(ws, allOld, allSels, m0, a0, c0, |ws|, selAll, idxAll, outsAll, owners, streams, counts)
    ensures RoundTurns(ws, allSels, selAll, outsAll, streams)
  {
    RoundPlacement(GroupCounts(ws), allSels, a0, selAll, idxAll, outsAll);
    forall j | 0 <= j < |ws|
      ensures |selAll[j].0| == |selAll[j].1|
    {
      LocalSelectionsShape(GroupCounts(ws), allSels, j);
    }
  }

  /**
   * Everything a completed selection round leaves behind: the result, the owner map, the
   * counts, what each turn handed a wrapper and got back, and the calls made.
   */
  ghost predicate RoundDone(ws: seq<SampleStreamWrapper>, allOld: seq<SampleStream>, allSels: seq<TrackSelection>,
                            m0: map<SampleStream, SampleStreamWrapper>, c0: seq<int>,
                            seenFirstTrackSelection: bool, log0: seq<SelectCall>,
                            selAll: seq<(seq<TrackSelection>, seq<nat>)>, outsAll: seq<seq<SampleStream>>,
                            owners: map<SampleStream, SampleStreamWrapper>, result: seq<SampleStream?>, counts: seq<int>,
                            calls: seq<SelectCall>)
  {
    RoundResult(ws, allOld, allSels, m0, owners, result) &&
    RoundBindings(ws, allOld, allSels, m0, owners, result) &&
    RoundCountsMoved(ws, allOld, allSels, m0, c0, owners, counts) &&
    RoundTurns(ws, allSels, selAll, outsAll, result) &&
    LoopCalls(seenFirstTrackSelection, m0, allOld, ws, log0, |ws|, selAll, outsAll, calls)
  }

  /** After the round, a result entry is null exactly where the lookup rejected the selection's group. */
  lemma RoundResultNulls(ws: seq<SampleStreamWrapper>, allOld: seq<SampleStream>, allSels: seq<TrackSelection>,
                         m0: map<SampleStream, SampleStreamWrapper>, a0: seq<SampleStream?>, c0: seq<int>,
                         selAll: seq<(seq<TrackSelection>, seq<nat>)>, idxAll: seq<seq<nat>>,
                         outsAll: seq<seq<SampleStream>>,
                         owners: map<SampleStream, SampleStreamWrapper>, streams: seq<SampleStream?>, counts: seq<int>)
    requires NoDuplicates(ws) && |a0| == |allSels| && forall k :: 0 <= k < |a0| ==> a0[k] == null
    requires LoopState(ws, allOld, allSels, m0, a0, c0, |ws|, selAll, idxAll, outsAll, owners, streams, counts)
    ensures |streams| == |allSels|
    ensures forall k :: 0 <= k < |allSels| ==>
      (streams[k] == null <==> SourceAndGroup(GroupCounts(ws), allSels[k].group).Err?)
  {
    var gc := GroupCounts(ws);
    RoundPlacement(gc, allSels, a0, selAll, idxAll, outsAll);
    forall k | 0 <= k < |allSels|
      ensures streams[k] == null <==> SourceAndGroup(gc, allSels[k].group).Err?
    {
      if SourceAndGroup(gc, allSels[k].group).Ok? {
        assert streams[k] in outsAll[SourceAndGroup(gc, allSels[k].group).value.0];
      }
    }
  }

  /** After the round, a non-null result entry is a new stream bound to the wrapper the lookup named. */
  lemma RoundResultOwned(ws: seq<SampleStreamWrapper>, allOld: seq<SampleStream>, allSels: seq<TrackSelection>,
                         m0: map<SampleStream, SampleStreamWrapper>, a0: seq<SampleStream?>, c0: seq<int>,
                         selAll: seq<(seq<TrackSelection>, seq<nat>)>, idxAll: seq<seq<nat>>,
                         outsAll: seq<seq<SampleStream>>,
                         owners: map<SampleStream, SampleStreamWrapper>, streams: seq<SampleStream?>, counts: seq<int>)
    requires NoDuplicates(ws) && |a0| == |allSels| && forall k :: 0 <= k < |a0| ==> a0[k] == null
    requires LoopState(ws, allOld, allSels, m0, a0, c0, |ws|, selAll, idxAll, outsAll, owners, streams, counts)
    ensures |streams| == |allSels|
    ensures forall k :: 0 <= k < |allSels| && streams[k] != null ==>
      SourceAndGroup(GroupCounts(ws), allSels[k].group).value.0 < |ws| &&
      streams[k] in owners && owners[streams[k]] == ws[SourceAndGroup(GroupCounts(ws), allSels[k].group).value.0] &&
      streams[k] !in m0 && streams[k] !in allOld
  {
    var gc := GroupCounts(ws);
    RoundOwners(m0, allOld, ws, outsAll);
    RoundPlacement(gc, allSels, a0, selAll, idxAll, outsAll);
    forall k | 0 <= k < |allSels| && streams[k] != null
      ensures SourceAndGroup(gc, allSels[k].group).value.0 < |ws|
      ensures streams[k] in owners && owners[streams[k]] == ws[SourceAndGroup(gc, allSels[k].group).value.0]
      ensures streams[k] !in m0 && streams[k] !in allOld
    {
      assert SourceAndGroup(gc, allSels[k].group).Ok?;
      var j := SourceAndGroup(gc, allSels[k].group).value.0;
      assert streams[k] in outsAll[j];
    }
  }

  lemma RoundResultHolds(ws: seq<SampleStreamWrapper>, allOld: seq<SampleStream>, allSels: seq<TrackSelection>,
                         m0: map<SampleStream, SampleStreamWrapper>, a0: seq<SampleStream?>, c0: seq<int>,
                         selAll: seq<(seq<TrackSelection>, seq<nat>)>, idxAll: seq<seq<nat>>,
                         outsAll: seq<seq<SampleStream>>,
                         owners: map<SampleStream, SampleStreamWrapper>, streams: seq<SampleStream?>, counts: seq<int>)
    requires NoDuplicates(ws) && |a0| == |allSels| && forall k :: 0 <= k < |a0| ==> a0[k] == null
    requires LoopState(ws, allOld, allSels, m0, a0, c0, |ws|, selAll, idxAll, outsAll, owners, streams, counts)
    ensures RoundResult(ws, allOld, allSels, m0, owners, streams)
  {
    RoundResultNulls(ws, allOld, allSels, m0, a0, c0, selAll, idxAll, outsAll, owners, streams, counts);
    RoundResultOwned(ws, allOld, allSels, m0, a0, c0, selAll, idxAll, outsAll, owners, streams, counts);
  }

  /** After the round, the old streams of the period's wrappers are unbound and every other binding is kept. */
  lemma RoundBindingsKept(ws: seq<SampleStreamWrapper>, allOld: seq<SampleStream>, allSels: seq<TrackSelection>,
                          m0: map<SampleStream, SampleStreamWrapper>, a0: seq<SampleStream?>, c0: seq<int>,
                          selAll: seq<(seq<TrackSelection>, seq<nat>)>, idxAll: seq<seq<nat>>,
                          outsAll: seq<seq<SampleStream>>,
                          owners: map<SampleStream, SampleStreamWrapper>, streams: seq<SampleStream?>, counts: seq<int>)
    requires NoDuplicates(ws) && |a0| == |allSels|
    requires LoopState(ws, allOld, allSels, m0, a0, c0, |ws|, selAll, idxAll, outsAll, owners, streams, counts)
    ensures forall h :: h in m0 && !(h in allOld && m0[h] in ws) ==> h in owners && owners[h] == m0[h]
    ensures forall h :: h in m0 && h in allOld && m0[h] in ws ==> h !in owners
  {
    RoundOwners(m0, allOld, ws, outsAll);
  }

  /** After the round, every stream bound anew is an entry of the result. */
  lemma RoundBindingsNew(ws: seq<SampleStreamWrapper>, allOld: seq<SampleStream>, allSels: seq<TrackSelection>,
                          m0: map<SampleStream, SampleStreamWrapper>, a0: seq<SampleStream?>, c0: seq<int>,
                          selAll: seq<(seq<TrackSelection>, seq<nat>)>, idxAll: seq<seq<nat>>,
                          outsAll: seq<seq<SampleStream>>,
                          owners: map<SampleStream, SampleStreamWrapper>, streams: seq<SampleStream?>, counts: seq<int>)
    requires NoDuplicates(ws) && |a0| == |allSels|
    requires LoopState(ws, allOld, allSels, m0, a0, c0, |ws|, selAll, idxAll, outsAll, owners, streams, counts)
    ensures forall h :: h in owners && h !in m0 ==> exists k :: 0 <= k < |allSels| && streams[k] == h
  {
    RoundPlacement(GroupCounts(ws), allSels, a0, selAll, idxAll, outsAll);
    forall h | h in owners && h !in m0
      ensures exists k :: 0 <= k < |allSels| && streams[k] == h
    {
      OwnersAfterOnly(m0, allOld, ws, outsAll, |ws|, h);
      var j :| 0 <= j < |ws| && h in outsAll[j];
      var t :| 0 <= t < |outsAll[j]| && outsAll[j][t] == h;
      assert Fits(|a0|, idxAll[j], outsAll[j]);
      assert streams[idxAll[j][t]] == h;
    }
  }

  lemma RoundBindingsHold(ws: seq<SampleStreamWrapper>, allOld: seq<SampleStream>, allSels: seq<TrackSelection>,
                          m0: map<SampleStream, SampleStreamWrapper>, a0: seq<SampleStream?>, c0: seq<int>,
                          selAll: seq<(seq<TrackSelection>, seq<nat>)>, idxAll: seq<seq<nat>>,
                          outsAll: seq<seq<SampleStream>>,
                          owners: map<SampleStream, SampleStreamWrapper>, streams: seq<SampleStream?>, counts: seq<int>)
    requires NoDuplicates(ws) && |a0| == |allSels|
    requires LoopState(ws, allOld, allSels, m0, a0, c0, |ws|, selAll, idxAll, outsAll, owners, streams, counts)
    ensures RoundBindings(ws, allOld, allSels, m0, owners, streams)
  {
    RoundBindingsKept(ws, allOld, allSels, m0, a0, c0, selAll, idxAll, outsAll, owners, streams, counts);
    RoundBindingsNew(ws, allOld, allSels, m0, a0, c0, selAll, idxAll, outsAll, owners, streams, counts);
  }

  lemma RoundCountsHold(ws: seq<SampleStreamWrapper>, allOld: seq<SampleStream>, allSels: seq<TrackSelection>,
                        m0: map<SampleStream, SampleStreamWrapper>, a0: seq<SampleStream?>, c0: seq<int>,
                        selAll: seq<(seq<TrackSelection>, seq<nat>)>, idxAll: seq<seq<nat>>,
                        outsAll: seq<seq<SampleStream>>,
                        owners: map<SampleStream, SampleStreamWrapper>, streams: seq<SampleStream?>, counts: seq<int>)
    requires NoDuplicates(ws)
    requires LoopState(ws, allOld, allSels, m0, a0, c0, |ws|, selAll, idxAll, outsAll, owners, streams, counts)
    ensures RoundCountsMoved(ws, allOld, allSels, m0, c0, owners, counts)
  {
    RoundCounts(m0, allOld, ws, outsAll);
  }

  class HlsMediaPeriod {
    /** Which wrapper each live stream belongs to (an identity map). */
    var sampleStreamSources: map<SampleStream, SampleStreamWrapper>
    const timestampAdjusterProvider: TimestampAdjusterProvider
    const minLoadableRetryCount: int
    var preparePositionUs: Long
    var pendingPrepareCount: int
    var seenFirstTrackSelection: bool
    var durationUs: Long
    var isLive: bool
    var trackGroups: Option<seq<TrackGroup>>
    var selectedTrackCounts: array?<int>
    var sampleStreamWrappers: Option<seq<SampleStreamWrapper>>
    var enabledSampleStreamWrappers: Option<seq<SampleStreamWrapper>>
    /** How often the period has told its callback that it is prepared. */
    var periodPreparedCalls: nat
    /** Every selectTracks call the period has made on its wrappers, in order. */
    var selectCalls: seq<SelectCall>

    /** The source's shorter constructor passes DEFAULT_MIN_LOADABLE_RETRY_COUNT. */
    constructor (minLoadableRetryCount: int)
      ensures this.minLoadableRetryCount == minLoadableRetryCount
      ensures sampleStreamSources == map[] && fresh(timestampAdjusterProvider)
      ensures timestampAdjusterProvider.resets == 0
      ensures preparePositionUs == 0 && pendingPrepareCount == 0 && !seenFirstTrackSelection
      ensures durationUs == 0 && !isLive && trackGroups == None && selectedTrackCounts == null
      ensures sampleStreamWrappers == None && enabledSampleStreamWrappers == None
      ensures periodPreparedCalls == 0 && selectCalls == []
    {
      this.minLoadableRetryCount := minLoadableRetryCount;
      sampleStreamSources := map[];
      timestampAdjusterProvider := new TimestampAdjusterProvider();
      preparePositionUs := 0;
      pendingPrepareCount := 0;
      seenFirstTrackSelection := false;
      durationUs := 0;
      isLive := false;
      trackGroups := None;
      selectedTrackCounts := null;
      sampleStreamWrappers := None;
      enabledSampleStreamWrappers := None;
      periodPreparedCalls := 0;
      selectCalls := [];
    }

    /** The wrappers exist, are distinct, and have one selected-track count each. */
    predicate Built()
      reads this
    {
      sampleStreamWrappers.Some? && NoDuplicates(sampleStreamWrappers.value) &&
      selectedTrackCounts != null &&
      selectedTrackCounts.Length == |sampleStreamWrappers.value|
    }

    /** Each wrapper's selected-track count is the number of live streams the owner map gives it. */
    ghost predicate Consistent()
      reads this, selectedTrackCounts
      requires Built()
    {
      forall i :: 0 <= i < selectedTrackCounts.Length ==>
        selectedTrackCounts[i] == |Owned(sampleStreamSources, sampleStreamWrappers.value[i])|
    }

    /** The enabled wrappers are distinct and are wrappers of the period. */
    predicate EnabledValid()
      reads this
    {
      enabledSampleStreamWrappers.Some? ==>
        NoDuplicates(enabledSampleStreamWrappers.value) &&
        sampleStreamWrappers.Some? &&
        forall w :: w in enabledSampleStreamWrappers.value ==> w in sampleStreamWrappers.value
    }

    /** prepare: only the start position is kept; the playlist load itself is not modelled. */
    method Prepare(positionUs: Long)
      modifies this`preparePositionUs
      ensures preparePositionUs == positionUs
    {
      preparePositionUs := positionUs;
    }

    /**
     * The playlist has loaded: one fresh wrapper per configuration of
     * BuildSampleStreamWrappers, each asked to prepare once; every selected-track count is
     * zero and every wrapper is awaited.
     */
    method OnLoadCompleted(playlist: Playlist, outcome: WrapperConfig -> WrapperOutcome)
      modifies this`sampleStreamWrappers, this`selectedTrackCounts, this`pendingPrepareCount
      ensures sampleStreamWrappers.Some?
      ensures |sampleStreamWrappers.value| == |BuildSampleStreamWrappers(playlist)|
      ensures forall i :: 0 <= i < |sampleStreamWrappers.value| ==>
        fresh(sampleStreamWrappers.value[i]) &&
        Initial(sampleStreamWrappers.value[i], BuildSampleStreamWrappers(playlist)[i], preparePositionUs,
                minLoadableRetryCount, timestampAdjusterProvider, outcome(BuildSampleStreamWrappers(playlist)[i])) &&
        sampleStreamWrappers.value[i].prepareCalls == 1
      ensures Built() && fresh(selectedTrackCounts)
      ensures forall i :: 0 <= i < selectedTrackCounts.Length ==> selectedTrackCounts[i] == 0
      ensures Consistent()
      ensures pendingPrepareCount == |BuildSampleStreamWrappers(playlist)|
    {
      var configs := BuildSampleStreamWrappers(playlist);
      var ws := NewWrappers(configs, preparePositionUs, minLoadableRetryCount, timestampAdjusterProvider, outcome,
                            sampleStreamSources);
      sampleStreamWrappers := Some(ws);
      selectedTrackCounts := new int[|ws|](_ => 0);
      pendingPrepareCount := |ws|;
      PrepareWrappers(ws);
    }

    /**
     * A wrapper has prepared. Until the last awaited wrapper reports, only the count of
     * awaited wrappers drops; when it does, the period takes its duration and liveness
     * from the first wrapper, publishes the catalog of every wrapper's track groups in
     * wrapper order, and tells its callback once.
     */
    method OnPrepared()
      requires sampleStreamWrappers.Some? && |sampleStreamWrappers.value| > 0
      modifies this`pendingPrepareCount, this`durationUs, this`isLive, this`trackGroups, this`periodPreparedCalls
      ensures pendingPrepareCount == old(pendingPrepareCount) - 1
      ensures pendingPrepareCount > 0 ==>
        durationUs == old(durationUs) && isLive == old(isLive) && trackGroups == old(trackGroups) &&
        periodPreparedCalls == old(periodPreparedCalls)
      ensures pendingPrepareCount <= 0 ==>
        durationUs == sampleStreamWrappers.value[0].durationUs &&
        isLive == sampleStreamWrappers.value[0].isLive &&
        trackGroups == Some(Concat(GroupsOf(sampleStreamWrappers.value))) &&
        periodPreparedCalls == old(periodPreparedCalls) + 1
    {
      pendingPrepareCount := pendingPrepareCount - 1;
      if pendingPrepareCount > 0 {
        return;
      }
      var ws := sampleStreamWrappers.value;
      durationUs := ws[0].durationUs;
      isLive := ws[0].isLive;
      var catalog := BuildCatalog(ws);
      trackGroups := Some(catalog);
      periodPreparedCalls := periodPreparedCalls + 1;
    }

    /**
     * getBufferedPositionUs: the smallest buffered position among the enabled wrappers,
     * ignoring wrappers buffered to the end of their source; the end marker when there is
     * none such, or when all of them report Long.MAX_VALUE.
     */
    function GetBufferedPositionUs(): (r: Long)
      reads this, set w | enabledSampleStreamWrappers.Some? && w in enabledSampleStreamWrappers.value
      requires enabledSampleStreamWrappers.Some?
      ensures r == END_OF_SOURCE_US <==>
        forall w :: w in enabledSampleStreamWrappers.value ==>
          w.bufferedPositionUs == END_OF_SOURCE_US || w.bufferedPositionUs == LONG_MAX
      ensures r != END_OF_SOURCE_US ==>
        (exists w :: w in enabledSampleStreamWrappers.value && w.bufferedPositionUs == r) &&
        forall w :: w in enabledSampleStreamWrappers.value && w.bufferedPositionUs != END_OF_SOURCE_US ==>
          r <= w.bufferedPositionUs
    {
      var ps := Positions(enabledSampleStreamWrappers.value);
      BufferedPositionIsMinimum(ps);
      BufferedPosition(ps)
    }

    /**
     * seekToUs: a live stream is always sought to 0; the timestamp adjusters are reset and
     * every enabled wrapper is sought to the resulting position, which is returned.
     */
    method SeekToUs(positionUs: Long) returns (r: Long)
      requires EnabledValid() && enabledSampleStreamWrappers.Some?
      modifies timestampAdjusterProvider, (set w | w in enabledSampleStreamWrappers.value)`seeks
      ensures r == if isLive then 0 else positionUs
      ensures timestampAdjusterProvider.resets == old(timestampAdjusterProvider.resets) + 1
      ensures forall w :: w in enabledSampleStreamWrappers.value ==> w.seeks == old(w.seeks) + [r]
    {
      r := if isLive then 0 else positionUs;
      timestampAdjusterProvider.Reset();
      var enabled := enabledSampleStreamWrappers.value;
      for i := 0 to |enabled|
        modifies (set w | w in enabled)`seeks
        invariant forall k :: 0 <= k < |enabled| ==>
          enabled[k].seeks == old(enabled[k].seeks) + (if k < i then [r] else [])
      {
        enabled[i].SeekTo(r);
      }
    }

    /** release: every wrapper is released and the period returns to its unprepared state. */
    method Release()
      modifies this`sampleStreamSources, this`preparePositionUs, this`pendingPrepareCount
      modifies this`seenFirstTrackSelection, this`durationUs, this`isLive, this`trackGroups
      modifies this`selectedTrackCounts, this`sampleStreamWrappers, this`enabledSampleStreamWrappers
      modifies timestampAdjusterProvider
      modifies (set w | sampleStreamWrappers.Some? && w in sampleStreamWrappers.value)`released
      ensures forall w :: old(sampleStreamWrappers).Some? && w in old(sampleStreamWrappers).value ==> w.released
      ensures timestampAdjusterProvider.resets == old(timestampAdjusterProvider.resets) + 1
      ensures sampleStreamSources == map[] && preparePositionUs == 0 && pendingPrepareCount == 0
      ensures !seenFirstTrackSelection && durationUs == 0 && !isLive && trackGroups == None
      ensures selectedTrackCounts == null && sampleStreamWrappers == None && enabledSampleStreamWrappers == None
    {
      sampleStreamSources := map[];
      timestampAdjusterProvider.Reset();
      preparePositionUs := 0;
      pendingPrepareCount := 0;
      seenFirstTrackSelection := false;
      durationUs := 0;
      isLive := false;
      trackGroups := None;
      selectedTrackCounts := null;
      if sampleStreamWrappers.Some? {
        ReleaseWrappers(sampleStreamWrappers.value);
        sampleStreamWrappers := None;
      }
      enabledSampleStreamWrappers := None;
    }

    /**
     * The old-streams loop of the per-wrapper selectTracks: the streams of `allOld` that
     * the owner map gives to `w` are unbound and returned, in order.
     */
    method TakeOldStreams(w: SampleStreamWrapper, allOld: seq<SampleStream>) returns (olds: seq<SampleStream>)
      modifies this`sampleStreamSources
      ensures olds == TakeOwned(old(sampleStreamSources), allOld, w).0
      ensures sampleStreamSources == TakeOwned(old(sampleStreamSources), allOld, w).1
    {
      olds := [];
      assert allOld[0..] == allOld;
      assert olds + TakeOwned(sampleStreamSources, allOld, w).0 == TakeOwned(sampleStreamSources, allOld, w).0;
      for i := 0 to |allOld|
        invariant TakeOwned(old(sampleStreamSources), allOld, w) ==
          (olds + TakeOwned(sampleStreamSources, allOld[i..], w).0, TakeOwned(sampleStreamSources, allOld[i..], w).1)
      {
        assert allOld[i..][0] == allOld[i] && allOld[i..][1..] == allOld[i + 1..];
        var stream := allOld[i];
        if stream in sampleStreamSources && sampleStreamSources[stream] == w {
          ghost var rest := TakeOwned(sampleStreamSources - {stream}, allOld[i + 1..], w);
          assert olds + ([stream] + rest.0) == (olds + [stream]) + rest.0;
          sampleStreamSources := sampleStreamSources - {stream};
          olds := olds + [stream];
        }
      }
      assert allOld[|allOld|..] == [];
    }

    /**
     * The write-back loop of the per-wrapper selectTracks: new stream `j` goes to position
     * `idx[j]` of the period's result and is bound to `w`.
     */
    method WriteBack(w: SampleStreamWrapper, idx: seq<nat>, outs: seq<SampleStream>, allNew: array<SampleStream?>)
      requires |outs| == |idx| && forall j :: 0 <= j < |idx| ==> idx[j] < allNew.Length
      modifies this`sampleStreamSources, allNew
      ensures allNew[..] == Place(old(allNew[..]), idx, outs)
      ensures sampleStreamSources == Bind(old(sampleStreamSources), outs, w)
    {
      for j := 0 to |outs|
        invariant allNew[..] == Place(old(allNew[..]), idx[..j], outs[..j])
        invariant sampleStreamSources == Bind(old(sampleStreamSources), outs[..j], w)
      {
        PlaceStep(old(allNew[..]), idx, outs, j);
        BindStep(old(sampleStreamSources), outs, w, j);
        allNew[idx[j]] := outs[j];
        sampleStreamSources := sampleStreamSources[outs[j] := w];
      }
      assert idx[..|outs|] == idx && outs[..|outs|] == outs;
    }

    /**
     * The per-wrapper selectTracks: wrapper `wi` gives up its old streams among `allOld`,
     * receives the selections whose groups fall to it (re-indexed to its own groups), and
     * its new streams are written back at the positions of those selections and bound to
     * it. The wrapper is not called when it neither loses nor gains a stream, except on the
     * first selection. The result is the change in its number of selected tracks; the
     * lookup's exception surfaces as an error after the old streams were unbound.
     */
    method SelectTracksFor(ws: seq<SampleStreamWrapper>, wi: nat, allOld: seq<SampleStream>,
                           allSels: seq<TrackSelection>, allNew: array<SampleStream?>, ghost avoid: set<SampleStream>)
      returns (res: Result<int, LookupError>, ghost taken: seq<SampleStream>,
               ghost sel: (seq<TrackSelection>, seq<nat>), ghost outs: seq<SampleStream>)
      requires sampleStreamWrappers == Some(ws) && wi < |ws|
      requires allNew.Length == |allSels|
      modifies this`sampleStreamSources, this`selectCalls, allNew
      ensures taken == TakeOwned(old(sampleStreamSources), allOld, ws[wi]).0
      ensures res.Err? <==> LocalSelections(GroupCounts(ws), allSels, wi).Err?
      ensures res.Err? ==>
        sampleStreamSources == TakeOwned(old(sampleStreamSources), allOld, ws[wi]).1 &&
        allNew[..] == old(allNew[..]) && selectCalls == old(selectCalls)
      ensures res.Ok? ==>
        LocalSelections(GroupCounts(ws), allSels, wi) == Ok(sel)
      ensures res.Ok? ==>
        |outs| == |sel.0| && NoDuplicates(outs) &&
        (forall j :: 0 <= j < |outs| ==> fresh(outs[j]) && outs[j] !in avoid) &&
        selectCalls == old(selectCalls) + TurnCalls(seenFirstTrackSelection, ws[wi], taken, sel, outs) &&
        sampleStreamSources ==
          Bind(TakeOwned(old(sampleStreamSources), allOld, ws[wi]).1, outs,
               ws[wi]) &&
        Fits(allNew.Length, sel.1, outs) && allNew[..] == Place(old(allNew[..]), sel.1, outs) &&
        res.value == |sel.0| - |taken|
      ensures res.Ok? && !Performs(seenFirstTrackSelection, taken, sel.0) ==>
        sampleStreamSources == old(sampleStreamSources) && allNew[..] == old(allNew[..]) &&
        selectCalls == old(selectCalls) && res.value == 0
    {
      var w := ws[wi];
      var oldStreams := TakeOldStreams(w, allOld);
      taken := oldStreams;
      outs := [];
      var collected := CollectSelections(GroupCounts(ws), allSels, wi);
      if collected.Err? {
        return Err(collected.error), taken, ([], []), outs;
      }
      LocalSelectionsShape(GroupCounts(ws), allSels, wi);
      sel := collected.value;
      var newSelections := collected.value.0;
      var originalIndices := collected.value.1;
      if seenFirstTrackSelection && |oldStreams| == 0 && |newSelections| == 0 {
        TakeOwnedNothing(old(sampleStreamSources), allOld, w);
        return Ok(0), taken, sel, outs;
      }
      var newStreams := w.SelectTracks(oldStreams, newSelections, !seenFirstTrackSelection);
      selectCalls := selectCalls + [SelectCall(w, oldStreams, newSelections, !seenFirstTrackSelection, newStreams)];
      outs := newStreams;
      WriteBack(w, originalIndices, newStreams, allNew);
      res := Ok(|newSelections| - |oldStreams|);
    }

    /**
     * One turn of the wrapper loop of selectTracks: wrapper `i` takes back its old streams,
     * receives its selections and writes its new streams into `allNew`, and its
     * selected-track count moves by the difference. The lookup can only fail on the first
     * turn, since every later turn follows one on which it succeeded for every selection.
     */
    method SelectTracksTurn(ws: seq<SampleStreamWrapper>, i: nat, allOld: seq<SampleStream>, allSels: seq<TrackSelection>,
                            allNew: array<SampleStream?>,
                            ghost m0: map<SampleStream, SampleStreamWrapper>, ghost a0: seq<SampleStream?>,
                            ghost c0: seq<int>, ghost selAll: seq<(seq<TrackSelection>, seq<nat>)>,
                            ghost idxAll: seq<seq<nat>>, ghost outsAll: seq<seq<SampleStream>>,
                            ghost avoid: set<SampleStream>, ghost log0: seq<SelectCall>)
      returns (res: Result<(), LookupError>, ghost sel: (seq<TrackSelection>, seq<nat>), ghost outs: seq<SampleStream>)
      requires Built() && sampleStreamWrappers == Some(ws) && i < |ws| && allNew.Length == |allSels| && |a0| == |allSels|
      requires LoopAll(ws, allOld, allSels, m0, a0, c0, i, selAll, idxAll, outsAll, avoid,
                       sampleStreamSources, allNew[..], selectedTrackCounts[..])
      requires LoopCalls(seenFirstTrackSelection, m0, allOld, ws, log0, i, selAll, outsAll, selectCalls)
      modifies this`sampleStreamSources, this`selectCalls, selectedTrackCounts, allNew
      ensures res.Err? <==> exists k :: 0 <= k < |allSels| && SourceAndGroup(GroupCounts(ws), allSels[k].group).Err?
      ensures res.Err? ==>
        i == 0 && sampleStreamSources == TakeOwned(m0, allOld, ws[0]).1 &&
        allNew[..] == a0 && selectedTrackCounts[..] == c0 && selectCalls == log0
      ensures res.Ok? ==>
        LoopAll(ws, allOld, allSels, m0, a0, c0, i + 1, selAll + [sel], idxAll + [sel.1], outsAll + [outs],
                avoid + Members(outs), sampleStreamSources, allNew[..], selectedTrackCounts[..])
      ensures res.Ok? ==>
        LoopCalls(seenFirstTrackSelection, m0, allOld, ws, log0, i + 1, selAll + [sel], outsAll + [outs], selectCalls)
    {
      ghost var owners := sampleStreamSources;
      ghost var streams := allNew[..];
      ghost var counts := selectedTrackCounts[..];
      ghost var calls := selectCalls;
      var r;
      ghost var taken;
      r, taken, sel, outs := SelectTracksFor(ws, i, allOld, allSels, allNew, avoid);
      LocalSelectionsShape(GroupCounts(ws), allSels, i);
      if r.Err? {
        LoopAtStart(ws, allOld, allSels, m0, a0, c0, selAll, idxAll, outsAll, avoid, owners, streams, counts);
        LoopCallsAtStart(seenFirstTrackSelection, m0, allOld, ws, log0, selAll, outsAll, calls);
        return Err(r.error), sel, outs;
      }
      ghost var owners1, streams1, calls1 := sampleStreamSources, allNew[..], selectCalls;
      AddToCount(selectedTrackCounts, i, r.value);
      assert sampleStreamSources == owners1 && allNew[..] == streams1 && selectCalls == calls1;
      LoopStep(ws, allOld, allSels, m0, a0, c0, i, selAll, idxAll, outsAll, avoid, owners, streams, counts, sel, outs,
               sampleStreamSources, allNew[..], selectedTrackCounts[..]);
      LoopCallsStep(seenFirstTrackSelection, m0, allOld, ws, log0, i, selAll, outsAll, calls, sel, outs);
      res := Ok(());
    }

    /**
     * The wrapper loop of selectTracks, wrapper after wrapper. A group the lookup rejects
     * ends the loop at the first wrapper, with that wrapper's old streams already unbound.
     */
    method SelectTracksPerWrapper(allOld: seq<SampleStream>, allSels: seq<TrackSelection>, allNew: array<SampleStream?>)
      returns (res: Result<(), LookupError>, ghost selAll: seq<(seq<TrackSelection>, seq<nat>)>,
               ghost idxAll: seq<seq<nat>>, ghost outsAll: seq<seq<SampleStream>>)
      requires Built() && allNew.Length == |allSels|
      modifies this`sampleStreamSources, this`selectCalls, selectedTrackCounts, allNew
      ensures var ws := sampleStreamWrappers.value;
        res.Err? <==> |ws| > 0 && exists k :: 0 <= k < |allSels| && SourceAndGroup(GroupCounts(ws), allSels[k].group).Err?
      ensures var ws := sampleStreamWrappers.value;
        res.Err? ==>
          sampleStreamSources == TakeOwned(old(sampleStreamSources), allOld, ws[0]).1 &&
          allNew[..] == old(allNew[..]) && selectedTrackCounts[..] == old(selectedTrackCounts[..]) &&
          selectCalls == old(selectCalls)
      ensures var ws := sampleStreamWrappers.value;
        res.Ok? ==>
          LoopState(ws, allOld, allSels, old(sampleStreamSources), old(allNew[..]), old(selectedTrackCounts[..]), |ws|,
                    selAll, idxAll, outsAll, sampleStreamSources, allNew[..], selectedTrackCounts[..])
      ensures var ws := sampleStreamWrappers.value;
        res.Ok? ==>
          LoopCalls(seenFirstTrackSelection, old(sampleStreamSources), allOld, ws, old(selectCalls), |ws|, selAll, outsAll,
                    selectCalls)
    {
      var ws := sampleStreamWrappers.value;
      ghost var m0 := sampleStreamSources;
      ghost var a0 := allNew[..];
      ghost var c0 := selectedTrackCounts[..];
      ghost var avoid := m0.Keys + Members(allOld);
      ghost var log0 := selectCalls;
      selAll, idxAll, outsAll := [], [], [];
      LoopCallsStart(seenFirstTrackSelection, m0, allOld, ws, log0);
      for i := 0 to |ws|
        invariant LoopAll(ws, allOld, allSels, m0, a0, c0, i, selAll, idxAll, outsAll, avoid,
                          sampleStreamSources, allNew[..], selectedTrackCounts[..])
        invariant LoopCalls(seenFirstTrackSelection, m0, allOld, ws, log0, i, selAll, outsAll, selectCalls)
      {
        var r, sel, outs := SelectTracksTurn(ws, i, allOld, allSels, allNew, m0, a0, c0, selAll, idxAll, outsAll, avoid, log0);
        if r.Err? {
          return Err(r.error), selAll, idxAll, outsAll;
        }
        selAll := selAll + [sel];
        idxAll := idxAll + [sel.1];
        outsAll := outsAll + [outs];
        avoid := avoid + Members(outs);
      }
      res := Ok(());
    }

    /**
     * The first loop of selectTracks with the result it fills: every wrapper in turn takes
     * back its old streams and receives the selections whose groups fall to it; the
     * result holds one new stream per selection, bound to the wrapper that owns the
     * selected group. A group the lookup rejects ends the loop with the first wrapper's old
     * streams unbound and nothing else changed.
     */
    method SelectionRound(oldStreams: seq<SampleStream>, newSelections: seq<TrackSelection>)
      returns (res: Result<seq<SampleStream?>, LookupError>,
               ghost selAll: seq<(seq<TrackSelection>, seq<nat>)>, ghost outsAll: seq<seq<SampleStream>>)
      requires Built()
      modifies this`sampleStreamSources, this`selectCalls, selectedTrackCounts
      ensures var ws := sampleStreamWrappers.value;
        res.Err? <==>
          |ws| > 0 && exists k :: 0 <= k < |newSelections| && SourceAndGroup(GroupCounts(ws), newSelections[k].group).Err?
      ensures var ws := sampleStreamWrappers.value;
        res.Err? ==>
          sampleStreamSources == TakeOwned(old(sampleStreamSources), oldStreams, ws[0]).1 &&
          selectedTrackCounts[..] == old(selectedTrackCounts[..]) && selectCalls == old(selectCalls)
      ensures var ws := sampleStreamWrappers.value;
        res.Ok? ==>
          RoundDone(ws, oldStreams, newSelections, old(sampleStreamSources), old(selectedTrackCounts[..]),
                    seenFirstTrackSelection, old(selectCalls), selAll, outsAll,
                    sampleStreamSources, res.value, selectedTrackCounts[..], selectCalls)
    {
      var ws := sampleStreamWrappers.value;
      ghost var m0 := sampleStreamSources;
      ghost var c0 := selectedTrackCounts[..];
      var newStreams := new SampleStream?[|newSelections|](_ => null);
      ghost var a0 := newStreams[..];
      var r;
      ghost var idxAll;
      r, selAll, idxAll, outsAll := SelectTracksPerWrapper(oldStreams, newSelections, newStreams);
      if r.Err? {
        return Err(r.error), selAll, outsAll;
      }
      var result := newStreams[..];
      RoundResultHolds(ws, oldStreams, newSelections, m0, a0, c0, selAll, idxAll, outsAll,
                       sampleStreamSources, result, selectedTrackCounts[..]);
      RoundBindingsHold(ws, oldStreams, newSelections, m0, a0, c0, selAll, idxAll, outsAll,
                        sampleStreamSources, result, selectedTrackCounts[..]);
      RoundCountsHold(ws, oldStreams, newSelections, m0, a0, c0, selAll, idxAll, outsAll,
                      sampleStreamSources, result, selectedTrackCounts[..]);
      RoundTurnsHold(ws, oldStreams, newSelections, m0, a0, c0, selAll, idxAll, outsAll,
                     sampleStreamSources, result, selectedTrackCounts[..]);
      res := Ok(result);
    }

    /**
     * The end of selectTracks: the wrappers with a positive selected-track count become the
     * enabled ones; a selection other than the first, with at least one selection and one
     * enabled wrapper, seeks the period to `positionUs`; the first selection has been seen.
     */
    method FinishSelection(hasSelections: bool, positionUs: Long)
      requires Built()
      modifies this`enabledSampleStreamWrappers, this`seenFirstTrackSelection
      modifies timestampAdjusterProvider, (set w | w in sampleStreamWrappers.value)`seeks
      ensures enabledSampleStreamWrappers == Some(Enabled(sampleStreamWrappers.value, selectedTrackCounts[..]))
      ensures EnabledValid() && seenFirstTrackSelection
      ensures var ws := sampleStreamWrappers.value;
        var enabled := Enabled(ws, selectedTrackCounts[..]);
        var seek := old(seenFirstTrackSelection) && hasSelections && |enabled| > 0;
        timestampAdjusterProvider.resets == old(timestampAdjusterProvider.resets) + (if seek then 1 else 0) &&
        forall w :: w in ws ==>
          w.seeks == old(w.seeks) + (if seek && w in enabled then [if isLive then 0 else positionUs] else [])
    {
      UpdateEnabled();
      if |enabledSampleStreamWrappers.value| > 0 && seenFirstTrackSelection && hasSelections {
        var _ := SeekToUs(positionUs);
      }
      seenFirstTrackSelection := true;
    }

    /**
     * selectTracks: the selection round, then the wrappers with a positive selected-track
     * count become the enabled ones, and a selection other than the first, with at least
     * one selection and one enabled wrapper, seeks the period to `positionUs`. A group the
     * lookup rejects ends the call after the first wrapper's old streams were unbound,
     * with nothing else changed.
     */
    method SelectTracks(oldStreams: seq<SampleStream>, newSelections: seq<TrackSelection>, positionUs: Long)
      returns (res: Result<seq<SampleStream?>, LookupError>,
               ghost selAll: seq<(seq<TrackSelection>, seq<nat>)>, ghost outsAll: seq<seq<SampleStream>>)
      requires Built()
      modifies this`sampleStreamSources, this`selectCalls, this`enabledSampleStreamWrappers, this`seenFirstTrackSelection
      modifies selectedTrackCounts, timestampAdjusterProvider, (set w | w in sampleStreamWrappers.value)`seeks
      ensures var ws := sampleStreamWrappers.value;
        res.Err? <==>
          |ws| > 0 && exists k :: 0 <= k < |newSelections| && SourceAndGroup(GroupCounts(ws), newSelections[k].group).Err?
      ensures res.Ok? ==>
        enabledSampleStreamWrappers == Some(Enabled(sampleStreamWrappers.value, selectedTrackCounts[..])) &&
        EnabledValid() && seenFirstTrackSelection
      ensures res.Ok? ==>
        var ws := sampleStreamWrappers.value;
        var enabled := Enabled(ws, selectedTrackCounts[..]);
        var seek := old(seenFirstTrackSelection) && |newSelections| > 0 && |enabled| > 0;
        timestampAdjusterProvider.resets == old(timestampAdjusterProvider.resets) + (if seek then 1 else 0) &&
        forall w :: w in ws ==>
          w.seeks == old(w.seeks) + (if seek && w in enabled then [if isLive then 0 else positionUs] else [])
      ensures var ws := sampleStreamWrappers.value;
        res.Err? ==>
          sampleStreamSources == TakeOwned(old(sampleStreamSources), oldStreams, ws[0]).1 &&
          selectedTrackCounts[..] == old(selectedTrackCounts[..]) && selectCalls == old(selectCalls) &&
          enabledSampleStreamWrappers == old(enabledSampleStreamWrappers) &&
          seenFirstTrackSelection == old(seenFirstTrackSelection) &&
          timestampAdjusterProvider.resets == old(timestampAdjusterProvider.resets) &&
          forall w :: w in ws ==> w.seeks == old(w.seeks)
      ensures var ws := sampleStreamWrappers.value;
        res.Ok? ==>
          RoundDone(ws, oldStreams, newSelections, old(sampleStreamSources), old(selectedTrackCounts[..]),
                    old(seenFirstTrackSelection), old(selectCalls), selAll, outsAll,
                    sampleStreamSources, res.value, selectedTrackCounts[..], selectCalls)
    {
      ghost var seen0, resets0 := seenFirstTrackSelection, timestampAdjusterProvider.resets;
      res, selAll, outsAll := SelectionRound(oldStreams, newSelections);
      assert seenFirstTrackSelection == seen0 && timestampAdjusterProvider.resets == resets0;
      assert forall w :: w in sampleStreamWrappers.value ==> w.seeks == old(w.seeks);
      if res.Err? {
        return;
      }
      ghost var sources, counts, calls := sampleStreamSources, selectedTrackCounts[..], selectCalls;
      FinishSelection(|newSelections| > 0, positionUs);
      assert sampleStreamSources == sources && selectedTrackCounts[..] == counts && selectCalls == calls;
    }

    /** The second loop of selectTracks: the wrappers with a positive selected-track count become the enabled ones. */
    method UpdateEnabled()
      requires Built()
      modifies this`enabledSampleStreamWrappers
      ensures enabledSampleStreamWrappers == Some(Enabled(sampleStreamWrappers.value, selectedTrackCounts[..]))
      ensures EnabledValid()
    {
      var ws := sampleStreamWrappers.value;
      var enabled := [];
      for i := 0 to |ws|
        invariant enabled == Enabled(ws[..i], selectedTrackCounts[..i])
      {
        EnabledSnoc(ws[..i], selectedTrackCounts[..i], ws[i], selectedTrackCounts[i]);
        assert ws[..i + 1] == ws[..i] + [ws[i]];
        assert selectedTrackCounts[..i + 1] == selectedTrackCounts[..i] + [selectedTrackCounts[i]];
        if selectedTrackCounts[i] > 0 {
          enabled := enabled + [ws[i]];
        }
      }
      assert ws[..|ws|] == ws && selectedTrackCounts[..|ws|] == selectedTrackCounts[..];
      EnabledSpec(ws, selectedTrackCounts[..]);
      enabledSampleStreamWrappers := Some(enabled);
    }
  }
}