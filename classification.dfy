/**
 * Rendition classification: how a parsed HLS playlist becomes the ordered list of
 * sample-stream-wrapper descriptors the period prepares.
 *
 * A media playlist gives one default wrapper over a single synthesized variant. A master
 * playlist gives a default wrapper over a selection of its EXT-X-STREAM-INF variants
 * (section 4.3.4.2 of RFC 8216), then an audio wrapper over its audio EXT-X-MEDIA
 * renditions and a text wrapper over its subtitle renditions (section 4.3.4.1 of
 * RFC 8216), each only when there is something to put in it.
 */
module Classification {
  import opened Options
  import opened Seqs
  import opened CodecPrefix

  /** Format.NO_VALUE. */
  const NO_VALUE: int := -1
  /** MimeTypes.APPLICATION_M3U8. */
  const APPLICATION_M3U8: string := "application/x-mpegURL"

  /** C.TRACK_TYPE_DEFAULT, C.TRACK_TYPE_AUDIO and C.TRACK_TYPE_TEXT. */
  datatype TrackType = Default | Audio | Text

  /** The fields of a Format the classification reads or builds; an absent string is Java's null. */
  datatype Format = Format(
    id: string, containerMimeType: Option<string>, codecs: Option<string>, bitrate: int, height: int)

  /** A variant stream: its URL, its format and its CODECS attribute, if any. */
  datatype Variant = Variant(url: string, format: Format, codecs: Option<string>)

  datatype Playlist =
    | MediaPlaylist(baseUri: string)
    | MasterPlaylist(
        baseUri: string,
        variants: seq<Variant>, audios: seq<Variant>, subtitles: seq<Variant>,
        muxedAudioFormat: Option<Format>, muxedCaptionFormat: Option<Format>)

  /**
   * What buildSampleStreamWrapper hands to a new wrapper: its track type, the base URI,
   * its variants, whether it gets an adaptive format evaluator (null otherwise) and the
   * muxed audio and caption formats.
   */
  datatype WrapperConfig = WrapperConfig(
    trackType: TrackType, baseUri: string, variants: seq<Variant>, adaptive: bool,
    muxedAudioFormat: Option<Format>, muxedCaptionFormat: Option<Format>)

  /** Format.createContainerFormat: a format with a container MIME type and no height. */
  function ContainerFormat(id: string, containerMimeType: string, codecs: Option<string>, bitrate: int): Format {
    Format(id, Some(containerMimeType), codecs, bitrate, NO_VALUE)
  }

  /** A variant that certainly carries video: it has a height, or an "avc" codec. */
  predicate IsDefiniteVideo(v: Variant) {
    v.format.height > 0 || HasExplicitCodecWithPrefix(v.codecs, "avc")
  }

  /** A variant that certainly carries only audio: not definite video, and an "mp4a" codec. */
  predicate IsDefiniteAudioOnly(v: Variant) {
    !IsDefiniteVideo(v) && HasExplicitCodecWithPrefix(v.codecs, "mp4a")
  }

  predicate IsNotDefiniteAudioOnly(v: Variant) {
    !IsDefiniteAudioOnly(v)
  }

  /**
   * The classification loop from index `i` on, appending each variant to the video list,
   * to the audio-only list, or to neither.
   */
  function PartitionFrom(vs: seq<Variant>, i: nat, video: seq<Variant>, audioOnly: seq<Variant>): (seq<Variant>, seq<Variant>)
    requires i <= |vs|
    decreases |vs| - i
  {
    if i == |vs| then (video, audioOnly)
    else if vs[i].format.height > 0 || HasExplicitCodecWithPrefix(vs[i].codecs, "avc") then
      PartitionFrom(vs, i + 1, video + [vs[i]], audioOnly)
    else if HasExplicitCodecWithPrefix(vs[i].codecs, "mp4a") then
      PartitionFrom(vs, i + 1, video, audioOnly + [vs[i]])
    else
      PartitionFrom(vs, i + 1, video, audioOnly)
  }

  /** The definite-video and the definite-audio-only variants, as the loop collects them. */
  function Partition(vs: seq<Variant>): (seq<Variant>, seq<Variant>) {
    PartitionFrom(vs, 0, [], [])
  }

  /** List.removeAll: the elements of `xs` that do not occur in `ys`, in order. */
  function RemoveAll(xs: seq<Variant>, ys: seq<Variant>): seq<Variant> {
    if |xs| == 0 then [] else (if xs[0] in ys then [] else [xs[0]]) + RemoveAll(xs[1..], ys)
  }

  /** The variants of the default wrapper. */
  function DefaultVariants(vs: seq<Variant>): seq<Variant> {
    var video := Partition(vs).0;
    var audioOnly := Partition(vs).1;
    if |video| > 0 then video
    else if |audioOnly| < |vs| then RemoveAll(vs, audioOnly)
    else vs
  }

  /** The single variant a media playlist is played through. */
  function MediaPlaylistVariant(baseUri: string): Variant {
    Variant(baseUri, ContainerFormat("0", APPLICATION_M3U8, None, NO_VALUE), None)
  }

  /** buildSampleStreamWrappers, as the list of wrapper descriptors in construction order. */
  function BuildSampleStreamWrappers(playlist: Playlist): seq<WrapperConfig> {
    match playlist
    case MediaPlaylist(baseUri) =>
      [WrapperConfig(Default, baseUri, [MediaPlaylistVariant(baseUri)], true, None, None)]
    case MasterPlaylist(baseUri, variants, audios, subtitles, muxedAudio, muxedCaption) =>
      var selected := DefaultVariants(variants);
      (if |selected| > 0 then [WrapperConfig(Default, baseUri, selected, true, muxedAudio, muxedCaption)] else []) +
      (if |audios| > 0 then [WrapperConfig(Audio, baseUri, audios, false, None, None)] else []) +
      (if |subtitles| > 0 then [WrapperConfig(Text, baseUri, subtitles, false, None, None)] else [])
  }

  function TrackTypes(configs: seq<WrapperConfig>): (types: seq<TrackType>)
    ensures |types| == |configs|
    ensures forall i :: 0 <= i < |configs| ==> types[i] == configs[i].trackType
  {
    seq(|configs|, i requires 0 <= i < |configs| => configs[i].trackType)
  }

  // Properties of the partition loop.

  lemma {:induction false} PartitionFromFilters(vs: seq<Variant>, i: nat)
    requires i <= |vs|
    ensures PartitionFrom(vs, i, Filter(vs[..i], IsDefiniteVideo), Filter(vs[..i], IsDefiniteAudioOnly)) ==
      (Filter(vs, IsDefiniteVideo), Filter(vs, IsDefiniteAudioOnly))
    decreases |vs| - i
  {
    if i == |vs| {
      assert vs[..i] == vs;
    } else {
      assert vs[..i + 1] == vs[..i] + [vs[i]];
      FilterSnoc(vs[..i], vs[i], IsDefiniteVideo);
      FilterSnoc(vs[..i], vs[i], IsDefiniteAudioOnly);
      PartitionFromFilters(vs, i + 1);
      var video := Filter(vs[..i], IsDefiniteVideo);
      var audioOnly := Filter(vs[..i], IsDefiniteAudioOnly);
      if IsDefiniteVideo(vs[i]) {
        assert Filter(vs[..i + 1], IsDefiniteAudioOnly) == audioOnly + [] == audioOnly;
        assert PartitionFrom(vs, i, video, audioOnly) == PartitionFrom(vs, i + 1, video + [vs[i]], audioOnly);
      } else if IsDefiniteAudioOnly(vs[i]) {
        assert Filter(vs[..i + 1], IsDefiniteVideo) == video + [] == video;
        assert PartitionFrom(vs, i, video, audioOnly) == PartitionFrom(vs, i + 1, video, audioOnly + [vs[i]]);
      } else {
        assert Filter(vs[..i + 1], IsDefiniteVideo) == video + [] == video;
        assert Filter(vs[..i + 1], IsDefiniteAudioOnly) == audioOnly + [] == audioOnly;
        assert PartitionFrom(vs, i, video, audioOnly) == PartitionFrom(vs, i + 1, video, audioOnly);
      }
    }
  }

  /**
   * The loop collects exactly the definite-video variants and exactly the definite-audio-only
   * variants, each in playlist order.
   */
  lemma PartitionIsFilter(vs: seq<Variant>)
    ensures Partition(vs).0 == Filter(vs, IsDefiniteVideo)
    ensures Partition(vs).1 == Filter(vs, IsDefiniteAudioOnly)
  {
    assert vs[..0] == [];
    PartitionFromFilters(vs, 0);
  }

  lemma {:induction false} RemoveAllIsFilter(xs: seq<Variant>, ys: seq<Variant>, p: Variant -> bool)
    requires forall i :: 0 <= i < |xs| ==> (xs[i] in ys <==> !p(xs[i]))
    ensures RemoveAll(xs, ys) == Filter(xs, p)
  {
    if |xs| > 0 {
      assert forall i :: 1 <= i < |xs| ==> xs[i] == xs[1..][i - 1];
      RemoveAllIsFilter(xs[1..], ys, p);
    }
  }

  /** Removing the audio-only variants collected from a list leaves its other variants. */
  lemma RemoveAudioOnly(vs: seq<Variant>)
    ensures RemoveAll(vs, Filter(vs, IsDefiniteAudioOnly)) == Filter(vs, IsNotDefiniteAudioOnly)
  {
    forall i | 0 <= i < |vs|
      ensures vs[i] in Filter(vs, IsDefiniteAudioOnly) <==> !IsNotDefiniteAudioOnly(vs[i])
    {
      FilterMembers(vs, IsDefiniteAudioOnly, vs[i]);
    }
    RemoveAllIsFilter(vs, Filter(vs, IsDefiniteAudioOnly), IsNotDefiniteAudioOnly);
  }

  // The three branches of the default-group selection.

  /** With some definite-video variant, the default group is exactly the definite-video variants, in order. */
  lemma DefaultGroupVideo(vs: seq<Variant>)
    requires exists i :: 0 <= i < |vs| && IsDefiniteVideo(vs[i])
    ensures DefaultVariants(vs) == Filter(vs, IsDefiniteVideo)
  {
    PartitionIsFilter(vs);
    FilterEmpty(vs, IsDefiniteVideo);
  }

  /**
   * With no definite-video variant and some variant that is not audio-only, the default group
   * is the variant list without its audio-only variants, in order.
   */
  lemma DefaultGroupDropsAudioOnly(vs: seq<Variant>)
    requires forall i :: 0 <= i < |vs| ==> !IsDefiniteVideo(vs[i])
    requires exists i :: 0 <= i < |vs| && !IsDefiniteAudioOnly(vs[i])
    ensures DefaultVariants(vs) == Filter(vs, IsNotDefiniteAudioOnly)
  {
    PartitionIsFilter(vs);
    FilterEmpty(vs, IsDefiniteVideo);
    FilterFull(vs, IsDefiniteAudioOnly);
    RemoveAudioOnly(vs);
  }

  /**
   * With no definite-video variant, and either every variant or no variant audio-only,
   * the default group is the variant list unchanged.
   */
  lemma DefaultGroupUnchanged(vs: seq<Variant>)
    requires forall i :: 0 <= i < |vs| ==> !IsDefiniteVideo(vs[i])
    requires (forall i :: 0 <= i < |vs| ==> IsDefiniteAudioOnly(vs[i])) ||
             (forall i :: 0 <= i < |vs| ==> !IsDefiniteAudioOnly(vs[i]))
    ensures DefaultVariants(vs) == vs
  {
    PartitionIsFilter(vs);
    FilterEmpty(vs, IsDefiniteVideo);
    FilterFull(vs, IsDefiniteAudioOnly);
    if !(forall i :: 0 <= i < |vs| ==> IsDefiniteAudioOnly(vs[i])) {
      RemoveAudioOnly(vs);
      FilterFull(vs, IsNotDefiniteAudioOnly);
    }
  }

  /** The default group is empty only when the master playlist lists no variant at all. */
  lemma DefaultGroupNonEmpty(vs: seq<Variant>)
    ensures |DefaultVariants(vs)| > 0 <==> |vs| > 0
  {
    PartitionIsFilter(vs);
    FilterFull(vs, IsDefiniteAudioOnly);
    if |Partition(vs).0| == 0 && |Partition(vs).1| < |vs| {
      var i :| 0 <= i < |vs| && !IsDefiniteAudioOnly(vs[i]);
      RemoveAudioOnly(vs);
      FilterMembers(vs, IsNotDefiniteAudioOnly, vs[i]);
    }
  }

  /** Every variant of the default group is one of the playlist's, in playlist order. */
  lemma DefaultGroupIsSubsequence(vs: seq<Variant>)
    ensures IsSubsequence(DefaultVariants(vs), vs)
  {
    PartitionIsFilter(vs);
    if |Partition(vs).0| > 0 {
      FilterIsSubsequence(vs, IsDefiniteVideo);
    } else if |Partition(vs).1| < |vs| {
      RemoveAudioOnly(vs);
      FilterIsSubsequence(vs, IsNotDefiniteAudioOnly);
    } else {
      FilterFull(vs, IsDefiniteAudioOnly);
      FilterIsSubsequence(vs, IsDefiniteAudioOnly);
    }
  }

  // The wrapper list.

  /** A media playlist gives one default wrapper over the synthesized variant at the playlist URI. */
  lemma MediaPlaylistWrapper(playlist: Playlist)
    requires playlist.MediaPlaylist?
    ensures |BuildSampleStreamWrappers(playlist)| == 1
    ensures BuildSampleStreamWrappers(playlist)[0].trackType == Default
    ensures BuildSampleStreamWrappers(playlist)[0].variants ==
      [Variant(playlist.baseUri, Format("0", Some(APPLICATION_M3U8), None, NO_VALUE, NO_VALUE), None)]
    ensures BuildSampleStreamWrappers(playlist)[0].adaptive
    ensures BuildSampleStreamWrappers(playlist)[0].muxedAudioFormat.None?
    ensures BuildSampleStreamWrappers(playlist)[0].muxedCaptionFormat.None?
  {
  }

  /**
   * A master playlist gives, in this order, a default wrapper when it lists some variant,
   * an audio wrapper when it has audio renditions, and a text wrapper when it has subtitles.
   */
  lemma MasterPlaylistWrapperOrder(playlist: Playlist)
    requires playlist.MasterPlaylist?
    ensures TrackTypes(BuildSampleStreamWrappers(playlist)) ==
      (if |playlist.variants| > 0 then [Default] else []) +
      (if |playlist.audios| > 0 then [Audio] else []) +
      (if |playlist.subtitles| > 0 then [Text] else [])
  {
    DefaultGroupNonEmpty(playlist.variants);
  }

  /**
   * What each wrapper of a master playlist carries: the default one the selected variants, an
   * adaptive evaluator and the muxed formats; the audio and text ones their renditions and
   * neither an evaluator nor muxed formats.
   */
  lemma MasterPlaylistWrapperContents(playlist: Playlist, i: nat)
    requires playlist.MasterPlaylist? && i < |BuildSampleStreamWrappers(playlist)|
    ensures BuildSampleStreamWrappers(playlist)[i].baseUri == playlist.baseUri
    ensures BuildSampleStreamWrappers(playlist)[i].trackType == Default ==>
      BuildSampleStreamWrappers(playlist)[i] ==
        WrapperConfig(Default, playlist.baseUri, DefaultVariants(playlist.variants), true,
                      playlist.muxedAudioFormat, playlist.muxedCaptionFormat)
    ensures BuildSampleStreamWrappers(playlist)[i].trackType == Audio ==>
      BuildSampleStreamWrappers(playlist)[i] == WrapperConfig(Audio, playlist.baseUri, playlist.audios, false, None, None)
    ensures BuildSampleStreamWrappers(playlist)[i].trackType == Text ==>
      BuildSampleStreamWrappers(playlist)[i] == WrapperConfig(Text, playlist.baseUri, playlist.subtitles, false, None, None)
  {
  }

  /**
   * Every wrapper gets at least one variant; there are at most three wrappers, and none only
   * for a master playlist without variants, audio renditions or subtitles.
   */
  lemma WrappersHaveVariants(playlist: Playlist)
    ensures |BuildSampleStreamWrappers(playlist)| <= 3
    ensures |BuildSampleStreamWrappers(playlist)| == 0 <==>
      playlist.MasterPlaylist? && |playlist.variants| == 0 && |playlist.audios| == 0 && |playlist.subtitles| == 0
    ensures forall i :: 0 <= i < |BuildSampleStreamWrappers(playlist)| ==>
      |BuildSampleStreamWrappers(playlist)[i].variants| > 0
  {
    if playlist.MasterPlaylist? {
      DefaultGroupNonEmpty(playlist.variants);
    }
  }

  /**
   * The first wrapper, whose duration and liveness the period adopts, is the default one
   * exactly when the playlist is a media playlist or a master playlist with some variant.
   */
  lemma FirstWrapperIsDefault(playlist: Playlist)
    requires |BuildSampleStreamWrappers(playlist)| > 0
    ensures BuildSampleStreamWrappers(playlist)[0].trackType == Default <==>
      playlist.MediaPlaylist? || |playlist.variants| > 0
  {
    if playlist.MasterPlaylist? {
      DefaultGroupNonEmpty(playlist.variants);
    }
  }
}
