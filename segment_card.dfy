/** client/src/components/SegmentCard.jsx: what one segment card derives from its props.
    The markup widget it loads at run time, and the rendering itself, are not modelled. */
module SegmentCard {
  import opened Js

  /** A segment record as the catalog serves it, plus the `audio_path` that the annotator
      adds on load. Only the fields the client reads are kept. */
  datatype Segment = Segment(
    id: int,
    unsanitizedVerbatim: Option<string>,
    unsanitizedNormalized: Option<string>,
    rsml: Option<string>,
    audioFilepath: Option<string>,
    audio: Option<string>,
    audioPath: Option<string>)

  /** What the card shows below the text areas. */
  datatype AudioView = Player(src: string) | NoAudio

  /** `segment.unsanitized_verbatim || ''` */
  function Verbatim(segment: Segment): (r: string)
    ensures !Truthy(segment.unsanitizedVerbatim) <==> r == ""
    ensures r != "" ==> r == segment.unsanitizedVerbatim.value
  {
    OrEmpty(segment.unsanitizedVerbatim)
  }

  /** `segment.unsanitized_normalized || ''` */
  function Normalized(segment: Segment): (r: string)
    ensures !Truthy(segment.unsanitizedNormalized) <==> r == ""
    ensures r != "" ==> r == segment.unsanitizedNormalized.value
  {
    OrEmpty(segment.unsanitizedNormalized)
  }

  /** `segment.rsml || verbatim`: the text area starts from the saved markup when there is
      some, and from the verbatim transcript otherwise (an empty markup falls back too). */
  function Transcript(segment: Segment): (r: string)
    ensures Truthy(segment.rsml) ==> r == segment.rsml.value
    ensures !Truthy(segment.rsml) ==> r == Verbatim(segment)
    ensures r == "" <==> !Truthy(segment.rsml) && !Truthy(segment.unsanitizedVerbatim)
  {
    if Truthy(segment.rsml) then segment.rsml.value else Verbatim(segment)
  }

  /** `segment.audio ? audioBase + segment.audio : null`, where an `audioBase` prop that
      was not passed concatenates as "undefined". */
  function AudioPath(segment: Segment, audioBase: Option<string>): (r: Option<string>)
    ensures r.Some? <==> Truthy(segment.audio)
    ensures r.Some? ==> r.value == Interpolate(audioBase) + segment.audio.value
  {
    if Truthy(segment.audio) then Some(Interpolate(audioBase) + segment.audio.value) else None
  }

  /** A player for a non-null audio path, the 'No audio' notice otherwise. */
  function Audio(segment: Segment, audioBase: Option<string>): (v: AudioView)
    ensures v.NoAudio? <==> !Truthy(segment.audio)
    ensures v.Player? ==> v.src == AudioPath(segment, audioBase).value
  {
    match AudioPath(segment, audioBase)
    case None => NoAudio
    case Some(src) => Player(src)
  }

  /** The player the card is meant to show: the `audio_path` the annotator resolves for each
      segment when it loads a file, or the 'No audio' notice when there is none. */
  function IntendedAudio(segment: Segment): (v: AudioView)
    ensures v.NoAudio? <==> !Truthy(segment.audioPath)
    ensures v.Player? ==> v.src == segment.audioPath.value
  {
    if Truthy(segment.audioPath) then Player(segment.audioPath.value) else NoAudio
  }
}
