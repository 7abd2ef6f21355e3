/** client/src/components/Annotator.jsx: the annotation session. The component's state
    (`batches`, `files`, `segments`, `currentBatch`, `currentFile`, `loading`, `error`) is a
    `Session` object and each handler a method on it. Every awaited API call is a parameter
    holding how that call settled; the React state updates are applied in program order. */
module Annotator {
  import opened Js
  import opened SegmentCard

  const AudioBase := "/data/audio/"
  const BatchesError := "Failed to load batches"
  const FilesError := "Failed to load files"
  const SegmentsError := "Failed to load segments"

  /** `Array.from({ length: n }, (_, i) => i + 1)` */
  function BatchList(n: nat): (r: seq<nat>)
    ensures |r| == n
  {
    seq(n, i => i + 1)
  }

  /** The batch list counts 1, 2, ..., n: strictly ascending, and holds exactly 1..n. */
  lemma BatchListIsRange(n: nat)
    ensures forall i, j :: 0 <= i < j < n ==> BatchList(n)[i] < BatchList(n)[j]
    ensures forall b :: b in BatchList(n) <==> 1 <= b <= n
    ensures n > 0 ==> BatchList(n)[0] == 1 && BatchList(n)[n - 1] == n
  {
    var r := BatchList(n);
    forall b | 1 <= b <= n ensures b in r {
      assert r[b - 1] == b;
    }
  }

  /** `{ ...seg, audio_path: `${AUDIO_BASE}${seg.audio_filepath}` }` */
  function Processed(seg: Segment): Segment {
    seg.(audioPath := Some(AudioBase + Interpolate(seg.audioFilepath)))
  }

  /** The per-segment transform applied to a loaded file: same order, same fields, and an
      `audio_path` under the audio base (a missing `audio_filepath` prints as "undefined"). */
  function ProcessSegments(data: seq<Segment>): (r: seq<Segment>)
    ensures |r| == |data|
    ensures forall i :: 0 <= i < |data| ==> r[i].(audioPath := data[i].audioPath) == data[i]
    ensures forall i :: 0 <= i < |data| ==> r[i].audioPath == Some(AudioBase + Interpolate(data[i].audioFilepath))
  {
    seq(|data|, i requires 0 <= i < |data| => Processed(data[i]))
  }

  /** Every segment in the session carries the audio path computed from its own file path. */
  ghost predicate AudioPathsResolved(segments: seq<Segment>) {
    forall i :: 0 <= i < |segments| ==>
      segments[i].audioPath == Some(AudioBase + Interpolate(segments[i].audioFilepath))
  }

  /** `segments.map(seg => seg.id === segmentId ? { ...seg, rsml } : seg)` */
  function WithSavedRsml(segments: seq<Segment>, segmentId: int, rsml: string): (r: seq<Segment>)
    ensures |r| == |segments|
    ensures forall i :: 0 <= i < |r| && segments[i].id != segmentId ==> r[i] == segments[i]
    ensures forall i :: 0 <= i < |r| && segments[i].id == segmentId ==>
              r[i].rsml == Some(rsml) && r[i].(rsml := segments[i].rsml) == segments[i]
  {
    seq(|segments|, i requires 0 <= i < |segments| =>
      if segments[i].id == segmentId then segments[i].(rsml := Some(rsml)) else segments[i])
  }

  /** A write-through save keeps every audio path as it was. */
  lemma SavePreservesAudioPaths(segments: seq<Segment>, segmentId: int, rsml: string)
    requires AudioPathsResolved(segments)
    ensures AudioPathsResolved(WithSavedRsml(segments, segmentId, rsml))
  {
  }

  /** After a save of non-empty markup, the card of every segment with that id starts from the
      saved text; after a save of '' it falls back to the verbatim transcript. */
  lemma SavedMarkupShownOnCard(segments: seq<Segment>, segmentId: int, rsml: string, i: nat)
    requires i < |segments| && segments[i].id == segmentId
    ensures rsml != "" ==> Transcript(WithSavedRsml(segments, segmentId, rsml)[i]) == rsml
    ensures rsml == "" ==> Transcript(WithSavedRsml(segments, segmentId, rsml)[i]) == Verbatim(segments[i])
  {
  }

  /** A freshly loaded segment without saved markup starts from its verbatim transcript. */
  lemma LoadedSegmentStartsFromVerbatim(data: seq<Segment>, i: nat)
    requires i < |data| && !Truthy(data[i].rsml)
    ensures Transcript(ProcessSegments(data)[i]) == Verbatim(data[i])
  {
  }

  /** The card as the session renders it: no `audioBase` is passed, and the card reads
      `audio`, not the `audio_path` resolved on load. A segment served without `audio` shows
      'No audio' although its file path is known; one with `audio` gets a source starting
      with "undefined". */
  lemma CardAudioAsWritten(data: seq<Segment>, i: nat)
    requires i < |data|
    ensures !Truthy(data[i].audio) ==> Audio(ProcessSegments(data)[i], None) == NoAudio
    ensures Truthy(data[i].audio) ==> Audio(ProcessSegments(data)[i], None) == Player("undefined" + data[i].audio.value)
  {
  }

  /** A concrete segment whose file path is known but whose card offers no audio. */
  lemma CardAudioCounterexample()
    ensures var seg := Segment(1, Some("text"), None, None, Some("b1/f1/s1.wav"), None, None);
            && ProcessSegments([seg])[0].audioPath == Some("/data/audio/b1/f1/s1.wav")
            && Audio(ProcessSegments([seg])[0], None) == NoAudio
  {
    var seg := Segment(1, Some("text"), None, None, Some("b1/f1/s1.wav"), None, None);
    CardAudioAsWritten([seg], 0);
    assert Interpolate(seg.audioFilepath) == "b1/f1/s1.wav";
    assert AudioBase + "b1/f1/s1.wav" == "/data/audio/b1/f1/s1.wav";
  }

  /** With the card reading `audio_path`, every loaded segment plays the file under the audio
      base named by its own `audio_filepath`. */
  lemma LoadedSegmentPlaysItsFile(data: seq<Segment>, i: nat)
    requires i < |data|
    ensures IntendedAudio(ProcessSegments(data)[i]) == Player(AudioBase + Interpolate(data[i].audioFilepath))
  {
  }

  /** One `api.saveRsml(id, rsml)` call. */
  datatype SaveRequest = SaveRequest(id: int, rsml: string)

  /** The calls save-all makes: every segment once, in order, with `segment.rsml || ''`. */
  function SaveRequests(segments: seq<Segment>): (r: seq<SaveRequest>)
    ensures |r| == |segments|
    ensures forall i :: 0 <= i < |r| ==> r[i] == SaveRequest(segments[i].id, OrEmpty(segments[i].rsml))
  {
    seq(|segments|, i requires 0 <= i < |segments| => SaveRequest(segments[i].id, OrEmpty(segments[i].rsml)))
  }

  /** How many of `requests` the server accepted, given the outcome of each call. */
  function Accepted(requests: seq<SaveRequest>, accepts: SaveRequest -> bool): (n: nat)
    ensures n <= |requests|
  {
    if requests == [] then 0
    else Accepted(requests[..|requests| - 1], accepts) + (if accepts(requests[|requests| - 1]) then 1 else 0)
  }

  /** The count over a list is the sum of the counts over its parts, so each call's outcome
      contributes independently of the others. */
  lemma {:induction false} AcceptedSplit(a: seq<SaveRequest>, b: seq<SaveRequest>, accepts: SaveRequest -> bool)
    ensures Accepted(a + b, accepts) == Accepted(a, accepts) + Accepted(b, accepts)
  {
    if b != [] {
      var c := a + b;
      assert c[..|c| - 1] == a + b[..|b| - 1];
      assert c[|c| - 1] == b[|b| - 1];
      AcceptedSplit(a, b[..|b| - 1], accepts);
    } else {
      assert a + b == a;
    }
  }

  /** All calls are counted exactly when each one is accepted, none exactly when each one
      fails. */
  lemma {:induction false} AcceptedBounds(requests: seq<SaveRequest>, accepts: SaveRequest -> bool)
    ensures Accepted(requests, accepts) == |requests| <==> forall i :: 0 <= i < |requests| ==> accepts(requests[i])
    ensures Accepted(requests, accepts) == 0 <==> forall i :: 0 <= i < |requests| ==> !accepts(requests[i])
  {
    if requests != [] {
      var init := requests[..|requests| - 1];
      AcceptedBounds(init, accepts);
      assert forall i :: 0 <= i < |init| ==> init[i] == requests[i];
    }
  }

  /** The loop of `handleSaveAll`: calls the server once per segment, in order, never stops on
      a failure, and counts the outcomes. `accepts` says how each call settles. */
  method SaveEach(segments: seq<Segment>, accepts: SaveRequest -> bool)
    returns (sent: seq<SaveRequest>, successCount: nat, failCount: nat)
    ensures sent == SaveRequests(segments)
    ensures successCount == Accepted(sent, accepts)
    ensures successCount + failCount == |segments|
  {
    sent, successCount, failCount := [], 0, 0;
    for k := 0 to |segments|
      invariant sent == SaveRequests(segments[..k])
      invariant successCount == Accepted(sent, accepts)
      invariant successCount + failCount == k
    {
      var request := SaveRequest(segments[k].id, OrEmpty(segments[k].rsml));
      assert segments[..k + 1] == segments[..k] + [segments[k]];
      assert (sent + [request])[..|sent|] == sent;
      sent := sent + [request];
      if accepts(request) {
        successCount := successCount + 1;
      } else {
        failCount := failCount + 1;
      }
    }
    assert segments[..|segments|] == segments;
  }

  /** The alert shown when save-all ends. */
  datatype SaveAllNotice = AllSaved(count: nat) | PartlySaved(saved: nat, failed: nat)

  /** What `handleSave` returns. */
  datatype SaveResult = Saved | SaveFailed(error: string)

  /** `files.indexOf(x)`, where `None` is `NaN` and is never found. */
  function IndexOf(files: seq<nat>, x: Option<int>): (r: int)
    ensures -1 <= r < |files|
    ensures r >= 0 ==> x.Some? && files[r] == x.value && forall j :: 0 <= j < r ==> files[j] != x.value
    ensures r == -1 <==> x.None? || forall j :: 0 <= j < |files| ==> files[j] != x.value
  {
    if x.None? || files == [] then -1
    else if files[0] == x.value then 0
    else
      var k := IndexOf(files[1..], x);
      if k == -1 then -1 else k + 1
  }

  /** The file `handlePrev` moves to: the one before `currentFile`, if that has index > 0. */
  function PrevFile(files: seq<nat>, currentFile: string): (r: Option<nat>)
    ensures var i := IndexOf(files, ParseInt(currentFile));
            && (r.None? <==> i <= 0)
            && (r.Some? ==> r.value == files[i - 1])
  {
    var i := IndexOf(files, ParseInt(currentFile));
    if i > 0 then Some(files[i - 1]) else None
  }

  /** The file `handleNext` moves to: the one after `currentFile`, unless it is the last;
      an absent `currentFile` (index -1) moves to the first file. */
  function NextFile(files: seq<nat>, currentFile: string): (r: Option<nat>)
    ensures var i := IndexOf(files, ParseInt(currentFile));
            && (r.None? <==> i == |files| - 1)
            && (r.Some? ==> r.value == files[i + 1])
  {
    var i := IndexOf(files, ParseInt(currentFile));
    if i < |files| - 1 then Some(files[i + 1]) else None
  }

  ghost predicate Distinct(files: seq<nat>) {
    forall i, j :: 0 <= i < j < |files| ==> files[i] != files[j]
  }

  /** In a list of distinct file numbers, `indexOf` of an element is its position. */
  lemma IndexOfDistinct(files: seq<nat>, k: nat)
    requires Distinct(files) && k < |files|
    ensures IndexOf(files, Some(files[k])) == k
  {
  }

  /** Prev undoes Next: from a selected file that is not the last, Next then Prev comes back. */
  lemma PrevUndoesNext(files: seq<nat>, currentFile: string)
    requires Distinct(files)
    requires 0 <= IndexOf(files, ParseInt(currentFile)) < |files| - 1
    ensures var n := NextFile(files, currentFile).value;
            PrevFile(files, NatToString(n)) == Some(files[IndexOf(files, ParseInt(currentFile))])
  {
    var i := IndexOf(files, ParseInt(currentFile));
    ParseIntOfToString(files[i + 1]);
    IndexOfDistinct(files, i + 1);
  }

  /** Next undoes Prev: from a selected file that is not the first, Prev then Next comes back. */
  lemma NextUndoesPrev(files: seq<nat>, currentFile: string)
    requires Distinct(files)
    requires IndexOf(files, ParseInt(currentFile)) > 0
    ensures var p := PrevFile(files, currentFile).value;
            NextFile(files, NatToString(p)) == Some(files[IndexOf(files, ParseInt(currentFile))])
  {
    var i := IndexOf(files, ParseInt(currentFile));
    ParseIntOfToString(files[i - 1]);
    IndexOfDistinct(files, i - 1);
  }

  /** `disabled={!currentFile || files.indexOf(parseInt(currentFile)) === 0}` negated. */
  predicate PrevEnabled(files: seq<nat>, currentFile: string) {
    currentFile != "" && IndexOf(files, ParseInt(currentFile)) != 0
  }

  /** `disabled={!currentFile || files.indexOf(parseInt(currentFile)) === files.length - 1}` negated. */
  predicate NextEnabled(files: seq<nat>, currentFile: string) {
    currentFile != "" && IndexOf(files, ParseInt(currentFile)) != |files| - 1
  }

  /** The buttons and the handlers agree on a file that is in the list: an enabled button
      always moves, a disabled one belongs to the boundary where the handler does nothing. */
  lemma ButtonsMatchHandlers(files: seq<nat>, currentFile: string)
    requires currentFile != "" && IndexOf(files, ParseInt(currentFile)) >= 0
    ensures PrevEnabled(files, currentFile) <==> PrevFile(files, currentFile).Some?
    ensures NextEnabled(files, currentFile) <==> NextFile(files, currentFile).Some?
  {
  }

  /** The part of the state a segment load writes. */
  datatype LoadView = LoadView(segments: seq<Segment>, loading: bool, error: string)

  /** The effect of `loadFileSegments` for the batch that was current: nothing without a
      batch; otherwise `loading` ends false, and the segments are replaced by the processed
      reply (error cleared) or kept (error set) when the request fails. */
  function LoadEffect(batch: string, response: Fetch<seq<Segment>>, before: LoadView): (after: LoadView)
    ensures batch == "" ==> after == before
    ensures batch != "" ==> !after.loading
    ensures batch != "" && response.Resolved? ==>
              after.segments == ProcessSegments(response.value) && after.error == ""
    ensures batch != "" && response.Rejected? ==>
              after.segments == before.segments && after.error == SegmentsError
  {
    if batch == "" then before
    else match response
      case Resolved(data) => LoadView(ProcessSegments(data), false, "")
      case Rejected => LoadView(before.segments, false, SegmentsError)
  }

  class Session {
    var batches: seq<nat>
    var files: seq<nat>
    var segments: seq<Segment>
    var currentBatch: string
    var currentFile: string
    var loading: bool
    var error: string

    ghost predicate Valid()
      reads this
    {
      AudioPathsResolved(segments)
    }

    function View(): LoadView
      reads this
    {
      LoadView(segments, loading, error)
    }

    constructor ()
      ensures Valid()
      ensures batches == [] && files == [] && segments == []
      ensures currentBatch == "" && currentFile == "" && !loading && error == ""
    {
      batches, files, segments := [], [], [];
      currentBatch, currentFile := "", "";
      loading, error := false, "";
    }

    /** `loadBatches`, given how `api.getBatches()` settled (its `max_batch`). */
    method LoadBatches(response: Fetch<nat>)
      modifies this`batches, this`error
      ensures response.Resolved? ==> batches == BatchList(response.value) && error == old(error)
      ensures response.Rejected? ==> batches == old(batches) && error == BatchesError
    {
      match response
      case Resolved(maxBatch) => batches := BatchList(maxBatch);
      case Rejected => error := BatchesError;
    }

    /** `handleBatchChange`: always clears the file and the segments; fetches the batch's
        files only for a non-empty batch. Returns the batch it asked files for. */
    method HandleBatchChange(batch: string, response: Fetch<Option<seq<nat>>>) returns (requested: Option<string>)
      requires Valid()
      modifies this`currentBatch, this`currentFile, this`segments, this`files, this`error
      ensures Valid()
      ensures currentBatch == batch && currentFile == "" && segments == []
      ensures batch == "" ==> requested.None? && files == old(files) && error == old(error)
      ensures batch != "" ==> requested == Some(batch)
      ensures batch != "" && response.Resolved? ==> files == response.value.GetOr([]) && error == old(error)
      ensures batch != "" && response.Rejected? ==> files == old(files) && error == FilesError
    {
      currentBatch := batch;
      currentFile := "";
      segments := [];
      if batch == "" {
        return None;
      }
      requested := Some(batch);
      match response
      case Resolved(data) => files := data.GetOr([]);
      case Rejected => error := FilesError;
    }

    /** `handleFileChange` */
    method HandleFileChange(value: string)
      modifies this`currentFile
      ensures currentFile == value
    {
      currentFile := value;
    }

    /** `loadFileSegments(fileNumber)`: returns the (batch, file) pair it asked for. */
    method LoadFileSegments(fileNumber: string, response: Fetch<seq<Segment>>)
      returns (requested: Option<(string, string)>)
      requires Valid()
      modifies this`segments, this`loading, this`error
      ensures Valid()
      ensures View() == LoadEffect(currentBatch, response, old(View()))
      ensures requested.Some? <==> currentBatch != ""
      ensures requested.Some? ==> requested.value == (currentBatch, fileNumber)
    {
      if currentBatch == "" {
        return None;
      }
      loading := true;
      error := "";
      requested := Some((currentBatch, fileNumber));
      match response {
        case Resolved(data) => segments := ProcessSegments(data);
        case Rejected => error := SegmentsError;
      }
      loading := false;
    }

    /** `handleLoadSegments`: needs both a batch and a file, then loads the current file. */
    method HandleLoadSegments(response: Fetch<seq<Segment>>) returns (requested: Option<(string, string)>)
      requires Valid()
      modifies this`segments, this`loading, this`error
      ensures Valid()
      ensures currentBatch == "" || currentFile == "" ==> requested.None? && View() == old(View())
      ensures currentBatch != "" && currentFile != "" ==>
                && View() == LoadEffect(currentBatch, response, old(View()))
                && requested == Some((currentBatch, currentFile))
    {
      if currentBatch == "" || currentFile == "" {
        return None;
      }
      requested := LoadFileSegments(currentFile, response);
    }

    /** `handleSave(segmentId, rsmlData)`: `apiError` is how `api.saveRsml` settled (`None`
        when it resolved, the error's message when it threw). */
    method HandleSave(segmentId: int, rsmlData: string, apiError: Option<string>) returns (result: SaveResult)
      requires Valid()
      modifies this`segments
      ensures Valid()
      ensures apiError.None? ==> result == Saved && segments == WithSavedRsml(old(segments), segmentId, rsmlData)
      ensures apiError.Some? ==> result == SaveFailed(apiError.value) && segments == old(segments)
    {
      if apiError.Some? {
        return SaveFailed(apiError.value);
      }
      SavePreservesAudioPaths(segments, segmentId, rsmlData);
      segments := WithSavedRsml(segments, segmentId, rsmlData);
      result := Saved;
    }

    /** `handleSaveAll`: nothing on an empty list; otherwise every segment is sent once, in
        order, and the alert reports the counts. The segments themselves are not touched. */
    method HandleSaveAll(accepts: SaveRequest -> bool) returns (sent: seq<SaveRequest>, notice: Option<SaveAllNotice>)
      modifies this`loading
      ensures segments == old(segments)
      ensures old(segments) == [] ==> sent == [] && notice.None? && loading == old(loading)
      ensures old(segments) != [] ==>
                && sent == SaveRequests(segments) && !loading && notice.Some?
                && var ok := Accepted(sent, accepts);
                   notice.value == if ok == |segments| then AllSaved(ok) else PartlySaved(ok, |segments| - ok)
    {
      if |segments| == 0 {
        return [], None;
      }
      loading := true;
      var successCount, failCount;
      sent, successCount, failCount := SaveEach(segments, accepts);
      loading := false;
      if failCount == 0 {
        notice := Some(AllSaved(successCount));
      } else {
        notice := Some(PartlySaved(successCount, failCount));
      }
    }

    /** `handlePrev`: moves to the previous file and loads it; a no-op at index 0 or -1. */
    method HandlePrev(response: Fetch<seq<Segment>>) returns (requested: Option<(string, string)>)
      requires Valid()
      modifies this`currentFile, this`segments, this`loading, this`error
      ensures Valid()
      ensures PrevFile(old(files), old(currentFile)).None? ==>
                requested.None? && currentFile == old(currentFile) && View() == old(View())
      ensures PrevFile(old(files), old(currentFile)).Some? ==>
                && currentFile == NatToString(PrevFile(old(files), old(currentFile)).value)
                && View() == LoadEffect(currentBatch, response, old(View()))
                && (requested.Some? <==> currentBatch != "")
                && (requested.Some? ==> requested.value == (currentBatch, currentFile))
    {
      var target := PrevFile(files, currentFile);
      if target.None? {
        return None;
      }
      var prevFile := NatToString(target.value);
      currentFile := prevFile;
      requested := LoadFileSegments(prevFile, response);
    }

    /** `handleNext`: moves to the next file and loads it; a no-op at the last index. */
    method HandleNext(response: Fetch<seq<Segment>>) returns (requested: Option<(string, string)>)
      requires Valid()
      modifies this`currentFile, this`segments, this`loading, this`error
      ensures Valid()
      ensures NextFile(old(files), old(currentFile)).None? ==>
                requested.None? && currentFile == old(currentFile) && View() == old(View())
      ensures NextFile(old(files), old(currentFile)).Some? ==>
                && currentFile == NatToString(NextFile(old(files), old(currentFile)).value)
                && View() == LoadEffect(currentBatch, response, old(View()))
                && (requested.Some? <==> currentBatch != "")
                && (requested.Some? ==> requested.value == (currentBatch, currentFile))
    {
      var target := NextFile(files, currentFile);
      if target.None? {
        return None;
      }
      var nextFile := NatToString(target.value);
      currentFile := nextFile;
      requested := LoadFileSegments(nextFile, response);
    }
  }
}
