/**
 Bunny-backed videos: the strict classifier, the remote-missing marker kept inside the metadata, and
 the local status that follows from what Bunny answers.
 */
module BunnyAsset {
  import opened Wrappers
  import opened JsText

  /** A stored JSON value. The order of an object's keys is not looked at by any of this. */
  datatype Json =
    | JNull | JBool(flag: bool) | JNumber(number: real) | JString(text: string)
    | JArray(items: seq<Json>) | JObject(fields: map<string, Json>)

  datatype Provider = BUNNY | OtherProvider
  datatype SourceType = EMBED | OtherSource
  datatype Status = DRAFT | PROCESSING | READY | FAILED | DISABLED

  datatype Video = Video(
    status: Status,
    provider: Provider,
    sourceType: SourceType,
    providerAssetId: Option<string>,
    playbackId: Option<string>,
    metadata: Json)

  const BUNNY_STREAM := "bunnyStream"
  const REMOTE_MISSING := "remoteMissing"
  const VIDEO_ID := "videoId"
  const LIBRARY_ID := "libraryId"
  const NOT_FOUND := "NOT_FOUND"

  // ---------------------------------------------------------------- reading

  function Field(value: Json, key: string): Option<Json> {
    if value.JObject? && key in value.fields then Some(value.fields[key]) else None
  }

  /** The value under a key if it is a record. */
  function RecordAt(value: Json, key: string): Option<Json> {
    match Field(value, key)
    case Some(JObject(fields)) => Some(JObject(fields))
    case _ => None
  }

  /** A non-blank string, trimmed. */
  function TrimmedAt(value: Json, key: string): Option<string> {
    match Field(value, key)
    case Some(JString(text)) => if Trim(text) == "" then None else Some(Trim(text))
    case _ => None
  }

  datatype Classification = Bunny(bunnyVideoId: string, libraryId: Option<string>) | BunnyMalformed | NotBunny

  function Classify(v: Video): Classification {
    if v.provider != BUNNY || v.sourceType != EMBED then NotBunny
    else if v.providerAssetId.None? || Trim(v.providerAssetId.value) == "" then BunnyMalformed
    else
      var assetId := Trim(v.providerAssetId.value);
      if v.playbackId.None? || Trim(v.playbackId.value) != assetId then BunnyMalformed
      else
        match RecordAt(v.metadata, BUNNY_STREAM)
        case None => BunnyMalformed
        case Some(marker) =>
          if TrimmedAt(marker, VIDEO_ID) != Some(assetId) then BunnyMalformed
          else Bunny(assetId, TrimmedAt(marker, LIBRARY_ID))
  }

  ghost predicate StringPads(value: Json, key: string, text: string) {
    && value.JObject? && key in value.fields && value.fields[key].JString?
    && text != "" && Trimmed(text) && Pads(value.fields[key].text, text)
  }

  lemma TrimmedAtIff(value: Json, key: string, text: string)
    ensures TrimmedAt(value, key) == Some(text) <==> StringPads(value, key, text)
  {
    if value.JObject? && key in value.fields && value.fields[key].JString? { TrimIff(value.fields[key].text, text); }
  }

  /** All three places name this video, up to whitespace around it. */
  ghost predicate NamesVideo(v: Video, id: string) {
    && id != "" && Trimmed(id)
    && v.providerAssetId.Some? && Pads(v.providerAssetId.value, id)
    && v.playbackId.Some? && Pads(v.playbackId.value, id)
    && v.metadata.JObject? && "bunnyStream" in v.metadata.fields
    && StringPads(v.metadata.fields["bunnyStream"], "videoId", id)
  }

  /**
   A video is a Bunny embed exactly if asset id, playback id and metadata name one and the same video; any other
   one that claims to be a Bunny embed is malformed.
   */
  lemma ClassifyIff(v: Video, id: string)
    ensures Classify(v) == NotBunny <==> v.provider != BUNNY || v.sourceType != EMBED
    ensures Classify(v).Bunny? && Classify(v).bunnyVideoId == id <==>
              v.provider == BUNNY && v.sourceType == EMBED && NamesVideo(v, id)
    ensures Classify(v).Bunny? ==>
              forall library: string ::
                Classify(v).libraryId == Some(library) <==>
                  StringPads(v.metadata.fields["bunnyStream"], "libraryId", library)
  {
    if v.providerAssetId.Some? { TrimIff(v.providerAssetId.value, id); }
    if v.playbackId.Some? { TrimIff(v.playbackId.value, id); }
    if RecordAt(v.metadata, BUNNY_STREAM).Some? {
      var stream := RecordAt(v.metadata, BUNNY_STREAM).value;
      TrimmedAtIff(stream, VIDEO_ID, id);
      forall library: string
        ensures TrimmedAt(stream, LIBRARY_ID) == Some(library) <==> StringPads(stream, LIBRARY_ID, library)
      {
        TrimmedAtIff(stream, LIBRARY_ID, library);
      }
    }
  }

  predicate IsRemoteMissing(metadata: Json) {
    RecordAt(metadata, BUNNY_STREAM).Some? && RecordAt(RecordAt(metadata, BUNNY_STREAM).value, REMOTE_MISSING).Some?
  }

  // ---------------------------------------------------------------- the marker

  /** A shallow copy: anything that is no record copies to the empty one. */
  function CopyOf(metadata: Json): Json {
    if metadata.JObject? then metadata else JObject(map[])
  }

  function MissingMarker(detectedAt: string): Json {
    JObject(map["detectedAt" := JString(detectedAt), "reason" := JString(NOT_FOUND)])
  }

  function WithStream(metadata: Json, stream: Json): Json
    requires metadata.JObject?
  {
    JObject(metadata.fields[BUNNY_STREAM := stream])
  }

  /** The metadata to store, and whether it differs. */
  function ApplyMarker(metadata: Json, detectedAt: string): (Json, bool) {
    var copy := CopyOf(metadata);
    match RecordAt(copy, BUNNY_STREAM)
    case None => (copy, false)
    case Some(stream) =>
      if RecordAt(stream, REMOTE_MISSING).Some? then (copy, false)
      else (WithStream(copy, JObject(stream.fields[REMOTE_MISSING := MissingMarker(detectedAt)])), true)
  }

  function ClearMarker(metadata: Json): (Json, bool) {
    var copy := CopyOf(metadata);
    match RecordAt(copy, BUNNY_STREAM)
    case None => (copy, false)
    case Some(stream) =>
      if REMOTE_MISSING !in stream.fields then (copy, false)
      else (WithStream(copy, JObject(stream.fields - {REMOTE_MISSING})), true)
  }

  lemma KeysDiffer()
    ensures REMOTE_MISSING != VIDEO_ID && REMOTE_MISSING != LIBRARY_ID && "detectedAt" != "reason"
  {
    assert |REMOTE_MISSING| == 13 && |VIDEO_ID| == 7 && |LIBRARY_ID| == 9;
    assert |"detectedAt"| == 10 && |"reason"| == 6;
  }

  /**
   Applying and clearing the marker gives back the stored value exactly when it is a record that held no
   marker key.
   */
  lemma ApplyThenClearIff(metadata: Json, detectedAt: string)
    ensures ClearMarker(ApplyMarker(metadata, detectedAt).0).0 == metadata <==>
              && metadata.JObject?
              && (RecordAt(metadata, BUNNY_STREAM).None?
                    || REMOTE_MISSING !in RecordAt(metadata, BUNNY_STREAM).value.fields)
  {
    if metadata.JObject? && RecordAt(metadata, BUNNY_STREAM).Some? {
      var stream := RecordAt(metadata, BUNNY_STREAM).value;
      var marked := stream.fields[REMOTE_MISSING := MissingMarker(detectedAt)];
      var cleared := ClearMarker(ApplyMarker(metadata, detectedAt).0).0;
      if REMOTE_MISSING !in stream.fields {
        assert marked - {REMOTE_MISSING} == stream.fields;
        assert metadata.fields[BUNNY_STREAM := JObject(marked)][BUNNY_STREAM := stream] == metadata.fields;
      } else {
        assert REMOTE_MISSING !in RecordAt(cleared, BUNNY_STREAM).value.fields;
      }
    }
  }

  /** Metadata that are no record come back as an empty one; a marker key that was there before is lost. */
  lemma ApplyThenClearCanDiffer(detectedAt: string)
    ensures ClearMarker(ApplyMarker(JString("legacy"), detectedAt).0).0 == JObject(map[])
    ensures var stale := JObject(map[BUNNY_STREAM := JObject(map[REMOTE_MISSING := JString("")])]);
            ClearMarker(ApplyMarker(stale, detectedAt).0).0 != stale
  {
    var stale := JObject(map[BUNNY_STREAM := JObject(map[REMOTE_MISSING := JString("")])]);
    assert RecordAt(stale, BUNNY_STREAM) == Some(JObject(map[REMOTE_MISSING := JString("")]));
    ApplyThenClearIff(stale, detectedAt);
  }

  /** A record that classifies as Bunny and carries no marker key survives a 404 and its recovery unchanged. */
  lemma UnmarkedBunnyRoundTrip(v: Video, detectedAt: string)
    requires Classify(v).Bunny? && REMOTE_MISSING !in RecordAt(v.metadata, BUNNY_STREAM).value.fields
    ensures var marked := ApplyMarker(v.metadata, detectedAt);
            && marked.1 && IsRemoteMissing(marked.0)
            && ClearMarker(marked.0) == (v.metadata, true)
            && RecordAt(RecordAt(marked.0, "bunnyStream").value, "remoteMissing") ==
                 Some(JObject(map["detectedAt" := JString(detectedAt), "reason" := JString("NOT_FOUND")]))
  {
    ApplyThenClearIff(v.metadata, detectedAt);
  }

  /** Neither operation touches anything but the marker key. */
  lemma MarkerKeepsTheRest(metadata: Json, detectedAt: string, key: string)
    requires metadata.JObject?
    ensures key != BUNNY_STREAM ==>
              Field(ApplyMarker(metadata, detectedAt).0, key) == Field(metadata, key) ==
                  Field(ClearMarker(metadata).0, key)
    ensures RecordAt(metadata, BUNNY_STREAM).Some? && key != REMOTE_MISSING ==>
              var stream := RecordAt(metadata, BUNNY_STREAM).value;
              && RecordAt(ApplyMarker(metadata, detectedAt).0, BUNNY_STREAM).Some?
              && RecordAt(ClearMarker(metadata).0, BUNNY_STREAM).Some?
              && Field(RecordAt(ApplyMarker(metadata, detectedAt).0, BUNNY_STREAM).value, key) == Field(stream, key)
              && Field(RecordAt(ClearMarker(metadata).0, BUNNY_STREAM).value, key) == Field(stream, key)
  {
  }

  /** Both are idempotent, report a change exactly when there is one to store, and preserve the classification. */
  lemma MarkerOperationsSettle(v: Video, detectedAt: string, later: string)
    ensures !ApplyMarker(ApplyMarker(v.metadata, detectedAt).0, later).1
    ensures !ClearMarker(ClearMarker(v.metadata).0).1
    ensures Classify(v).Bunny? ==>
              && Classify(v.(metadata := ApplyMarker(v.metadata, detectedAt).0)) == Classify(v)
              && Classify(v.(metadata := ClearMarker(v.metadata).0)) == Classify(v)
              && (ApplyMarker(v.metadata, detectedAt).1 <==> !IsRemoteMissing(v.metadata))
              && IsRemoteMissing(ApplyMarker(v.metadata, detectedAt).0) && !IsRemoteMissing(ClearMarker(v.metadata).0)
  {
    KeysDiffer();
    if v.metadata.JObject? {
      MarkerKeepsTheRest(v.metadata, detectedAt, VIDEO_ID);
      MarkerKeepsTheRest(v.metadata, detectedAt, LIBRARY_ID);
    }
  }

  // ---------------------------------------------------------------- the status

  datatype ProcessingState = Processing | Ready | Failed

  /** DISABLED and READY stand; anything else follows Bunny. */
  function LocalStatus(current: Status, state: ProcessingState): Status {
    if current == DISABLED || current == READY then current
    else
      match state
      case Ready => READY
      case Failed => FAILED
      case Processing => PROCESSING
  }

  function RemoteMissingStatus(current: Status): Status {
    if current == DISABLED then DISABLED else FAILED
  }

  /**
   An administrator's DISABLED outranks every observation; only a 404 takes READY away; repeating an
   answer changes nothing.
   */
  lemma StatusRules(current: Status, state: ProcessingState)
    ensures LocalStatus(DISABLED, state) == DISABLED == RemoteMissingStatus(DISABLED)
    ensures LocalStatus(READY, state) == READY && RemoteMissingStatus(READY) == FAILED
    ensures current !in {DISABLED, READY} ==>
              && LocalStatus(current, state) == (match state
                                                 case Processing => PROCESSING
                                                 case Ready => READY
                                                 case Failed => FAILED)
              && RemoteMissingStatus(current) == FAILED
    ensures LocalStatus(LocalStatus(current, state), state) == LocalStatus(current, state)
    ensures RemoteMissingStatus(RemoteMissingStatus(current)) == RemoteMissingStatus(current)
    ensures current != DISABLED ==> LocalStatus(RemoteMissingStatus(current), Ready) == READY
  {
  }
}
