/**
 * The media picker of src/lib/mediaPicker.ts: what the device picker
 * returned becomes one `PickedMedia` with a media type, a MIME type and a
 * file name that are never empty. Permission and the picker itself are
 * inputs here.
 */
module MediaPicker {
  import opened Wrappers
  import opened Text
  import opened Upload

  /** What the device picker reports for one asset; `kind` is its `type` field. */
  datatype Asset = Asset(uri: Option<string>, kind: Option<string>, mimeType: Option<string>,
                         fileName: Option<string>)

  datatype PickedMedia = PickedMedia(uri: string, mimeType: string, mediaType: MediaType, fileName: string)

  /**
   * `normalizeAsset`: no media without a URI; otherwise the URI as given, a
   * video only when the picker said 'video', and the picker's MIME type and
   * file name unless empty. `ensureFileName` and `fallbackMime` are the
   * same rules as the uploader's, so the uploader's definitions serve.
   */
  function NormalizeAsset(a: Asset, now: nat): (r: Option<PickedMedia>)
    ensures r.None? <==> !Truthy(a.uri)
    ensures r.Some? ==>
      && r.value.uri == a.uri.value
      && (r.value.mediaType == Video <==> a.kind == Some("video"))
      && r.value.mimeType == (if Truthy(a.mimeType) then a.mimeType.value else FallbackMime(r.value.mediaType))
      && r.value.mimeType != ""
      && r.value.fileName != ""
      && (Truthy(a.fileName) ==> r.value.fileName == a.fileName.value)
      && (!Truthy(a.fileName) ==> ParseGeneratedName(r.value.fileName) == Some((r.value.mediaType, now)))
  {
    if !Truthy(a.uri) then
      None
    else
      var t := if a.kind == Some("video") then Video else Image;
      GeneratedNameRoundTrip(t, now);
      Some(PickedMedia(a.uri.value, OrElse(a.mimeType, FallbackMime(t)), t, BuildFileName(t, a.fileName, now)))
  }

  /**
   * `pickMedia`: nothing when permission is refused, the picker is
   * cancelled or it returns no asset; otherwise the first asset, normalised.
   */
  function PickMedia(granted: bool, canceled: bool, assets: seq<Asset>, now: nat): (r: Option<PickedMedia>)
    ensures !granted || canceled || assets == [] ==> r == None
    ensures granted && !canceled && assets != [] ==> r == NormalizeAsset(assets[0], now)
  {
    if !granted then None
    else if canceled || |assets| == 0 then None
    else NormalizeAsset(assets[0], now)
  }

  /** The options the report screen passes on: the picked media's four fields. */
  function UploadOptionsFor(m: PickedMedia): UploadOptions {
    UploadOptions(Some(m.uri), Some(m.fileName), Some(m.mimeType), Some(m.mediaType), None, None)
  }

  /**
   * Handing picked media to the uploader keeps its media type, MIME type
   * and file name: the uploader has nothing left to infer or generate.
   */
  lemma PickedThenUploaded(a: Asset, now: nat, later: nat)
    requires NormalizeAsset(a, now).Some?
    ensures var m := NormalizeAsset(a, now).value;
      && ResolvedMediaType(UploadOptionsFor(m), m.uri) == m.mediaType
      && ResolvedMime(UploadOptionsFor(m), m.uri) == m.mimeType
      && ResolvedFileName(UploadOptionsFor(m), m.uri, later) == m.fileName
  {
    var m := NormalizeAsset(a, now).value;
    var o := UploadOptionsFor(m);
    assert InitialMime(o, m.uri) == Some(m.mimeType);
    assert Or(o.fileName, o.legacyName) == Some(m.fileName);
  }
}
