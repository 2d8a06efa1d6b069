/**
 * The uploader of src/lib/upload.ts, up to the HTTP request: the MIME type
 * inferred from a URI's extension, the precedence between the caller's
 * options, the media type, the generated file name, and the configuration
 * and URI checks that come first.
 */
module Upload {
  import opened Wrappers
  import opened Text

  datatype MediaType = Image | Video

  /** The option's string value, `'image'` or `'video'`. */
  function MediaTypeName(t: MediaType): string {
    match t
    case Image => "image"
    case Video => "video"
  }

  // ---------------------------------------------------------------------
  // MIME inference

  /** The extension table. */
  function ExtensionToMime(ext: string): Option<string> {
    if ext == "jpg" || ext == "jpeg" then Some("image/jpeg")
    else if ext == "png" then Some("image/png")
    else if ext == "webp" then Some("image/webp")
    else if ext == "gif" then Some("image/gif")
    else if ext == "mp4" then Some("video/mp4")
    else if ext == "mov" || ext == "qt" then Some("video/quicktime")
    else None
  }

  /** `uri.split('?')[0].split('.').pop().toLowerCase()` */
  function Extension(uri: string): string {
    ToLower(AfterLast(BeforeFirst(uri, '?'), '.'))
  }

  /** `inferMimeFromUri` */
  function InferMimeFromUri(uri: string): Option<string> {
    var ext := Extension(uri);
    if ext == "" then None else ExtensionToMime(ext)
  }

  /** The inferred MIME type, when there is one, is one of five image and video types. */
  lemma InferredMimeKnown(uri: string)
    ensures InferMimeFromUri(uri).Some? ==>
      InferMimeFromUri(uri).value in {"image/jpeg", "image/png", "image/webp", "image/gif", "video/mp4",
                                      "video/quicktime"}
  {
  }

  /** Whatever follows the first '?' is ignored. */
  lemma InferIgnoresQuery(path: string, query: string)
    requires '?' !in path
    ensures InferMimeFromUri(path + "?" + query) == InferMimeFromUri(path)
  {
    BeforeFirstAppend(path, '?', query);
    AfterLastWhole(path, '?');
  }

  /** The extension is what follows the last '.', matched without regard to case. */
  lemma InferLastDot(stem: string, ext: string)
    requires '?' !in stem && '?' !in ext && '.' !in ext
    ensures InferMimeFromUri(stem + "." + ext) == ExtensionToMime(ToLower(ext))
  {
    var uri := stem + "." + ext;
    assert '?' !in uri by {
      assert forall i :: 0 <= i < |uri| ==> uri[i] == (if i < |stem| then stem[i] else if i == |stem| then '.' else ext[i - |stem| - 1]);
    }
    AfterLastWhole(uri, '?');
    AfterLastAppend(stem, '.', ext);
  }

  /** Without a '.', the whole path (lowercased) is looked up as the extension. */
  lemma InferNoDot(path: string)
    requires '?' !in path && '.' !in path
    ensures InferMimeFromUri(path) == (if path == "" then None else ExtensionToMime(ToLower(path)))
  {
    AfterLastWhole(path, '?');
    AfterLastWhole(path, '.');
  }

  /** Inference does not depend on the case of the URI. */
  lemma InferCaseInsensitive(uri: string)
    ensures InferMimeFromUri(ToLower(uri)) == InferMimeFromUri(uri)
  {
    LowerBeforeFirst(uri, '?');
    LowerAfterLast(BeforeFirst(uri, '?'), '.');
    ToLowerIdempotent(AfterLast(BeforeFirst(uri, '?'), '.'));
  }

  // ---------------------------------------------------------------------
  // Fallbacks and file names

  /** `fallbackMime` */
  function FallbackMime(t: MediaType): string {
    if t == Video then "video/mp4" else "image/jpeg"
  }

  function DefaultExtension(t: MediaType): string {
    if t == Video then "mp4" else "jpg"
  }

  /** `buildFileName`: the name provided, else `<type>-<now>.<mp4|jpg>`. */
  function BuildFileName(t: MediaType, provided: Option<string>, now: nat): string {
    if Truthy(provided) then provided.value
    else MediaTypeName(t) + "-" + Decimal(now) + "." + DefaultExtension(t)
  }

  /** Reads a generated name back into its media type and timestamp. */
  function ParseGeneratedName(name: string): Option<(MediaType, nat)> {
    var kind := BeforeFirst(name, '-');
    var ext := AfterLast(name, '.');
    var t := if kind == "video" then Video else Image;
    if (kind == "image" || kind == "video") && ext == DefaultExtension(t)
       && |kind| + 1 <= |name| - |ext| - 1
    then
      var digits := name[|kind| + 1..|name| - |ext| - 1];
      if digits != "" && IsDigits(digits) then Some((t, DecimalValue(digits))) else None
    else None
  }

  /** How `<kind>-<digits>.<ext>` splits back into its three parts. */
  lemma NameParts(kind: string, digits: string, ext: string)
    requires '-' !in kind && '-' !in ext && '.' !in ext && IsDigits(digits)
    ensures var name := kind + "-" + digits + "." + ext;
      && BeforeFirst(name, '-') == kind
      && AfterLast(name, '.') == ext
      && |kind| + 1 <= |name| - |ext| - 1
      && name[|kind| + 1..|name| - |ext| - 1] == digits
  {
    var name := kind + "-" + digits + "." + ext;
    var tail := digits + "." + ext;
    assert '-' !in tail by {
      assert forall i :: 0 <= i < |tail| ==> tail[i] == (if i < |digits| then digits[i] else if i == |digits| then '.' else ext[i - |digits| - 1]);
    }
    assert name == kind + ['-'] + tail;
    BeforeFirstAppend(kind, '-', tail);
    assert name == (kind + "-" + digits) + ['.'] + ext;
    AfterLastAppend(kind + "-" + digits, '.', ext);
    assert name[|kind| + 1..|name| - |ext| - 1] == digits;
  }

  /** A generated file name records its media type and the timestamp it was made at. */
  lemma GeneratedNameRoundTrip(t: MediaType, now: nat)
    ensures ParseGeneratedName(BuildFileName(t, None, now)) == Some((t, now))
  {
    var kind, digits, ext := MediaTypeName(t), Decimal(now), DefaultExtension(t);
    var name := kind + "-" + digits + "." + ext;
    NameParts(kind, digits, ext);
    DecimalRoundTrip(now);
    assert BuildFileName(t, None, now) == name;
    assert (if kind == "video" then Video else Image) == t;
    assert name[|kind| + 1..|name| - |ext| - 1] == digits;
  }

  /** Two generated names of the same media type differ when their timestamps do. */
  lemma GeneratedNamesDistinct(t: MediaType, now1: nat, now2: nat)
    requires now1 != now2
    ensures BuildFileName(t, None, now1) != BuildFileName(t, None, now2)
  {
    GeneratedNameRoundTrip(t, now1);
    GeneratedNameRoundTrip(t, now2);
  }

  // ---------------------------------------------------------------------
  // Option resolution

  /** The options of `uploadMedia`; `legacyName` and `legacyType` are the deprecated `name` and `type`. */
  datatype UploadOptions = UploadOptions(
    uri: Option<string>,
    fileName: Option<string>,
    mimeType: Option<string>,
    mediaType: Option<MediaType>,
    legacyName: Option<string>,
    legacyType: Option<string>)

  /** `options.mimeType || options.type || inferMimeFromUri(options.uri)` */
  function InitialMime(o: UploadOptions, uri: string): Option<string> {
    Or(o.mimeType, Or(o.legacyType, InferMimeFromUri(uri)))
  }

  /** `options.mediaType || (initialMime?.startsWith('video') ? 'video' : 'image')` */
  function ResolvedMediaType(o: UploadOptions, uri: string): MediaType {
    if o.mediaType.Some? then o.mediaType.value
    else
      var m := InitialMime(o, uri);
      if m.Some? && "video" <= m.value then Video else Image
  }

  /** `initialMime || fallbackMime(mediaType)` */
  function ResolvedMime(o: UploadOptions, uri: string): string {
    OrElse(InitialMime(o, uri), FallbackMime(ResolvedMediaType(o, uri)))
  }

  /** `buildFileName(mediaType, options.fileName || options.name)` */
  function ResolvedFileName(o: UploadOptions, uri: string, now: nat): string {
    BuildFileName(ResolvedMediaType(o, uri), Or(o.fileName, o.legacyName), now)
  }

  /**
   * The precedence rules: the explicit MIME type wins over the deprecated
   * one, which wins over inference; without a media type option, video is
   * chosen exactly for a `video...` MIME type; the resolved MIME type is
   * never empty; and the file name is the caller's, else the deprecated
   * name, else a generated one.
   */
  lemma ResolutionSpec(o: UploadOptions, uri: string, now: nat)
    ensures Truthy(o.mimeType) ==> InitialMime(o, uri) == o.mimeType
    ensures !Truthy(o.mimeType) && Truthy(o.legacyType) ==> InitialMime(o, uri) == o.legacyType
    ensures !Truthy(o.mimeType) && !Truthy(o.legacyType) ==> InitialMime(o, uri) == InferMimeFromUri(uri)
    ensures o.mediaType.Some? ==> ResolvedMediaType(o, uri) == o.mediaType.value
    ensures o.mediaType.None? ==>
      (ResolvedMediaType(o, uri) == Video <==> InitialMime(o, uri).Some? && "video" <= InitialMime(o, uri).value)
    ensures ResolvedMime(o, uri) != ""
    ensures Truthy(InitialMime(o, uri)) ==> ResolvedMime(o, uri) == InitialMime(o, uri).value
    ensures !Truthy(InitialMime(o, uri)) ==> ResolvedMime(o, uri) == FallbackMime(ResolvedMediaType(o, uri))
    ensures Truthy(o.fileName) ==> ResolvedFileName(o, uri, now) == o.fileName.value
    ensures !Truthy(o.fileName) && Truthy(o.legacyName) ==> ResolvedFileName(o, uri, now) == o.legacyName.value
    ensures !Truthy(o.fileName) && !Truthy(o.legacyName) ==>
      ParseGeneratedName(ResolvedFileName(o, uri, now)) == Some((ResolvedMediaType(o, uri), now))
  {
    if !Truthy(o.fileName) && !Truthy(o.legacyName) {
      GeneratedNameRoundTrip(ResolvedMediaType(o, uri), now);
    }
  }

  // ---------------------------------------------------------------------
  // uploadMedia, up to the request

  /** The three environment variables, before trimming. */
  datatype Config = Config(cloudName: Option<string>, uploadPreset: Option<string>, folder: Option<string>)

  const CloudNameVar := "EXPO_PUBLIC_CLOUDINARY_CLOUD_NAME"
  const UploadPresetVar := "EXPO_PUBLIC_CLOUDINARY_UPLOAD_PRESET"
  const FolderVar := "EXPO_PUBLIC_CLOUDINARY_FOLDER"

  /** `process.env.X?.trim()` */
  function Trimmed(v: Option<string>): Option<string> {
    match v
    case None => None
    case Some(s) => Some(Trim(s))
  }

  /** A variable counts as set when it is present and not blank. */
  lemma TrimmedTruthy(v: Option<string>)
    ensures Truthy(Trimmed(v)) <==> v.Some? && !Blank(v.value)
  {
    if v.Some? {
      TrimEmptyIffBlank(v.value);
    }
  }

  /** What is sent: the file part and the three form fields. */
  datatype UploadRequest = UploadRequest(
    uri: string,
    fileName: string,
    mimeType: string,
    mediaType: MediaType,
    uploadPreset: string,
    cloudName: string,
    folder: string)

  datatype Prepared = Rejected(message: string) | Ready(request: UploadRequest)

  /**
   * The checks and the resolution `uploadMedia` performs before it sends
   * anything: every unset variable is reported, in the order cloud name,
   * upload preset, folder, before the URI is looked at.
   */
  method PrepareUpload(env: Config, o: UploadOptions, now: nat) returns (r: Prepared)
    ensures var missing :=
      (if Truthy(Trimmed(env.cloudName)) then [] else [CloudNameVar]) +
      (if Truthy(Trimmed(env.uploadPreset)) then [] else [UploadPresetVar]) +
      (if Truthy(Trimmed(env.folder)) then [] else [FolderVar]);
      && (missing != [] ==> r == Rejected("Cloudinary configuration missing: " + Join(missing, ", ")))
      && (missing == [] && !Truthy(o.uri) ==> r == Rejected("uploadMedia requires a valid URI."))
      && (missing == [] && Truthy(o.uri) ==>
            r == Ready(UploadRequest(o.uri.value, ResolvedFileName(o, o.uri.value, now),
                                     ResolvedMime(o, o.uri.value), ResolvedMediaType(o, o.uri.value),
                                     Trimmed(env.uploadPreset).value, Trimmed(env.cloudName).value,
                                     Trimmed(env.folder).value)))
  {
    var cloudName := Trimmed(env.cloudName);
    var uploadPreset := Trimmed(env.uploadPreset);
    var folder := Trimmed(env.folder);
    var missing: seq<string> := [];
    if !Truthy(cloudName) { missing := missing + [CloudNameVar]; }
    if !Truthy(uploadPreset) { missing := missing + [UploadPresetVar]; }
    if !Truthy(folder) { missing := missing + [FolderVar]; }
    assert missing ==
      (if Truthy(cloudName) then [] else [CloudNameVar]) +
      (if Truthy(uploadPreset) then [] else [UploadPresetVar]) +
      (if Truthy(folder) then [] else [FolderVar]);
    if |missing| > 0 {
      return Rejected("Cloudinary configuration missing: " + Join(missing, ", "));
    }
    if !Truthy(o.uri) {
      return Rejected("uploadMedia requires a valid URI.");
    }
    var uri := o.uri.value;
    var initialMime := InitialMime(o, uri);
    var mediaType := ResolvedMediaType(o, uri);
    var resolvedMime := OrElse(initialMime, FallbackMime(mediaType));
    var fileName := BuildFileName(mediaType, Or(o.fileName, o.legacyName), now);
    r := Ready(UploadRequest(uri, fileName, resolvedMime, mediaType, uploadPreset.value, cloudName.value,
                             folder.value));
  }
}
