// MediaService: MIME sanitisation, media naming, object paths, upload and read URL lists.
module MediaStore {
  import opened Common
  import opened Entities
  import opened Database

  // ----- SanifyMimeType -----

  /** The accepted MIME types and the dotted extension each is stored with. */
  const MimeTypeToExtension: map<string, string> := map[
    "image/jpeg" := ".jpg",
    "image/png" := ".png",
    "image/gif" := ".gif",
    "video/mp4" := ".mp4",
    "application/pdf" := ".pdf"]

  /** String.IsNullOrWhiteSpace on a non-null string. */
  predicate IsBlank(s: string)
  {
    forall i :: 0 <= i < |s| ==> s[i] in {' ', '\t', '\n', '\r'}
  }

  /**
   * SanifyMimeType: the extension of the lower-cased MIME type, or ArgumentException for a blank
   * or unknown one.
   */
  function SanifyMimeType(mimeType: string): (r: Result<string>)
    ensures r.Success? <==> ToLower(mimeType) in MimeTypeToExtension
    ensures r.Success? ==> r.value == MimeTypeToExtension[ToLower(mimeType)]
    ensures r.Failure? ==> r.error.kind == Argument
    ensures r.Failure? ==> r.error.message == "MIME type '" + ToLower(mimeType) + "' is not a valid Blob/video format."
  {
    var mt := ToLower(mimeType);
    if IsBlank(mt) || mt !in MimeTypeToExtension then
      Throw(Argument, "MIME type '" + mt + "' is not a valid Blob/video format.")
    else Success(MimeTypeToExtension[mt])
  }

  /** Every accepted extension starts with a dot, and no two MIME types share one. */
  lemma ExtensionsAreDistinct()
    ensures forall m :: m in MimeTypeToExtension ==> StartsWith(MimeTypeToExtension[m], ".")
    ensures forall m1, m2 :: m1 in MimeTypeToExtension && m2 in MimeTypeToExtension && m1 != m2 ==>
      MimeTypeToExtension[m1] != MimeTypeToExtension[m2]
  {
  }

  /** Case does not matter, and a blank type is always refused. */
  lemma SanifyIgnoresCase(mimeType: string)
    ensures SanifyMimeType(ToLower(mimeType)) == SanifyMimeType(mimeType)
    ensures IsBlank(mimeType) ==> SanifyMimeType(mimeType).Failure?
  {
    LowerIdempotent(mimeType);
    if IsBlank(mimeType) {
      LowerKeepsBlank(mimeType);
    }
  }

  lemma LowerIdempotent(s: string)
    ensures ToLower(ToLower(s)) == ToLower(s)
  {
    var t := ToLower(s);
    forall i | 0 <= i < |s| ensures ToLower(t)[i] == t[i] {
      assert t[i] == LowerChar(s[i]);
    }
  }

  lemma LowerKeepsBlank(s: string)
    requires IsBlank(s)
    ensures IsBlank(ToLower(s))
  {
    var t := ToLower(s);
    forall i | 0 <= i < |s| ensures t[i] in {' ', '\t', '\n', '\r'} {
      assert t[i] == LowerChar(s[i]);
    }
  }

  // ----- CreateMediaName and object paths -----

  /**
   * CreateMediaName: the creation instant in the `yyyyMMdd_HHmmss` layout, an underscore and the
   * profile's tag. The layout is the abstract `format`; it always yields 15 characters.
   */
  function CreateMediaName(profile: Profile, creationDate: Time, format: Time -> string): (r: string)
    ensures StartsWith(r, format(creationDate))
  {
    format(creationDate) + "_" + profile.tag
  }

  /** With the fixed-width layout, the tag is everything after the 16th character. */
  lemma MediaNameCarriesTag(profile: Profile, creationDate: Time, format: Time -> string)
    requires |format(creationDate)| == 15
    ensures CreateMediaName(profile, creationDate, format)[15] == '_'
    ensures CreateMediaName(profile, creationDate, format)[16..] == profile.tag
  {
    var r := CreateMediaName(profile, creationDate, format);
    assert r == format(creationDate) + ("_" + profile.tag);
  }

  /** The storage object of a media: `{parentId}/{mediaId}{extension}`. */
  function ObjectPath(parentId: Id, mediaId: Id, extension: string): (r: string)
    ensures |r| == 49 + |extension|
  {
    IdText(parentId) + "/" + IdText(mediaId) + extension
  }

  /** The path splits back into its parent, its media id and its extension. */
  lemma ObjectPathFields(parentId: Id, mediaId: Id, extension: string)
    ensures var r := ObjectPath(parentId, mediaId, extension);
      r[..24] == IdText(parentId) && r[24] == '/' && r[25..49] == IdText(mediaId) && r[49..] == extension
  {
    var r := ObjectPath(parentId, mediaId, extension);
    assert r == IdText(parentId) + ("/" + (IdText(mediaId) + extension));
  }

  // ----- GetUploadUrlsAsync -----

  /** One entry of the upload request; its fields are the ones GetUploadUrlsAsync reads. */
  datatype MediaItem = MediaItem(tempId: string, mimetype: string, date: Option<Time>)

  /**
   * What a GetUploadUrlsAsync call fixes for all its entries: the parent, the uploader, the bucket,
   * the instant read once, the `yyyyMMdd_HHmmss` layout and, as `urlFor`, the storage client's
   * presigned-URL call for an object path and the instant the URL expires.
   */
  datatype UploadRequest = UploadRequest(parentId: Id, profile: Profile, bucket: string, now: Time,
                                         format: Time -> string, urlFor: (string, Time) -> Result<string>)

  /** An upload URL is valid for ten minutes. */
  const UploadUrlLifetime: nat := 600 * TicksPerSecond

  /** A read URL is valid for one day. */
  const ReadUrlLifetime: nat := 86_400 * TicksPerSecond

  /** MediaUploadResponseDto: either the stored media and its upload URL, or an error. */
  datatype UploadResponse = UploadResponse(
    tempId: string,
    id: Option<Id>,
    name: Option<string>,
    extension: Option<string>,
    bucket: Option<string>,
    visibility: Option<MediaVisibility>,
    url: Option<string>,
    error: Option<string>)

  function UploadError(tempId: string, message: string): UploadResponse
  {
    UploadResponse(tempId, None, None, None, None, None, None, Some(message))
  }

  function FailureLine(item: MediaItem, message: string): string
  {
    "Failed to generate URL for extension '" + item.mimetype + "': " + message
  }

  /** The response's URL call: the presigned PUT URL of the media's object, valid for ten minutes from the request's instant. */
  function UrlOf(q: UploadRequest, id: Id, extension: string): Result<string>
  {
    q.urlFor(ObjectPath(q.parentId, id, extension), q.now + UploadUrlLifetime)
  }

  /** The date of an entry's media: the entry's own date, or the instant of the request. */
  function DateOf(q: UploadRequest, item: MediaItem): Time
  {
    if item.date.Some? then item.date.value else q.now
  }

  /** The media that CreateMedia inserts for an entry, under `id`: one exactly when its MIME type is accepted. */
  function StoredMedia(id: Id, q: UploadRequest, item: MediaItem, ext: Result<string>): (r: Option<Media>)
    ensures r.Some? <==> ext.Success?
    ensures r.Some? ==>
      (&& r.value.id == id && r.value.parentId == q.parentId && r.value.ownerId == q.profile.id
       && r.value.extension == ext.value && r.value.creationDate == DateOf(q, item)
       && r.value.name == Some(CreateMediaName(q.profile, DateOf(q, item), q.format))
       && r.value.status == Created && r.value.visibility == Private)
  {
    match ext
    case Failure(_) => None
    case Success(e) =>
      var date := DateOf(q, item);
      Some(Media(id, q.parentId, q.profile.id, e, Some(CreateMediaName(q.profile, date, q.format)), date, Created, Private, q.now, q.now))
  }

  /**
   * The response to an entry whose media takes `id`: the upload URL of its object, or, as its error,
   * the message of the first failure (the refused MIME type, else the failed URL call).
   */
  function Response(id: Id, q: UploadRequest, item: MediaItem, ext: Result<string>): (r: UploadResponse)
    ensures r.tempId == item.tempId
    ensures r.error.None? <==> ext.Success? && UrlOf(q, id, ext.value).Success?
    ensures ext.Failure? ==> r.error == Some(ext.error.message)
    ensures ext.Success? && UrlOf(q, id, ext.value).Failure? ==> r.error == Some(UrlOf(q, id, ext.value).error.message)
    ensures r.error.None? ==>
      (&& r.id == Some(id) && r.url == Some(UrlOf(q, id, ext.value).value) && r.bucket == Some(q.bucket)
       && r.extension == Some(ext.value) && r.name == Some(CreateMediaName(q.profile, DateOf(q, item), q.format))
       && r.visibility == Some(Private))
  {
    match ext
    case Failure(e) => UploadError(item.tempId, e.message)
    case Success(e) =>
      match UrlOf(q, id, e)
      case Failure(err) => UploadError(item.tempId, err.message)
      case Success(url) =>
        UploadResponse(item.tempId, Some(id), Some(CreateMediaName(q.profile, DateOf(q, item), q.format)), Some(e), Some(q.bucket), Some(Private), Some(url), None)
  }

  /** What one entry shows: the insert of its media, if any, then the console line of its error, if any. */
  function EntryEffects(item: MediaItem, stored: Option<Media>, dto: UploadResponse): seq<Effect>
  {
    (if stored.Some? then [Effect.Write(EventMediaCollection, InsertOneCommand, None)] else [])
      + (if dto.error.Some? then [ConsoleLine(FailureLine(item, dto.error.value))] else [])
  }

  /** The sanitised MIME type of every entry. */
  function Sanified(items: seq<MediaItem>): (r: seq<Result<string>>)
    ensures |r| == |items|
    ensures forall i :: 0 <= i < |items| ==> r[i] == SanifyMimeType(items[i].mimetype)
  {
    seq(|items|, i requires 0 <= i < |items| => SanifyMimeType(items[i].mimetype))
  }

  /** The number of entries among the first `n` whose type is accepted. */
  function Accepted(exts: seq<Result<string>>, n: nat): (r: nat)
    requires n <= |exts|
    ensures r <= n
  {
    if n == 0 then 0 else Accepted(exts, n - 1) + (if exts[n - 1].Success? then 1 else 0)
  }

  /** The id the media of entry `i` takes: the next ObjectId after those of the accepted entries before it. */
  function EntryId(start: Id, exts: seq<Result<string>>, i: nat): Id
    requires i <= |exts|
  {
    start + Accepted(exts, i)
  }

  /**
   * The media the first `n` entries insert: one per accepted entry, under consecutive new ids from
   * `start`, all under the request's parent and owned by the requesting profile.
   */
  function Inserted(start: Id, q: UploadRequest, items: seq<MediaItem>, exts: seq<Result<string>>, n: nat): (r: seq<Media>)
    requires |exts| == |items| && n <= |items|
    ensures |r| == Accepted(exts, n)
    ensures forall j :: 0 <= j < |r| ==> r[j].id == start + j && r[j].parentId == q.parentId && r[j].ownerId == q.profile.id
    decreases n
  {
    if n == 0 then []
    else
      var before := Inserted(start, q, items, exts, n - 1);
      var stored := StoredMedia(EntryId(start, exts, n - 1), q, items[n - 1], exts[n - 1]);
      before + (if stored.Some? then [stored.value] else [])
  }

  /** The responses to the first `n` entries, one per entry, in the entries' order. */
  function Responses(start: Id, q: UploadRequest, items: seq<MediaItem>, exts: seq<Result<string>>, n: nat): (r: seq<UploadResponse>)
    requires |exts| == |items| && n <= |items|
    ensures |r| == n
    ensures forall i :: 0 <= i < n ==> r[i] == Response(EntryId(start, exts, i), q, items[i], exts[i])
    decreases n
  {
    if n == 0 then []
    else
      var before := Responses(start, q, items, exts, n - 1);
      var r := before + [Response(EntryId(start, exts, n - 1), q, items[n - 1], exts[n - 1])];
      assert forall i :: 0 <= i < n - 1 ==> r[i] == before[i];
      r
  }

  /** The effects of the first `n` entries, entry after entry. */
  function Effects(start: Id, q: UploadRequest, items: seq<MediaItem>, exts: seq<Result<string>>, n: nat): seq<Effect>
    requires |exts| == |items| && n <= |items|
    decreases n
  {
    if n == 0 then []
    else
      var id := EntryId(start, exts, n - 1);
      Effects(start, q, items, exts, n - 1) + EntryEffects(items[n - 1], StoredMedia(id, q, items[n - 1], exts[n - 1]), Response(id, q, items[n - 1], exts[n - 1]))
  }

  /** The media stored under their own ids, on top of `m`. */
  function AddRows(m: map<Id, Media>, rows: seq<Media>): (r: map<Id, Media>)
    decreases |rows|
  {
    if rows == [] then m
    else
      var n := |rows| - 1;
      AddRows(m, rows[..n])[rows[n].id := rows[n]]
  }

  /**
   * GetUploadUrlsAsync, with the concurrent fan-out taken one entry at a time: each entry with an
   * accepted MIME type inserts a Media (outside any session) and gets an upload URL for its path;
   * any failure becomes an error entry instead of an exception.
   */
  method GetUploadUrls(store: Store, profile: Profile, bucket: string, parentId: Id, items: seq<MediaItem>,
                       format: Time -> string, urlFor: (string, Time) -> Result<string>) returns (dtos: seq<UploadResponse>)
    requires store.Valid()
    modifies store`db, store`nextId, store`clock, store`trace
    ensures store.Valid()
    ensures var q := UploadRequest(parentId, profile, bucket, store.clock, format, urlFor);
      var exts := Sanified(items);
      && dtos == Responses(old(store.nextId), q, items, exts, |items|)
      && store.nextId == old(store.nextId) + Accepted(exts, |items|)
      && store.db == old(store.db).(media := AddRows(old(store.db.media), Inserted(old(store.nextId), q, items, exts, |items|)))
      && store.trace == old(store.trace) + Effects(old(store.nextId), q, items, exts, |items|)
  {
    var now := store.Now();
    dtos := UploadAll(store, UploadRequest(parentId, profile, bucket, now, format, urlFor), items, Sanified(items));
  }

  /** The loop of GetUploadUrlsAsync over the entries, each with its sanitised MIME type. */
  method UploadAll(store: Store, q: UploadRequest, items: seq<MediaItem>, exts: seq<Result<string>>) returns (dtos: seq<UploadResponse>)
    requires store.Valid() && |exts| == |items|
    modifies store`db, store`nextId, store`trace
    ensures store.Valid()
    ensures && dtos == Responses(old(store.nextId), q, items, exts, |items|)
      && store.nextId == old(store.nextId) + Accepted(exts, |items|)
      && store.db == old(store.db).(media := AddRows(old(store.db.media), Inserted(old(store.nextId), q, items, exts, |items|)))
      && store.trace == old(store.trace) + Effects(old(store.nextId), q, items, exts, |items|)
  {
    ghost var start := store.nextId;
    ghost var db0 := store.db;
    ghost var trace0 := store.trace;
    dtos := [];
    for i := 0 to |items|
      invariant store.Valid()
      invariant Progress(start, q, items, exts, i, db0, trace0, dtos, store.db, store.nextId, store.trace)
    {
      ghost var (db1, trace1) := (store.db, store.trace);
      var dto := UploadEntry(store, q, items[i], exts[i]);
      ProgressStep(start, q, items, exts, i, db0, trace0, dtos, db1, trace1, dto, store.db, store.nextId, store.trace);
      dtos := dtos + [dto];
    }
  }

  /** After the first `i` entries, the responses, the ids, the media and the trace are what the specification functions say. */
  ghost predicate Progress(start: Id, q: UploadRequest, items: seq<MediaItem>, exts: seq<Result<string>>, i: nat,
                           db0: Db, trace0: seq<Effect>, dtos: seq<UploadResponse>, db: Db, nextId: Id, trace: seq<Effect>)
    requires |exts| == |items| && i <= |items|
  {
    && dtos == Responses(start, q, items, exts, i)
    && nextId == EntryId(start, exts, i)
    && db == db0.(media := AddRows(db0.media, Inserted(start, q, items, exts, i)))
    && trace == trace0 + Effects(start, q, items, exts, i)
  }

  /** One more entry, applied to the store as UploadEntry does, carries the progress one entry further. */
  lemma ProgressStep(start: Id, q: UploadRequest, items: seq<MediaItem>, exts: seq<Result<string>>, i: nat,
                     db0: Db, trace0: seq<Effect>, dtos: seq<UploadResponse>, db1: Db, trace1: seq<Effect>,
                     dto: UploadResponse, db2: Db, n2: Id, trace2: seq<Effect>)
    requires |exts| == |items| && i < |items|
    requires Progress(start, q, items, exts, i, db0, trace0, dtos, db1, EntryId(start, exts, i), trace1)
    requires var id := EntryId(start, exts, i);
      var stored := StoredMedia(id, q, items[i], exts[i]);
      && dto == Response(id, q, items[i], exts[i])
      && n2 == id + (if stored.Some? then 1 else 0)
      && db2 == db1.(media := db2.media)
      && db2.media == (if stored.Some? then db1.media[id := stored.value] else db1.media)
      && trace2 == trace1 + EntryEffects(items[i], stored, dto)
    ensures Progress(start, q, items, exts, i + 1, db0, trace0, dtos + [dto], db2, n2, trace2)
  {
    var id := EntryId(start, exts, i);
    var stored := StoredMedia(id, q, items[i], exts[i]);
    var before := Inserted(start, q, items, exts, i);
    ResponsesStep(start, q, items, exts, i);
    InsertedStep(start, q, items, exts, i);
    EffectsStep(start, q, items, exts, i);
    assert EntryId(start, exts, i + 1) == n2;
    if stored.Some? {
      AddRowsStep(db0.media, before, stored.value);
      assert Inserted(start, q, items, exts, i + 1) == before + [stored.value];
      assert stored.value.id == id;
      assert db2.media == AddRows(db0.media, before + [stored.value]);
    } else {
      assert Inserted(start, q, items, exts, i + 1) == before;
      assert db2.media == AddRows(db0.media, before);
    }
    assert db2 == db0.(media := db2.media);
    assert db2.media == AddRows(db0.media, Inserted(start, q, items, exts, i + 1));
    assert db2 == db0.(media := AddRows(db0.media, Inserted(start, q, items, exts, i + 1)));
    assert trace2 == trace0 + (Effects(start, q, items, exts, i) + EntryEffects(items[i], stored, dto));
  }

  /** The responses after one more entry. */
  lemma ResponsesStep(start: Id, q: UploadRequest, items: seq<MediaItem>, exts: seq<Result<string>>, i: nat)
    requires |exts| == |items| && i < |items|
    ensures Responses(start, q, items, exts, i + 1)
      == Responses(start, q, items, exts, i) + [Response(EntryId(start, exts, i), q, items[i], exts[i])]
  {
  }

  /** The media inserted after one more entry. */
  lemma InsertedStep(start: Id, q: UploadRequest, items: seq<MediaItem>, exts: seq<Result<string>>, i: nat)
    requires |exts| == |items| && i < |items|
    ensures var stored := StoredMedia(EntryId(start, exts, i), q, items[i], exts[i]);
      Inserted(start, q, items, exts, i + 1) == Inserted(start, q, items, exts, i) + (if stored.Some? then [stored.value] else [])
  {
  }

  /** The effects after one more entry. */
  lemma EffectsStep(start: Id, q: UploadRequest, items: seq<MediaItem>, exts: seq<Result<string>>, i: nat)
    requires |exts| == |items| && i < |items|
    ensures var id := EntryId(start, exts, i);
      Effects(start, q, items, exts, i + 1)
        == Effects(start, q, items, exts, i) + EntryEffects(items[i], StoredMedia(id, q, items[i], exts[i]), Response(id, q, items[i], exts[i]))
  {
  }

  /** Adding one more row is one more map update. */
  lemma AddRowsStep(m: map<Id, Media>, rows: seq<Media>, row: Media)
    ensures AddRows(m, rows + [row]) == AddRows(m, rows)[row.id := row]
  {
    assert (rows + [row])[..|rows|] == rows;
  }

  /** One entry: its media inserted under the next id when its type is accepted, and its response. */
  method UploadEntry(store: Store, q: UploadRequest, item: MediaItem, ext: Result<string>) returns (dto: UploadResponse)
    requires store.Valid()
    modifies store`db, store`nextId, store`trace
    ensures var stored := StoredMedia(old(store.nextId), q, item, ext);
      && dto == Response(old(store.nextId), q, item, ext)
      && store.Valid() && store.nextId == old(store.nextId) + (if stored.Some? then 1 else 0)
      && store.db == old(store.db).(media := store.db.media)
      && store.db.media == (if stored.Some? then old(store.db.media)[old(store.nextId) := stored.value] else old(store.db.media))
      && store.trace == old(store.trace) + EntryEffects(item, stored, dto)
  {
    var stored := StoredMedia(store.nextId, q, item, ext);
    dto := Response(store.nextId, q, item, ext);
    if stored.Some? {
      var id := store.NewId();
      store.WriteMedia(store.db.media[id := stored.value], InsertOneCommand, None);
    }
    if dto.error.Some? {
      store.Emit(ConsoleLine(FailureLine(item, dto.error.value)));
    }
  }

  /** A response answers its entry: same temporary id; a refused type is an error; a success has an id and a URL. */
  predicate LinesUp(item: MediaItem, ext: Result<string>, dto: UploadResponse)
  {
    && dto.tempId == item.tempId
    && (ext.Failure? ==> dto.error.Some?)
    && (dto.error.None? ==> dto.url.Some? && dto.id.Some?)
  }

  /**
   * The responses line up with the request: one per entry, under its temporary id, and an error
   * whenever its MIME type is refused or its URL call fails.
   */
  lemma UploadsLineUp(start: Id, q: UploadRequest, items: seq<MediaItem>, exts: seq<Result<string>>, n: nat)
    requires |exts| == |items| && n <= |items|
    ensures var dtos := Responses(start, q, items, exts, n);
      && |dtos| == n
      && forall i :: 0 <= i < n ==> LinesUp(items[i], exts[i], dtos[i])
  {
    var dtos := Responses(start, q, items, exts, n);
    forall i | 0 <= i < n ensures LinesUp(items[i], exts[i], dtos[i]) {
      OneLinesUp(EntryId(start, exts, i), q, items[i], exts[i]);
    }
  }

  /** The response to one entry answers it. */
  lemma OneLinesUp(id: Id, q: UploadRequest, item: MediaItem, ext: Result<string>)
    ensures LinesUp(item, ext, Response(id, q, item, ext))
  {
  }

  /** okImages of GetMediaUploadUrlsAsync: the number of responses without an error. */
  function OkCount(dtos: seq<UploadResponse>): (r: nat)
    ensures r <= |dtos|
    ensures r == |dtos| <==> forall i :: 0 <= i < |dtos| ==> dtos[i].error.None?
    decreases |dtos|
  {
    if dtos == [] then 0
    else
      var n := |dtos| - 1;
      assert forall i :: 0 <= i < n ==> dtos[..n][i] == dtos[i];
      OkCount(dtos[..n]) + (if dtos[n].error.None? then 1 else 0)
  }

  /** Every response without an error stands for a stored media, so okImages never exceeds the media inserted. */
  lemma OkCountBounded(start: Id, q: UploadRequest, items: seq<MediaItem>, exts: seq<Result<string>>, n: nat)
    requires |exts| == |items| && n <= |items|
    ensures OkCount(Responses(start, q, items, exts, n)) <= |Inserted(start, q, items, exts, n)|
  {
    var dtos := Responses(start, q, items, exts, n);
    UploadsLineUp(start, q, items, exts, n);
    assert dtos[..n] == dtos;
    OkWithinAccepted(dtos, exts, n);
  }

  /** Responses that are errors wherever the type is refused count no more successes than accepted types. */
  lemma {:induction false} OkWithinAccepted(dtos: seq<UploadResponse>, exts: seq<Result<string>>, n: nat)
    requires n <= |dtos| && n <= |exts|
    requires forall i :: 0 <= i < n ==> (exts[i].Failure? ==> dtos[i].error.Some?)
    ensures OkCount(dtos[..n]) <= Accepted(exts, n)
  {
    if n > 0 {
      OkWithinAccepted(dtos, exts, n - 1);
      assert dtos[..n][..n - 1] == dtos[..n - 1];
    }
  }

  // ----- GetReadUrlsAsync -----

  /** The sort key `Descending("creationDate")`. */
  function CreationDate(m: Media): int
  {
    m.creationDate
  }

  /** The filter `m.ParentId == parentId`. */
  function OfParent(parentId: Id): Media -> bool
  {
    (m: Media) => m.parentId == parentId
  }

  /**
   * The FindForPaginationAsync call of GetReadUrlsAsync: the requested page of the parent's media,
   * newest first; without both paging arguments, all of them.
   */
  function ReadPage(db: Db, parentId: Id, pageNumber: Option<int>, pageSize: Option<int>): (r: Result<seq<Media>>)
    ensures r.Failure? <==> NegativeSkip(pageNumber, pageSize)
    ensures r.Success? ==> SortedDescending(r.value, CreationDate)
    ensures r.Success? ==> forall i :: 0 <= i < |r.value| ==> r.value[i].parentId == parentId && r.value[i] in db.media.Values
    ensures pageNumber.None? || pageSize.None? ==>
      (r.Success? && forall k :: k in db.media && db.media[k].parentId == parentId ==> db.media[k] in r.value)
    ensures r == Page(SortedMatches(db.media, OfParent(parentId), CreationDate), pageNumber, pageSize, EventMediaCollection)
  {
    FindForPagination(db.media, OfParent(parentId), CreationDate, pageNumber, pageSize, EventMediaCollection)
  }

  /** A full page of the parent's media is the run from `(pageNumber - 1) * pageSize` to `pageNumber * pageSize` of them, newest first. */
  lemma ReadPageTakesPageSize(db: Db, parentId: Id, pageNumber: int, pageSize: int)
    requires pageNumber >= 1 && pageSize > 0
    requires pageNumber * pageSize <= |SortedMatches(db.media, OfParent(parentId), CreationDate)|
    ensures var sorted, skip := SortedMatches(db.media, OfParent(parentId), CreationDate), (pageNumber - 1) * pageSize;
      0 <= skip <= skip + pageSize <= |sorted| &&
      ReadPage(db, parentId, Some(pageNumber), Some(pageSize)) == Success(sorted[skip..skip + pageSize])
  {
    PaginationTakesPageSize(db.media, OfParent(parentId), CreationDate, pageNumber, pageSize, EventMediaCollection);
  }

  /** MediaReadResponseDto: the media, its read URL and the instant the URL expires, or its id and the error. */
  datatype ReadResponse =
    | ReadUrl(id: Id, extension: string, name: Option<string>, creationDate: Time, visibility: MediaVisibility,
              url: string, validUntil: Time)
    | ReadError(id: Id, error: string)

  /** The read URL call of a media at instant `now`: the GET URL of its object, valid for one day. */
  function ReadUrlOf(m: Media, now: Time, urlFor: (string, Time) -> Result<string>): Result<string>
  {
    urlFor(ObjectPath(m.parentId, m.id, m.extension), now + ReadUrlLifetime)
  }

  /** One media of the page: its presigned GET URL valid for one day, or an error entry when the call fails. */
  function ReadOne(m: Media, now: Time, urlFor: (string, Time) -> Result<string>): (r: ReadResponse)
    ensures r.id == m.id
    ensures r.ReadUrl? <==> urlFor(ObjectPath(m.parentId, m.id, m.extension), now + ReadUrlLifetime).Success?
    ensures r.ReadError? ==> r.error == urlFor(ObjectPath(m.parentId, m.id, m.extension), now + ReadUrlLifetime).error.message
    ensures r.ReadUrl? ==>
      (&& r.extension == m.extension && r.name == m.name && r.creationDate == m.creationDate
       && r.visibility == m.visibility && r.validUntil == now + ReadUrlLifetime
       && r.url == urlFor(ObjectPath(m.parentId, m.id, m.extension), r.validUntil).value)
  {
    var validUntil := now + ReadUrlLifetime;
    match urlFor(ObjectPath(m.parentId, m.id, m.extension), validUntil)
    case Success(url) => ReadUrl(m.id, m.extension, m.name, m.creationDate, m.visibility, url, validUntil)
    case Failure(e) => ReadError(m.id, e.message)
  }

  /** The answers of GetReadUrlsAsync at instant `now`: one response per media of the page, in the page's order. */
  function ReadAnswers(db: Db, parentId: Id, pageNumber: Option<int>, pageSize: Option<int>, now: Time,
                       urlFor: (string, Time) -> Result<string>): (r: Result<seq<ReadResponse>>)
    ensures r.Success? <==> ReadPage(db, parentId, pageNumber, pageSize).Success?
    ensures r.Success? ==> var page := ReadPage(db, parentId, pageNumber, pageSize).value;
      |r.value| == |page| && forall i :: 0 <= i < |page| ==> r.value[i] == ReadOne(page[i], now, urlFor)
  {
    var page := ReadPage(db, parentId, pageNumber, pageSize);
    if page.Failure? then Failure(page.error) else Success(ReadOnes(page.value, now, urlFor))
  }

  /** ReadOne for every media of the page, in order. */
  function ReadOnes(page: seq<Media>, now: Time, urlFor: (string, Time) -> Result<string>): (r: seq<ReadResponse>)
    ensures |r| == |page| && forall i :: 0 <= i < |page| ==> r[i] == ReadOne(page[i], now, urlFor)
  {
    seq(|page|, i requires 0 <= i < |page| => ReadOne(page[i], now, urlFor))
  }

  function ReadFailureLine(m: Media, message: string): string
  {
    "Failed to retrieve URL for image '" + IdText(m.id) + "': " + message
  }

  /** The URL call of a media succeeds. */
  predicate Served(m: Media, now: Time, urlFor: (string, Time) -> Result<string>)
  {
    ReadUrlOf(m, now, urlFor).Success?
  }

  /** The console line of one media: the failure of its URL call, or nothing. */
  function ReadLine(m: Media, now: Time, urlFor: (string, Time) -> Result<string>): (r: seq<Effect>)
    ensures |r| <= 1 && (r == [] <==> Served(m, now, urlFor))
    ensures r != [] ==> r == [ConsoleLine(ReadFailureLine(m, ReadUrlOf(m, now, urlFor).error.message))]
  {
    match ReadUrlOf(m, now, urlFor)
    case Success(_) => []
    case Failure(e) => [ConsoleLine(ReadFailureLine(m, e.message))]
  }

  /** The console lines of the first `n` media of the page, in order. */
  function ReadLines(page: seq<Media>, now: Time, urlFor: (string, Time) -> Result<string>, n: nat): seq<Effect>
    requires n <= |page|
  {
    if n == 0 then [] else ReadLines(page, now, urlFor, n - 1) + ReadLine(page[n - 1], now, urlFor)
  }

  /** Only console lines are written, at most one per media, and none exactly when every URL call succeeds. */
  lemma ReadLinesOnlyFailures(page: seq<Media>, now: Time, urlFor: (string, Time) -> Result<string>, n: nat)
    requires n <= |page|
    ensures |ReadLines(page, now, urlFor, n)| <= n
    ensures forall e :: e in ReadLines(page, now, urlFor, n) ==> e.ConsoleLine?
    ensures ReadLines(page, now, urlFor, n) == [] <==> forall i :: 0 <= i < n ==> Served(page[i], now, urlFor)
  {
    ReadLinesAreConsoleLines(page, now, urlFor, n);
    ReadLinesNoneServed(page, now, urlFor, n);
  }

  /** At most one console line per media. */
  lemma {:induction false} ReadLinesAreConsoleLines(page: seq<Media>, now: Time, urlFor: (string, Time) -> Result<string>, n: nat)
    requires n <= |page|
    ensures |ReadLines(page, now, urlFor, n)| <= n
    ensures forall e :: e in ReadLines(page, now, urlFor, n) ==> e.ConsoleLine?
    decreases n
  {
    if n > 0 {
      ReadLinesAreConsoleLines(page, now, urlFor, n - 1);
      var before := ReadLines(page, now, urlFor, n - 1);
      var last := ReadLine(page[n - 1], now, urlFor);
      assert ReadLines(page, now, urlFor, n) == before + last;
      assert forall e :: e in before + last ==> e in before || e in last;
    }
  }

  /** No console line exactly when every URL call succeeds. */
  lemma ReadLinesNoneServed(page: seq<Media>, now: Time, urlFor: (string, Time) -> Result<string>, n: nat)
    requires n <= |page|
    ensures ReadLines(page, now, urlFor, n) == [] <==> forall i :: 0 <= i < n ==> Served(page[i], now, urlFor)
  {
    ReadLinesEmpty(page, now, urlFor, n);
    AllServedEach(page, now, urlFor, n);
  }

  /** The URL calls of the first `n` media all succeed. */
  predicate AllServed(page: seq<Media>, now: Time, urlFor: (string, Time) -> Result<string>, n: nat)
    requires n <= |page|
  {
    n == 0 || (AllServed(page, now, urlFor, n - 1) && Served(page[n - 1], now, urlFor))
  }

  lemma {:induction false} ReadLinesEmpty(page: seq<Media>, now: Time, urlFor: (string, Time) -> Result<string>, n: nat)
    requires n <= |page|
    ensures ReadLines(page, now, urlFor, n) == [] <==> AllServed(page, now, urlFor, n)
    decreases n
  {
    if n > 0 {
      ReadLinesEmpty(page, now, urlFor, n - 1);
      var before := ReadLines(page, now, urlFor, n - 1);
      var last := ReadLine(page[n - 1], now, urlFor);
      assert ReadLines(page, now, urlFor, n) == before + last;
      assert |before + last| == |before| + |last|;
    }
  }

  lemma {:induction false} AllServedEach(page: seq<Media>, now: Time, urlFor: (string, Time) -> Result<string>, n: nat)
    requires n <= |page|
    ensures AllServed(page, now, urlFor, n) <==> forall i :: 0 <= i < n ==> Served(page[i], now, urlFor)
    decreases n
  {
    if n > 0 {
      AllServedEach(page, now, urlFor, n - 1);
    }
  }

  /**
   * GetReadUrlsAsync, with the concurrent calls taken one media at a time and the clock read once:
   * the page of the parent's media, then for each its read URL, valid for one day from the instant
   * read; a failed call is written to the console and becomes an error entry for that media.
   * Nothing in the store changes.
   */
  method GetReadUrls(store: Store, parentId: Id, pageNumber: Option<int>, pageSize: Option<int>,
                     urlFor: (string, Time) -> Result<string>) returns (r: Result<seq<ReadResponse>>)
    requires store.Valid()
    modifies store`clock, store`trace
    ensures store.Valid() && old(store.clock) <= store.clock
    ensures r == ReadAnswers(store.db, parentId, pageNumber, pageSize, store.clock, urlFor)
    ensures r.Failure? ==> store.trace == old(store.trace)
    ensures r.Success? ==> var page := ReadPage(store.db, parentId, pageNumber, pageSize).value;
      store.trace == old(store.trace) + ReadLines(page, store.clock, urlFor, |page|)
  {
    var now := store.Now();
    var page := ReadPage(store.db, parentId, pageNumber, pageSize);
    if page.Failure? {
      return Failure(page.error);
    }
    var dtos := ReadAll(store, page.value, now, urlFor);
    assert store.clock == now;
    r := Success(dtos);
  }

  /** The per-media calls of GetReadUrlsAsync over the page, in its order. */
  method ReadAll(store: Store, page: seq<Media>, now: Time, urlFor: (string, Time) -> Result<string>) returns (dtos: seq<ReadResponse>)
    modifies store`trace
    ensures dtos == ReadOnes(page, now, urlFor)
    ensures store.trace == old(store.trace) + ReadLines(page, now, urlFor, |page|)
  {
    ghost var trace0 := store.trace;
    dtos := [];
    for i := 0 to |page|
      invariant |dtos| == i && forall j :: 0 <= j < i ==> dtos[j] == ReadOne(page[j], now, urlFor)
      invariant store.trace == trace0 + ReadLines(page, now, urlFor, i)
    {
      var line := ReadLine(page[i], now, urlFor);
      if line != [] {
        store.Emit(line[0]);
      }
      Associative(trace0, ReadLines(page, now, urlFor, i), line);
      dtos := dtos + [ReadOne(page[i], now, urlFor)];
    }
  }

  /** The responses name media stored under the parent, newest first. */
  lemma ReadUrlsNewestFirst(db: Db, parentId: Id, pageNumber: Option<int>, pageSize: Option<int>, now: Time,
                            urlFor: (string, Time) -> Result<string>)
    requires ReadAnswers(db, parentId, pageNumber, pageSize, now, urlFor).Success?
    ensures var r := ReadAnswers(db, parentId, pageNumber, pageSize, now, urlFor).value;
      var page := ReadPage(db, parentId, pageNumber, pageSize).value;
      && |r| == |page|
      && (forall i :: 0 <= i < |r| ==> r[i].id == page[i].id && page[i] in db.media.Values && page[i].parentId == parentId)
      && (forall i, j :: 0 <= i < j < |r| ==> page[i].creationDate >= page[j].creationDate)
  {
    var r := ReadAnswers(db, parentId, pageNumber, pageSize, now, urlFor).value;
    var page := ReadPage(db, parentId, pageNumber, pageSize).value;
    ResponsesFollowPage(page, r, now, urlFor);
    NewestFirst(page);
  }

  /** Responses built one per media of the page carry the page's ids, in its order. */
  lemma ResponsesFollowPage(page: seq<Media>, r: seq<ReadResponse>, now: Time, urlFor: (string, Time) -> Result<string>)
    requires |r| == |page| && forall i :: 0 <= i < |page| ==> r[i] == ReadOne(page[i], now, urlFor)
    ensures forall i :: 0 <= i < |r| ==> r[i].id == page[i].id
  {
    forall i | 0 <= i < |r| ensures r[i].id == page[i].id {
      assert r[i] == ReadOne(page[i], now, urlFor);
    }
  }

  /** Sorted by the key `Descending("creationDate")` means newest first. */
  lemma NewestFirst(page: seq<Media>)
    requires SortedDescending(page, CreationDate)
    ensures forall i, j :: 0 <= i < j < |page| ==> page[i].creationDate >= page[j].creationDate
  {
    forall i, j | 0 <= i < j < |page| ensures page[i].creationDate >= page[j].creationDate {
      assert CreationDate(page[i]) >= CreationDate(page[j]);
    }
  }
}
