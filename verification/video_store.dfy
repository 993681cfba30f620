/**
 * The video job store: VideoStorage of backend/services/video_service.py
 * (copied verbatim into backend/main.py), the dictionary-backed
 * VideoService, the video routes of backend/main.py and the status updates
 * the audio generation routes make.
 *
 * Pydantic does not validate assignments, so a field set through
 * `update_video` can hold a value of any kind; fields hold a `Value`.
 */
module VideoStore {
  import opened Wrappers
  import opened Strings

  datatype Value = Null | Text(s: string) | Time(ms: nat) | Object(entries: map<string, string>)

  /** VideoStatus of the schemas, with its string values. */
  datatype VideoStatus = Pending | Processing | Completed | Failed

  function StatusText(s: VideoStatus): (t: string)
    ensures |t| > 0
  {
    match s
    case Pending => "pending"
    case Processing => "processing"
    case Completed => "completed"
    case Failed => "error"
  }

  /** The fields of the Video model. */
  datatype Video = Video(id: Value, title: Value, status: Value, createdAt: Value, url: Value, error: Value, metadata: Value)

  datatype FieldName = IdField | TitleField | StatusField | CreatedAtField | UrlField | ErrorField | MetadataField

  function Name(f: FieldName): string {
    match f
    case IdField => "id"
    case TitleField => "title"
    case StatusField => "status"
    case CreatedAtField => "createdAt"
    case UrlField => "url"
    case ErrorField => "error"
    case MetadataField => "metadata"
  }

  /** `hasattr(video, key)` for the model's fields: the field a key names, if any. */
  function FieldOf(key: string): (f: Option<FieldName>)
    ensures f.Some? ==> Name(f.value) == key
  {
    if key == "id" then Some(IdField)
    else if key == "title" then Some(TitleField)
    else if key == "status" then Some(StatusField)
    else if key == "createdAt" then Some(CreatedAtField)
    else if key == "url" then Some(UrlField)
    else if key == "error" then Some(ErrorField)
    else if key == "metadata" then Some(MetadataField)
    else None
  }

  /** Every field is found by its own name. */
  lemma FieldOfName(f: FieldName)
    ensures FieldOf(Name(f)) == Some(f)
  {
    match f
    case IdField =>
    case TitleField =>
    case StatusField => assert Name(f) != "title";
    case CreatedAtField => assert Name(f) != "title";
    case UrlField => assert Name(f) != "title";
    case ErrorField => assert Name(f) != "title";
    case MetadataField => assert Name(f) != "title";
  }

  /** Different fields have different names. */
  lemma NameInjective(f: FieldName, g: FieldName)
    ensures Name(f) == Name(g) ==> f == g
  {
    FieldOfName(f);
    FieldOfName(g);
  }

  function Field(v: Video, f: FieldName): Value {
    match f
    case IdField => v.id
    case TitleField => v.title
    case StatusField => v.status
    case CreatedAtField => v.createdAt
    case UrlField => v.url
    case ErrorField => v.error
    case MetadataField => v.metadata
  }

  /** `setattr(video, f, value)`: field f now holds value, every other field is as it was. */
  function SetField(v: Video, f: FieldName, value: Value): (r: Video)
    ensures Field(r, f) == value
    ensures forall g :: g != f ==> Field(r, g) == Field(v, g)
  {
    match f
    case IdField => v.(id := value)
    case TitleField => v.(title := value)
    case StatusField => v.(status := value)
    case CreatedAtField => v.(createdAt := value)
    case UrlField => v.(url := value)
    case ErrorField => v.(error := value)
    case MetadataField => v.(metadata := value)
  }

  /** Two videos whose fields agree are the same video. */
  lemma VideoByFields(v: Video, w: Video)
    requires forall f :: Field(v, f) == Field(w, f)
    ensures v == w
  {
    assert Field(v, IdField) == Field(w, IdField);
    assert Field(v, TitleField) == Field(w, TitleField);
    assert Field(v, StatusField) == Field(w, StatusField);
    assert Field(v, CreatedAtField) == Field(w, CreatedAtField);
    assert Field(v, UrlField) == Field(w, UrlField);
    assert Field(v, ErrorField) == Field(w, ErrorField);
    assert Field(v, MetadataField) == Field(w, MetadataField);
  }

  /** One item of the updates dictionary: keys that are not fields are skipped. */
  function UpdateStep(v: Video, u: (string, Value)): Video {
    match FieldOf(u.0)
    case None => v
    case Some(f) => SetField(v, f, u.1)
  }

  /** The updates applied in dictionary order. */
  function ApplyUpdates(v: Video, updates: seq<(string, Value)>): Video
    decreases |updates|
  {
    if updates == [] then v
    else UpdateStep(ApplyUpdates(v, updates[..|updates| - 1]), updates[|updates| - 1])
  }

  /** The value of the last update that names field f, if any. */
  function LastSet(updates: seq<(string, Value)>, f: FieldName): Option<Value>
    decreases |updates|
  {
    if updates == [] then None
    else if updates[|updates| - 1].0 == Name(f) then Some(updates[|updates| - 1].1)
    else LastSet(updates[..|updates| - 1], f)
  }

  /** After the updates, each field holds the last value given for it, or its old value. */
  lemma {:induction false} ApplyUpdatesFields(v: Video, updates: seq<(string, Value)>, f: FieldName)
    ensures Field(ApplyUpdates(v, updates), f) == LastSet(updates, f).GetOr(Field(v, f))
    decreases |updates|
  {
    if updates != [] {
      var init := updates[..|updates| - 1];
      var u := updates[|updates| - 1];
      ApplyUpdatesFields(v, init, f);
      match FieldOf(u.0)
      case None =>
        if u.0 == Name(f) {
          FieldOfName(f);
        }
      case Some(g) =>
    }
  }

  /** Only the updates whose keys are fields matter. */
  function KnownUpdates(updates: seq<(string, Value)>): (r: seq<(string, Value)>)
    ensures forall k :: 0 <= k < |r| ==> FieldOf(r[k].0).Some?
    decreases |updates|
  {
    if updates == [] then []
    else if FieldOf(updates[|updates| - 1].0).Some? then KnownUpdates(updates[..|updates| - 1]) + [updates[|updates| - 1]]
    else KnownUpdates(updates[..|updates| - 1])
  }

  lemma {:induction false} KnownUpdatesLastSet(updates: seq<(string, Value)>, f: FieldName)
    ensures LastSet(KnownUpdates(updates), f) == LastSet(updates, f)
    decreases |updates|
  {
    if updates != [] {
      var init := updates[..|updates| - 1];
      var u := updates[|updates| - 1];
      KnownUpdatesLastSet(init, f);
      if FieldOf(u.0).Some? {
        assert (KnownUpdates(init) + [u])[..|KnownUpdates(init)|] == KnownUpdates(init);
      } else if u.0 == Name(f) {
        FieldOfName(f);
      }
    }
  }

  /** Keys that are not fields of Video are ignored. */
  lemma UnknownKeysIgnored(v: Video, updates: seq<(string, Value)>)
    ensures ApplyUpdates(v, updates) == ApplyUpdates(v, KnownUpdates(updates))
  {
    forall f ensures Field(ApplyUpdates(v, updates), f) == Field(ApplyUpdates(v, KnownUpdates(updates)), f) {
      ApplyUpdatesFields(v, updates, f);
      ApplyUpdatesFields(v, KnownUpdates(updates), f);
      KnownUpdatesLastSet(updates, f);
    }
    VideoByFields(ApplyUpdates(v, updates), ApplyUpdates(v, KnownUpdates(updates)));
  }

  // ---------------------------------------------------------------- the store

  /** The dictionary's keys in insertion order: no repeats, and exactly the keys of the map. */
  ghost predicate Ordered(ids: seq<string>, videos: map<string, Video>) {
    && (forall i, j :: 0 <= i < j < |ids| ==> ids[i] != ids[j])
    && (forall k :: k in videos <==> k in ids)
  }

  /** `list(videos.values())`. */
  function ValuesOf(ids: seq<string>, videos: map<string, Video>): (vs: seq<Video>)
    requires Ordered(ids, videos)
    ensures |vs| == |ids|
    ensures forall i :: 0 <= i < |ids| ==> vs[i] == videos[ids[i]]
  {
    seq(|ids|, i requires 0 <= i < |ids| => videos[ids[i]])
  }

  /** `videos[key] = video`: a new key goes last, an existing key keeps its place. */
  function InsertOrder(ids: seq<string>, videos: map<string, Video>, key: string): seq<string> {
    if key in videos then ids else ids + [key]
  }

  /** `del videos[key]`: the key leaves the order, the rest keep theirs. */
  function RemoveOrder(ids: seq<string>, key: string): (r: seq<string>)
    ensures forall k :: k in r <==> k in ids && k != key
    decreases |ids|
  {
    if ids == [] then []
    else if ids[|ids| - 1] == key then RemoveOrder(ids[..|ids| - 1], key)
    else RemoveOrder(ids[..|ids| - 1], key) + [ids[|ids| - 1]]
  }

  lemma InsertOrdered(ids: seq<string>, videos: map<string, Video>, key: string, v: Video)
    requires Ordered(ids, videos)
    ensures Ordered(InsertOrder(ids, videos, key), videos[key := v])
  {
  }

  lemma {:induction false} RemoveOrdered(ids: seq<string>, videos: map<string, Video>, key: string)
    requires Ordered(ids, videos)
    ensures Ordered(RemoveOrder(ids, key), videos - {key})
    decreases |ids|
  {
    if ids != [] {
      var init := ids[..|ids| - 1];
      var last := ids[|ids| - 1];
      var rest := map k | k in videos && k != last :: videos[k];
      assert forall k :: k in init ==> k != last;
      assert Ordered(init, rest);
      RemoveOrdered(init, rest, key);
      if last != key {
        var r := RemoveOrder(init, key);
        assert last !in r;
        assert RemoveOrder(ids, key) == r + [last];
      }
    }
  }

  /** Adding under a new key appends its video; under a known key, replaces it where it stands. */
  lemma InsertValues(ids: seq<string>, videos: map<string, Video>, key: string, v: Video)
    requires Ordered(ids, videos)
    ensures key !in videos ==> ValuesOf(InsertOrder(ids, videos, key), videos[key := v]) == ValuesOf(ids, videos) + [v]
    ensures key in videos ==> exists i :: ReplacedAt(ids, videos, key, v, i)
  {
    InsertOrdered(ids, videos, key, v);
    if key in videos {
      var i :| 0 <= i < |ids| && ids[i] == key;
      assert ValuesOf(ids, videos[key := v]) == ValuesOf(ids, videos)[i := v];
      assert ReplacedAt(ids, videos, key, v, i);
    } else {
      assert ValuesOf(ids + [key], videos[key := v]) == ValuesOf(ids, videos) + [v];
    }
  }

  /** The video under key, at position i of the order, was replaced in place. */
  predicate ReplacedAt(ids: seq<string>, videos: map<string, Video>, key: string, v: Video, i: int)
    requires Ordered(ids, videos)
  {
    0 <= i < |ids| && ids[i] == key && key in videos
      && ValuesOf(InsertOrder(ids, videos, key), videos[key := v]) == ValuesOf(ids, videos)[i := v]
  }

  /** A list without repeats has as many elements as its set. */
  lemma {:induction false} DistinctCardinality(ids: seq<string>)
    requires forall i, j :: 0 <= i < j < |ids| ==> ids[i] != ids[j]
    ensures |set k | k in ids| == |ids|
    decreases |ids|
  {
    if ids != [] {
      var init := ids[..|ids| - 1];
      var last := ids[|ids| - 1];
      DistinctCardinality(init);
      assert (set k | k in ids) == (set k | k in init) + {last};
      assert last !in (set k | k in init);
    }
  }

  /** `get_all_videos` lists every stored video once: as many entries as stored ids. */
  lemma AllVideosCount(ids: seq<string>, videos: map<string, Video>)
    requires Ordered(ids, videos)
    ensures |ValuesOf(ids, videos)| == |videos|
  {
    DistinctCardinality(ids);
    assert videos.Keys == set k | k in ids;
  }

  /**
   * VideoStorage: `videos` with the order the dictionary keeps, and
   * `saved`, the list the JSON file last received.
   */
  class VideoStorage {
    var videos: map<string, Video>
    var ids: seq<string>
    ghost var saved: seq<Video>

    ghost predicate Valid()
      reads this
    {
      Ordered(ids, videos)
    }

    function AllVideos(): (vs: seq<Video>)
      reads this
      requires Valid()
    {
      ValuesOf(ids, videos)
    }

    /**
     * The constructor's `load_videos`: the file's records stored by id in
     * file order (`None` is a file that is not valid JSON, which is reset
     * to an empty list). Every record carries a string id.
     */
    constructor(data: Option<seq<Video>>)
      requires data.Some? ==> forall k :: 0 <= k < |data.value| ==> data.value[k].id.Text?
      ensures Valid()
      ensures data.None? ==> videos == map[] && saved == []
      ensures data.Some? ==> (ids, videos) == Loaded(data.value) && saved == data.value
    {
      var order: seq<string> := [];
      var loaded: map<string, Video> := map[];
      if data.Some? {
        var i := 0;
        while i < |data.value|
          invariant 0 <= i <= |data.value|
          invariant (order, loaded) == Loaded(data.value[..i])
          invariant Ordered(order, loaded)
        {
          assert data.value[..i + 1][..i] == data.value[..i];
          var v := data.value[i];
          InsertOrdered(order, loaded, v.id.s, v);
          order := InsertOrder(order, loaded, v.id.s);
          loaded := loaded[v.id.s := v];
          i := i + 1;
        }
        assert data.value[..|data.value|] == data.value;
        saved := data.value;
      } else {
        saved := [];
      }
      ids, videos := order, loaded;
    }

    /** `add_video`: stored under its id, replacing any previous record, then saved. */
    method AddVideo(v: Video) returns (r: Video)
      requires Valid() && v.id.Text?
      modifies this
      ensures Valid()
      ensures videos == old(videos)[v.id.s := v] && ids == InsertOrder(old(ids), old(videos), v.id.s)
      ensures saved == AllVideos() && r == v
    {
      InsertOrdered(ids, videos, v.id.s, v);
      ids := InsertOrder(ids, videos, v.id.s);
      videos := videos[v.id.s := v];
      saved := AllVideos();
      r := v;
    }

    /** `get_video`: `None` for an unknown id. */
    function GetVideo(id: string): (r: Option<Video>)
      reads this
      ensures r.Some? <==> id in videos
      ensures r.Some? ==> r.value == videos[id]
    {
      if id in videos then Some(videos[id]) else None
    }

    /**
     * `update_video`: for an unknown id nothing changes and nothing is
     * saved; otherwise the updates are applied in order to that video
     * alone, which is saved and returned.
     */
    method UpdateVideo(id: string, updates: seq<(string, Value)>) returns (r: Option<Video>)
      requires Valid()
      modifies this
      ensures Valid()
      ensures id !in old(videos) ==> r.None? && videos == old(videos) && ids == old(ids) && saved == old(saved)
      ensures id in old(videos) ==>
        && r == Some(ApplyUpdates(old(videos)[id], updates))
        && videos == old(videos)[id := r.value] && ids == old(ids)
        && saved == AllVideos()
    {
      if id !in videos {
        return None;
      }
      var video := videos[id];
      var i := 0;
      while i < |updates|
        invariant 0 <= i <= |updates|
        invariant video == ApplyUpdates(videos[id], updates[..i])
      {
        assert updates[..i + 1][..i] == updates[..i];
        var (key, value) := updates[i];
        match FieldOf(key) {
          case None =>
          case Some(f) => video := SetField(video, f, value);
        }
        i := i + 1;
      }
      assert updates[..|updates|] == updates;
      InsertOrdered(ids, videos, id, video);
      videos := videos[id := video];
      saved := AllVideos();
      r := Some(video);
    }

    /** `remove_video`: true, and the video is gone and the file saved, exactly when the id was stored. */
    method RemoveVideo(id: string) returns (removed: bool)
      requires Valid()
      modifies this
      ensures Valid()
      ensures removed <==> id in old(videos)
      ensures removed ==> videos == old(videos) - {id} && ids == RemoveOrder(old(ids), id) && saved == AllVideos()
      ensures !removed ==> videos == old(videos) && ids == old(ids) && saved == old(saved)
    {
      if id in videos {
        RemoveOrdered(ids, videos, id);
        ids := RemoveOrder(ids, id);
        videos := videos - {id};
        saved := AllVideos();
        return true;
      }
      return false;
    }
  }

  /** The records of a JSON file, stored one after the other by id. */
  function Loaded(data: seq<Video>): (r: (seq<string>, map<string, Video>))
    requires forall k :: 0 <= k < |data| ==> data[k].id.Text?
    decreases |data|
  {
    if data == [] then ([], map[])
    else
      var (order, loaded) := Loaded(data[..|data| - 1]);
      var v := data[|data| - 1];
      (InsertOrder(order, loaded, v.id.s), loaded[v.id.s := v])
  }

  /** Loading lists each id once, and stores exactly the ids of the file. */
  lemma {:induction false} LoadedOrdered(data: seq<Video>)
    requires forall k :: 0 <= k < |data| ==> data[k].id.Text?
    ensures Ordered(Loaded(data).0, Loaded(data).1)
    ensures forall id :: id in Loaded(data).1 <==> HasId(data, id)
    decreases |data|
  {
    if data != [] {
      var init := data[..|data| - 1];
      LoadedOrdered(init);
      var v := data[|data| - 1];
      InsertOrdered(Loaded(init).0, Loaded(init).1, v.id.s, v);
      forall id ensures id in Loaded(data).1 <==> HasId(data, id) {
        if HasId(data, id) && id != v.id.s {
          var k :| 0 <= k < |data| && data[k].id == Text(id);
          assert init[k] == data[k];
        }
        if HasId(init, id) {
          var k :| 0 <= k < |init| && init[k].id == Text(id);
          assert data[k] == init[k];
        }
      }
    }
  }

  predicate HasId(data: seq<Video>, id: string) {
    exists k :: 0 <= k < |data| && data[k].id == Text(id)
  }

  /** The video stored under an id is the file's last record with that id. */
  lemma {:induction false} LoadedKeepsLast(data: seq<Video>, k: nat)
    requires forall k :: 0 <= k < |data| ==> data[k].id.Text?
    requires k < |data| && forall j :: k < j < |data| ==> data[j].id != data[k].id
    ensures data[k].id.s in Loaded(data).1 && Loaded(data).1[data[k].id.s] == data[k]
    decreases |data|
  {
    if k < |data| - 1 {
      var init := data[..|data| - 1];
      assert init[k] == data[k];
      LoadedKeepsLast(init, k);
    }
  }

  // ---------------------------------------------------------------- video routes of backend/main.py

  /** An HTTPException: status code and detail. */
  datatype HttpError = HttpError(status: int, detail: string)

  /** A failed route: the status it answers with and the exception its handler caught. */
  datatype RouteError = RouteError(status: int, raised: HttpError)

  const NotFound: HttpError := HttpError(404, "Video not found")

  /** The video `create_video` builds: pending, id "VID<milliseconds>", srtPath kept only when non-empty. */
  function NewVideo(title: string, audioPath: string, srtPath: Option<string>, idMs: nat, createdMs: nat): (v: Video)
    ensures v.id == Text("VID" + NatToString(idMs)) && v.status == Text(StatusText(Pending))
    ensures v.title == Text(title) && v.url == Text(audioPath) && v.error == Null
    ensures v.metadata.Object? <==> srtPath.Some? && srtPath.value != ""
    ensures v.metadata.Object? ==> v.metadata.entries == map["srtPath" := srtPath.value]
  {
    Video(Text("VID" + NatToString(idMs)), Text(title), Text("pending"), Time(createdMs), Text(audioPath), Null,
      if srtPath.Some? && srtPath.value != "" then Object(map["srtPath" := srtPath.value]) else Null)
  }

  /** `create_video`: stores the new video and answers with it; the two clock readings are parameters. */
  method CreateVideoRoute(store: VideoStorage, title: string, audioPath: string, srtPath: Option<string>, idMs: nat, createdMs: nat)
    returns (r: Video)
    requires store.Valid()
    modifies store
    ensures store.Valid() && r == NewVideo(title, audioPath, srtPath, idMs, createdMs)
    ensures store.videos == old(store.videos)[r.id.s := r] && store.saved == store.AllVideos()
    ensures store.ids == InsertOrder(old(store.ids), old(store.videos), r.id.s)
  {
    var v := NewVideo(title, audioPath, srtPath, idMs, createdMs);
    r := store.AddVideo(v);
  }

  /**
   * `get_video` as written: the 404 it raises for an unknown id is caught
   * by its own `except Exception` and answered as 500.
   */
  function GetVideoRoute(store: VideoStorage, id: string): (r: Result<Video, RouteError>)
    reads store
    ensures r.Ok? <==> id in store.videos
    ensures r.Ok? ==> r.value == store.videos[id]
  {
    match store.GetVideo(id)
    case None => Err(RouteError(500, NotFound))
    case Some(v) => Ok(v)
  }

  /** An unknown id is answered with status 500, not 404. */
  lemma MissingVideoAnswers500(store: VideoStorage, id: string)
    requires id !in store.videos
    ensures GetVideoRoute(store, id).Err? && GetVideoRoute(store, id).error.status == 500
    ensures GetVideoRoute(store, id).error.raised == NotFound
  {
  }

  /** `get_video` with the 404 passed through, as the route intends. */
  function GetVideoIntended(store: VideoStorage, id: string): (r: Result<Video, RouteError>)
    reads store
    ensures r.Ok? <==> id in store.videos
    ensures r.Ok? ==> r.value == store.videos[id]
    ensures r.Err? ==> r.error.status == NotFound.status && r.error.raised == NotFound
  {
    match store.GetVideo(id)
    case None => Err(RouteError(NotFound.status, NotFound))
    case Some(v) => Ok(v)
  }

  /** VideoUpdate after `dict(exclude_unset=True)`: each field unset, set to null, or set to a value. */
  datatype VideoUpdate = VideoUpdate(status: Option<Option<VideoStatus>>, error: Option<Option<string>>, url: Option<Option<string>>)

  function OptionalText(o: Option<string>): Value {
    if o.Some? then Text(o.value) else Null
  }

  /** The updates dictionary of a VideoUpdate: its set fields, in declaration order. */
  function UpdatesOf(u: VideoUpdate): (r: seq<(string, Value)>)
    ensures |r| <= 3
  {
    (if u.status.Some? then [("status", if u.status.value.Some? then Text(StatusText(u.status.value.value)) else Null)] else [])
    + (if u.error.Some? then [("error", OptionalText(u.error.value))] else [])
    + (if u.url.Some? then [("url", OptionalText(u.url.value))] else [])
  }

  /** `update_video` of main.py: the store's update, with an unknown id answered as 500 (wrapping the 404). */
  method UpdateVideoRoute(store: VideoStorage, id: string, u: VideoUpdate) returns (r: Result<Video, RouteError>)
    requires store.Valid()
    modifies store
    ensures store.Valid()
    ensures id !in old(store.videos) ==>
      && r == Err(RouteError(500, NotFound))
      && store.videos == old(store.videos) && store.ids == old(store.ids) && store.saved == old(store.saved)
    ensures id in old(store.videos) ==>
      && r == Ok(ApplyUpdates(old(store.videos)[id], UpdatesOf(u)))
      && store.videos == old(store.videos)[id := r.value] && store.ids == old(store.ids)
      && store.saved == store.AllVideos()
  {
    var updated := store.UpdateVideo(id, UpdatesOf(u));
    if updated.None? {
      return Err(RouteError(500, NotFound));
    }
    r := Ok(updated.value);
  }

  /** `delete_video`: a success message exactly when the id was stored, otherwise 500 wrapping the 404. */
  method DeleteVideoRoute(store: VideoStorage, id: string) returns (r: Result<string, RouteError>)
    requires store.Valid()
    modifies store
    ensures store.Valid()
    ensures r.Ok? <==> id in old(store.videos)
    ensures r.Ok? ==>
      && r.value == "Video deleted successfully"
      && store.videos == old(store.videos) - {id} && store.ids == RemoveOrder(old(store.ids), id)
      && store.saved == store.AllVideos()
    ensures r.Err? ==>
      && r.error == RouteError(500, NotFound)
      && store.videos == old(store.videos) && store.ids == old(store.ids) && store.saved == old(store.saved)
  {
    var removed := store.RemoveVideo(id);
    if removed {
      return Ok("Video deleted successfully");
    }
    return Err(RouteError(500, NotFound));
  }

  // ---------------------------------------------------------------- status of a video during audio generation

  const ProcessingUpdate: seq<(string, Value)> := [("status", Text("processing"))]

  /** The update made when generation ends: completed, or error with the failure's text. */
  function FinalUpdate(failure: Option<string>): seq<(string, Value)> {
    match failure
    case None => [("status", Text("completed"))]
    case Some(message) => [("status", Text("error")), ("error", Text(message))]
  }

  /** A video after a generation run for it: first marked processing, then completed or error. */
  function Generated(v: Video, failure: Option<string>): Video {
    ApplyUpdates(ApplyUpdates(v, ProcessingUpdate), FinalUpdate(failure))
  }

  /**
   * A generation run ends in "completed" without a failure and in "error",
   * with the failure's text, otherwise; no other field changes.
   */
  lemma GeneratedOutcome(v: Video, failure: Option<string>)
    ensures failure.None? ==> Generated(v, failure).status == Text(StatusText(Completed))
    ensures failure.Some? ==> Generated(v, failure).status == Text(StatusText(Failed))
    ensures failure.Some? ==> Generated(v, failure).error == Text(failure.value)
    ensures forall f :: f != StatusField && f != ErrorField ==> Field(Generated(v, failure), f) == Field(v, f)
    ensures failure.None? ==> Generated(v, failure).error == v.error
  {
    var mid := ApplyUpdates(v, ProcessingUpdate);
    assert ProcessingUpdate[..0] == [];
    assert Name(StatusField) == "status" && Name(ErrorField) == "error";
    if failure.Some? {
      assert FinalUpdate(failure)[..1] == [("status", Text("error"))];
      assert FinalUpdate(failure)[..1][..0] == [];
      assert LastSet(FinalUpdate(failure), StatusField) == Some(Text("error"));
      assert LastSet(FinalUpdate(failure), ErrorField) == Some(Text(failure.value));
    } else {
      assert FinalUpdate(failure)[..0] == [];
    }
    forall f ensures Field(Generated(v, failure), f) == LastSet(FinalUpdate(failure), f).GetOr(LastSet(ProcessingUpdate, f).GetOr(Field(v, f))) {
      ApplyUpdatesFields(v, ProcessingUpdate, f);
      ApplyUpdatesFields(mid, FinalUpdate(failure), f);
    }
    forall f | f != StatusField && f != ErrorField ensures Field(Generated(v, failure), f) == Field(v, f) {
      NameInjective(f, StatusField);
      NameInjective(f, ErrorField);
      assert LastSet(ProcessingUpdate, f) == None;
      if failure.Some? {
        assert LastSet(FinalUpdate(failure)[..1], f) == None;
      }
      assert LastSet(FinalUpdate(failure), f) == None;
    }
    assert Field(Generated(v, failure), StatusField) == Generated(v, failure).status;
    assert Field(Generated(v, failure), ErrorField) == Generated(v, failure).error;
  }

  /**
   * The status updates of `generate_audio` of backend/main.py: a run for a
   * stored, non-empty video id marks it processing, then completed or error;
   * any other run leaves the store alone. `failure` is the text of whatever
   * failed during the run, if anything did. The run is taken as one step.
   */
  method GenerateAudioStatus(store: VideoStorage, videoId: string, failure: Option<string>) returns (statuses: seq<Value>)
    requires store.Valid()
    modifies store
    ensures store.Valid()
    ensures (videoId == "" || videoId !in old(store.videos)) ==>
      && store.videos == old(store.videos) && store.ids == old(store.ids) && store.saved == old(store.saved)
      && statuses == []
    ensures videoId != "" && videoId in old(store.videos) ==>
      && store.videos == old(store.videos)[videoId := Generated(old(store.videos)[videoId], failure)]
      && store.ids == old(store.ids) && store.saved == store.AllVideos()
      && statuses == [Text(StatusText(Processing)), store.videos[videoId].status]
  {
    if videoId == "" || store.GetVideo(videoId).None? {
      return [];
    }
    ghost var before := store.videos;
    var marked := store.UpdateVideo(videoId, ProcessingUpdate);
    ApplyUpdatesFields(before[videoId], ProcessingUpdate, StatusField);
    var finished := store.UpdateVideo(videoId, FinalUpdate(failure));
    VideoOverwrite(before, videoId, marked.value, finished.value);
    statuses := [marked.value.status, finished.value.status];
  }

  /** Only the second of two writes to one id survives. */
  lemma VideoOverwrite(m: map<string, Video>, id: string, a: Video, b: Video)
    ensures m[id := a][id := b] == m[id := b]
  {
  }

  // ---------------------------------------------------------------- VideoService

  /** The record `VideoService.create_video` stores. */
  function PendingRecord(id: string, title: string, audioPath: Option<string>, createdAt: string): (r: map<string, Value>)
    ensures r.Keys == {"id", "title", "status", "audio_path", "created_at"}
    ensures r["id"] == Text(id) && r["status"] == Text(StatusText(Pending))
  {
    map["id" := Text(id), "title" := Text(title), "status" := Text("pending"), "audio_path" := OptionalText(audioPath), "created_at" := Text(createdAt)]
  }

  /** VideoService: plain dictionaries keyed by video id. */
  class VideoService {
    var records: map<string, map<string, Value>>

    constructor()
      ensures records == map[]
    {
      records := map[];
    }

    /** `create_video`: a pending record under "VID<milliseconds>"; the clock readings are parameters. */
    method CreateVideo(title: string, audioPath: Option<string>, nowMs: nat, createdAt: string) returns (id: string)
      modifies this
      ensures id == "VID" + NatToString(nowMs)
      ensures records == old(records)[id := PendingRecord(id, title, audioPath, createdAt)]
    {
      id := "VID" + NatToString(nowMs);
      records := records[id := PendingRecord(id, title, audioPath, createdAt)];
    }

    /** `update_video_status`: sets the status of a known video; an unknown id changes nothing. */
    method UpdateVideoStatus(id: string, status: Value)
      modifies this
      ensures id in old(records) ==> records == old(records)[id := old(records)[id]["status" := status]]
      ensures id !in old(records) ==> records == old(records)
    {
      if id in records {
        records := records[id := records[id]["status" := status]];
      }
    }
  }
}
