/**
 * Releases on GitHub, as far as scripts/publish-native-release.py depends on them.
 *
 * `Remote` is the state of the repository's releases with the history of everything that was done to them. `Service`
 * holds what the script cannot choose: how an upload is recorded, how digests are computed, whether publication makes
 * a release immutable. `Job` is one qualified build.
 */
module Releases {
  type Bytes = seq<bv8>

  /** One row of a release's asset list. */
  datatype Asset = Asset(id: int, name: string, uploaded: bool, size: int, digest: string)

  datatype Release = Release(
    id: int, tag: string, name: string, body: string,
    draft: bool, prerelease: bool, immutable: bool, assets: seq<Asset>)

  datatype Event = Created(id: int) | Edited(id: int) | Uploaded(id: int, name: string) | Published(id: int)

  /** `order` is the listing order; `blobs` holds the stored bytes of each asset; `log` everything ever done. */
  datatype Remote = Remote(
    order: seq<int>, store: map<int, Release>, blobs: map<int, Bytes>, nextId: int, log: seq<Event>)

  datatype Service = Service(record: (int, string, Bytes) -> Asset, digest: Bytes -> string, immutable: bool)

  datatype Job = Job(title: string, notes: string, tag: string, expected: map<string, Bytes>)

  // ----- effects -----

  function CreateDraft(s: Remote, job: Job): Remote {
    var id := s.nextId;
    s.(order := s.order + [id],
       store := s.store[id := Release(id, job.tag, job.title, job.notes, true, true, false, [])],
       nextId := id + 1,
       log := s.log + [Created(id)])
  }

  function Edit(s: Remote, id: int, job: Job): Remote
    requires id in s.store
  {
    s.(store := s.store[id := s.store[id].(name := job.title, body := job.notes)], log := s.log + [Edited(id)])
  }

  function Upload(s: Remote, id: int, asset: Asset, content: Bytes): Remote
    requires id in s.store
  {
    s.(store := s.store[id := s.store[id].(assets := s.store[id].assets + [asset])],
       blobs := s.blobs[s.nextId := content],
       nextId := s.nextId + 1,
       log := s.log + [Uploaded(id, asset.name)])
  }

  function MakePublic(service: Service, s: Remote, id: int): Remote
    requires id in s.store
  {
    s.(store := s.store[id := s.store[id].(draft := false, prerelease := true, immutable := service.immutable)],
       log := s.log + [Published(id)])
  }

  // ----- the history accounts for the state -----

  function AssetsNamed(rows: seq<Asset>, name: string): nat {
    if rows == [] then 0 else AssetsNamed(rows[..|rows| - 1], name) + if rows[|rows| - 1].name == name then 1 else 0
  }

  function Uploads(log: seq<Event>, id: int, name: string): nat {
    if log == [] then 0
    else Uploads(log[..|log| - 1], id, name) + if log[|log| - 1] == Uploaded(id, name) then 1 else 0
  }

  function Creations(log: seq<Event>, id: int): nat {
    if log == [] then 0 else Creations(log[..|log| - 1], id) + if log[|log| - 1] == Created(id) then 1 else 0
  }

  ghost predicate Accounted(s: Remote, id: int) {
    if id in s.store then
      Creations(s.log, id) == 1 && forall name :: AssetsNamed(s.store[id].assets, name) == Uploads(s.log, id, name)
    else
      Creations(s.log, id) == 0 && forall name :: Uploads(s.log, id, name) == 0
  }

  predicate Listed(s: Remote) {
    && (forall i :: 0 <= i < |s.order| ==> s.order[i] in s.store)
    && (forall id :: id in s.store ==> id in s.order)
    && (forall i, j :: 0 <= i < j < |s.order| ==> s.order[i] != s.order[j])
  }

  /** What the service keeps: ids are fresh and listed once, and the history says where every asset came from. */
  ghost predicate Valid(s: Remote) {
    && Listed(s) && s.nextId > 0
    && (forall id :: id in s.store ==> s.store[id].id == id && 0 < id < s.nextId)
    && (forall id :: id in s.blobs ==> id < s.nextId)
    && (forall id :: Accounted(s, id))
  }

  lemma Snoc<T>(a: seq<T>, x: T)
    ensures (a + [x])[..|a + [x]| - 1] == a && (a + [x])[|a + [x]| - 1] == x
  {
  }

  lemma CreateKeepsValid(s: Remote, job: Job)
    requires Valid(s)
    ensures Valid(CreateDraft(s, job))
  {
    var s' := CreateDraft(s, job);
    Snoc(s.log, Created(s.nextId));
    forall id ensures Accounted(s', id) {
      assert Accounted(s, id);
      forall name ensures Uploads(s'.log, id, name) == Uploads(s.log, id, name) {
      }
    }
  }

  lemma EditKeepsValid(s: Remote, id: int, job: Job)
    requires Valid(s) && id in s.store
    ensures Valid(Edit(s, id, job))
  {
    var s' := Edit(s, id, job);
    Snoc(s.log, Edited(id));
    forall i ensures Accounted(s', i) {
      assert Accounted(s, i);
      forall name ensures Uploads(s'.log, i, name) == Uploads(s.log, i, name) {
      }
    }
  }

  lemma UploadKeepsValid(s: Remote, id: int, asset: Asset, content: Bytes)
    requires Valid(s) && id in s.store
    ensures Valid(Upload(s, id, asset, content))
  {
    var s' := Upload(s, id, asset, content);
    Snoc(s.log, Uploaded(id, asset.name));
    Snoc(s.store[id].assets, asset);
    forall i ensures Accounted(s', i) {
      assert Accounted(s, i);
      forall name
        ensures Uploads(s'.log, i, name) == Uploads(s.log, i, name) + if i == id && name == asset.name then 1 else 0
      {
      }
    }
  }

  lemma PublishKeepsValid(service: Service, s: Remote, id: int)
    requires Valid(s) && id in s.store
    ensures Valid(MakePublic(service, s, id))
  {
    var s' := MakePublic(service, s, id);
    Snoc(s.log, Published(id));
    forall i ensures Accounted(s', i) {
      assert Accounted(s, i);
      forall name ensures Uploads(s'.log, i, name) == Uploads(s.log, i, name) {
      }
    }
  }

  // ----- what a job accepts -----

  /** A row that is the recorded upload of the job's file of that name. */
  predicate RowFits(service: Service, job: Job, row: Asset) {
    && row.id > 0 && row.name in job.expected && row.uploaded
    && row.size == |job.expected[row.name]| && row.digest == service.digest(job.expected[row.name])
  }

  predicate RowsFit(service: Service, job: Job, rows: seq<Asset>) {
    && (forall i :: 0 <= i < |rows| ==> RowFits(service, job, rows[i]))
    && (forall i, j :: 0 <= i < j < |rows| ==> rows[i].name != rows[j].name && rows[i].id != rows[j].id)
  }

  /** The stored bytes have the size and digest of the job's file. */
  predicate BlobFits(service: Service, job: Job, blobs: map<int, Bytes>, name: string, id: int) {
    && name in job.expected && id in blobs
    && |blobs[id]| == |job.expected[name]| && service.digest(blobs[id]) == service.digest(job.expected[name])
  }

  predicate AssetsFit(service: Service, job: Job, blobs: map<int, Bytes>, rows: seq<Asset>) {
    && RowsFit(service, job, rows)
    && forall i :: 0 <= i < |rows| ==> BlobFits(service, job, blobs, rows[i].name, rows[i].id)
  }

  function Names(rows: seq<Asset>): set<string> {
    if rows == [] then {} else Names(rows[..|rows| - 1]) + {rows[|rows| - 1].name}
  }

  lemma {:induction false} NamesAre(rows: seq<Asset>)
    ensures forall i :: 0 <= i < |rows| ==> rows[i].name in Names(rows)
    ensures forall name :: name in Names(rows) ==> exists i :: 0 <= i < |rows| && rows[i].name == name
  {
    if rows != [] {
      var front := rows[..|rows| - 1];
      NamesAre(front);
      forall i | 0 <= i < |rows| ensures rows[i].name in Names(rows) {
        assert i < |front| ==> front[i] == rows[i];
      }
      forall name | name in Names(rows) ensures exists i :: 0 <= i < |rows| && rows[i].name == name {
        if name in Names(front) {
          var i :| 0 <= i < |front| && front[i].name == name;
          assert rows[i].name == name;
        } else {
          assert rows[|rows| - 1].name == name;
        }
      }
    }
  }

  lemma NamesSnoc(rows: seq<Asset>, row: Asset)
    ensures Names(rows + [row]) == Names(rows) + {row.name}
  {
    Snoc(rows, row);
  }

  predicate Complete(job: Job, rows: seq<Asset>) {
    Names(rows) == job.expected.Keys
  }

  predicate PageFits(job: Job, r: Release) {
    r.name == job.title && r.body == job.notes
  }

  /** A published release that is exactly the job: page, file names, sizes, digests and stored bytes. */
  predicate Qualified(service: Service, job: Job, blobs: map<int, Bytes>, r: Release) {
    && r.tag == job.tag && !r.draft && r.prerelease && PageFits(job, r)
    && AssetsFit(service, job, blobs, r.assets) && Complete(job, r.assets)
  }

  // ----- how attempts may change the repository -----

  /**
   * A release stays as it is, or it is a draft of this tag that keeps its assets and is published only when it
   * qualifies.
   */
  predicate ReleaseEvolves(service: Service, job: Job, blobs: map<int, Bytes>, r: Release, r': Release) {
    r' == r
    || (r.draft && r.tag == job.tag && r'.tag == r.tag && r'.id == r.id && r.assets <= r'.assets
        && (r.prerelease ==> r'.prerelease) && (!r'.draft ==> Qualified(service, job, blobs, r')))
  }

  predicate NewRelease(service: Service, job: Job, blobs: map<int, Bytes>, r: Release) {
    r.tag == job.tag && r.prerelease && (!r.draft ==> Qualified(service, job, blobs, r))
  }

  predicate KeepsBlobs(b: map<int, Bytes>, b': map<int, Bytes>) {
    forall id :: id in b ==> id in b' && b'[id] == b[id]
  }

  predicate Kept(service: Service, job: Job, s: Remote, s': Remote, id: int) {
    id in s.store ==> id in s'.store && ReleaseEvolves(service, job, s'.blobs, s.store[id], s'.store[id])
  }

  predicate Added(service: Service, job: Job, s: Remote, s': Remote, id: int) {
    id in s'.store && id !in s.store ==> NewRelease(service, job, s'.blobs, s'.store[id])
  }

  /**
   * What any number of attempts may do: nothing published or of another tag changes, only what qualifies is published,
   * and everything that is done is logged.
   */
  ghost predicate Evolves(service: Service, job: Job, s: Remote, s': Remote) {
    && (s'.log == s.log ==> s' == s)
    && s.order <= s'.order && s.log <= s'.log && KeepsBlobs(s.blobs, s'.blobs)
    && (forall id :: Kept(service, job, s, s', id))
    && (forall id :: Added(service, job, s, s', id))
  }

  lemma QualifiedMonotone(service: Service, job: Job, b: map<int, Bytes>, b': map<int, Bytes>, r: Release)
    requires KeepsBlobs(b, b') && Qualified(service, job, b, r)
    ensures Qualified(service, job, b', r)
  {
    assert forall i :: 0 <= i < |r.assets| ==> BlobFits(service, job, b, r.assets[i].name, r.assets[i].id);
  }

  lemma PrefixAntisymmetric<T>(a: seq<T>, b: seq<T>, c: seq<T>)
    requires a <= b <= c
    ensures c == a ==> b == a
  {
  }

  lemma EvolvesTransitive(service: Service, job: Job, a: Remote, b: Remote, c: Remote)
    requires Evolves(service, job, a, b) && Evolves(service, job, b, c)
    ensures Evolves(service, job, a, c)
  {
    PrefixAntisymmetric(a.log, b.log, c.log);
    forall id
      ensures Kept(service, job, a, c, id) && Added(service, job, a, c, id)
    {
      assert Kept(service, job, a, b, id) && Kept(service, job, b, c, id);
      assert Added(service, job, a, b, id) && Added(service, job, b, c, id);
      if id in b.store && !b.store[id].draft {
        if Qualified(service, job, b.blobs, b.store[id]) {
          QualifiedMonotone(service, job, b.blobs, c.blobs, b.store[id]);
        }
      }
    }
  }
}
