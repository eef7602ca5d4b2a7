/**
 * The resumable publication of scripts/publish-native-release.py, call by call.
 *
 * Each call to the service may be delivered, dropped before it has an effect, or have its effect while the reply is
 * lost; the script stops at the first call that brings no reply. `faults` is the environment's choice for the calls to
 * come, and an attempt is uninterrupted when it is empty.
 */
module PublishRelease {
  import opened Text
  import opened PageFormat
  import opened Releases
  import opened TagChain
  import Seqs

  const MAX_PAGES := 10
  const PAGE := 100

  datatype Fault = Deliver | Drop | LoseReply

  // ----- finding the release of a tag -----

  /** The whole listing. */
  function All(s: Remote): (rs: seq<Release>)
    requires Listed(s)
    ensures |rs| == |s.order| && forall i :: 0 <= i < |rs| ==> rs[i] == s.store[s.order[i]]
  {
    seq(|s.order|, i requires 0 <= i < |s.order| => s.store[s.order[i]])
  }

  function OfTag(rs: seq<Release>, tag: string): seq<Release> {
    if rs == [] then []
    else OfTag(rs[..|rs| - 1], tag) + if rs[|rs| - 1].tag == tag then [rs[|rs| - 1]] else []
  }

  lemma {:induction false} OfTagAppend(a: seq<Release>, b: seq<Release>, tag: string)
    ensures OfTag(a + b, tag) == OfTag(a, tag) + OfTag(b, tag)
  {
    if b == [] {
      assert a + b == a;
    } else {
      OfTagAppend(a, b[..|b| - 1], tag);
      assert (a + b)[..|a + b| - 1] == a + b[..|b| - 1];
    }
  }

  /** No release of the tag. */
  predicate Absent(s: Remote, tag: string) {
    forall id :: id in s.store ==> s.store[id].tag != tag
  }

  /** `id` is the one release of the tag. */
  predicate Only(s: Remote, tag: string, id: int) {
    id in s.store && s.store[id].tag == tag && forall i :: i in s.store && s.store[i].tag == tag ==> i == id
  }

  predicate Without(rs: seq<Release>, tag: string) {
    forall i :: 0 <= i < |rs| ==> rs[i].tag != tag
  }

  lemma WithoutSnoc(rs: seq<Release>, tag: string)
    requires rs != []
    ensures Without(rs, tag) <==> Without(rs[..|rs| - 1], tag) && rs[|rs| - 1].tag != tag
  {
    assert forall i :: 0 <= i < |rs| - 1 ==> rs[..|rs| - 1][i] == rs[i];
  }

  lemma {:induction false} OfTagNone(rs: seq<Release>, tag: string)
    ensures OfTag(rs, tag) == [] <==> Without(rs, tag)
  {
    if rs != [] {
      OfTagNone(rs[..|rs| - 1], tag);
      WithoutSnoc(rs, tag);
    }
  }

  lemma {:induction false} OfTagOne(rs: seq<Release>, tag: string)
    requires |OfTag(rs, tag)| == 1
    ensures exists i :: 0 <= i < |rs| && rs[i] == OfTag(rs, tag)[0] && rs[i].tag == tag
              && forall j :: 0 <= j < |rs| && rs[j].tag == tag ==> j == i
  {
    var front := rs[..|rs| - 1];
    if rs[|rs| - 1].tag == tag {
      assert OfTag(front, tag) == [];
      OfTagNone(front, tag);
      var i := |rs| - 1;
      assert rs[i].tag == tag;
    } else {
      OfTagOne(front, tag);
      var i :| 0 <= i < |front| && front[i] == OfTag(front, tag)[0] && front[i].tag == tag
               && forall j :: 0 <= j < |front| && front[j].tag == tag ==> j == i;
      assert rs[i] == front[i];
      assert forall j :: 0 <= j < |front| ==> front[j] == rs[j];
    }
  }

  lemma {:induction false} OfTagMany(rs: seq<Release>, tag: string, i: nat)
    requires i < |rs| && rs[i].tag == tag && forall j :: 0 <= j < |rs| && rs[j].tag == tag ==> j == i
    ensures |OfTag(rs, tag)| == 1
  {
    var front := rs[..|rs| - 1];
    if i == |rs| - 1 {
      OfTagNone(front, tag);
    } else {
      OfTagMany(front, tag, i);
    }
  }

  lemma AbsentListed(s: Remote, tag: string)
    requires Valid(s)
    ensures Without(All(s), tag) <==> Absent(s, tag)
  {
    var rs := All(s);
    if Without(rs, tag) {
      forall id | id in s.store ensures s.store[id].tag != tag {
        var i :| 0 <= i < |s.order| && s.order[i] == id;
        assert rs[i] == s.store[id];
      }
    }
    if Absent(s, tag) {
      forall i | 0 <= i < |rs| ensures rs[i].tag != tag {
        assert s.order[i] in s.store;
      }
    }
  }

  /** What the listing says about the tag, said of the store. */
  lemma ListingTells(s: Remote, tag: string)
    requires Valid(s)
    ensures OfTag(All(s), tag) == [] <==> Absent(s, tag)
    ensures |OfTag(All(s), tag)| == 1 ==> Only(s, tag, OfTag(All(s), tag)[0].id)
    ensures forall id :: Only(s, tag, id) ==> |OfTag(All(s), tag)| == 1
  {
    var rs := All(s);
    OfTagNone(rs, tag);
    AbsentListed(s, tag);
    if |OfTag(rs, tag)| == 1 {
      OfTagOne(rs, tag);
      var k :| 0 <= k < |rs| && rs[k] == OfTag(rs, tag)[0] && rs[k].tag == tag
               && forall j :: 0 <= j < |rs| && rs[j].tag == tag ==> j == k;
      forall id | id in s.store && s.store[id].tag == tag ensures id == s.order[k] {
        var i :| 0 <= i < |s.order| && s.order[i] == id;
        assert rs[i] == s.store[id];
      }
    }
    forall id | Only(s, tag, id) ensures |OfTag(rs, tag)| == 1 {
      var k :| 0 <= k < |s.order| && s.order[k] == id;
      assert rs[k] == s.store[id];
      forall j | 0 <= j < |rs| && rs[j].tag == tag ensures j == k {
        assert s.order[j] == id;
      }
      OfTagMany(rs, tag, k);
    }
  }

  lemma SearchTells(s: Remote, tag: string)
    requires Valid(s)
    ensures Absent(s, tag) || (exists id :: Only(s, tag, id)) ==> |OfTag(All(s), tag)| <= 1
  {
    ListingTells(s, tag);
  }

  lemma FoundTells(s: Remote, tag: string, matches: seq<Release>)
    requires Valid(s) && matches == OfTag(All(s), tag) && |matches| <= 1
    ensures if matches == [] then Absent(s, tag) else Only(s, tag, matches[0].id)
  {
    ListingTells(s, tag);
  }

  // ----- what an attempt needs, and what it leaves -----

  /** A draft with this job's uploads so far; a page that was already rendered must be this job's. */
  predicate DraftReady(service: Service, job: Job, blobs: map<int, Bytes>, r: Release) {
    r.draft && AssetsFit(service, job, blobs, r.assets) && (Contains(r.body, MARKER) ==> PageFits(job, r))
  }

  predicate Settled(service: Service, job: Job, blobs: map<int, Bytes>, r: Release) {
    Qualified(service, job, blobs, r) && r.immutable
  }

  /** The row of a file: its own identity, uploaded, with the size and digest of the job's bytes, and so are its own. */
  predicate RowOf(service: Service, job: Job, blobs: map<int, Bytes>, row: Asset) {
    && row.id > 0 && row.uploaded && row.name in job.expected && row.id in blobs
    && var content := job.expected[row.name];
       && row.size == |content| == |blobs[row.id]|
       && row.digest == service.digest(content) == service.digest(blobs[row.id])
  }

  /** One row for each of the job's files, and no other. */
  ghost predicate RowsOf(service: Service, job: Job, blobs: map<int, Bytes>, rows: seq<Asset>) {
    && (forall i :: 0 <= i < |rows| ==> RowOf(service, job, blobs, rows[i]))
    && (forall i, j :: 0 <= i < j < |rows| ==> rows[i].name != rows[j].name && rows[i].id != rows[j].id)
    && (forall name :: name in job.expected ==> exists i :: 0 <= i < |rows| && rows[i].name == name)
  }

  lemma RowsAre(service: Service, job: Job, blobs: map<int, Bytes>, rows: seq<Asset>)
    ensures AssetsFit(service, job, blobs, rows) && Complete(job, rows) <==> RowsOf(service, job, blobs, rows)
  {
    NamesAre(rows);
    if AssetsFit(service, job, blobs, rows) {
      assert forall i :: 0 <= i < |rows| ==>
               RowFits(service, job, rows[i]) && BlobFits(service, job, blobs, rows[i].name, rows[i].id);
    }
    if RowsOf(service, job, blobs, rows) {
      assert forall i :: 0 <= i < |rows| ==> RowOf(service, job, blobs, rows[i]);
      assert Names(rows) == job.expected.Keys;
    }
  }

  /** What a finished release is: its page to the letter, published as an immutable prerelease, with all the files. */
  lemma SettledIs(service: Service, job: Job, blobs: map<int, Bytes>, r: Release)
    ensures Settled(service, job, blobs, r)
       <==> && r.tag == job.tag && r.name == job.title && r.body == job.notes
            && !r.draft && r.prerelease && r.immutable
            && RowsOf(service, job, blobs, r.assets)
  {
    RowsAre(service, job, blobs, r.assets);
  }

  /** An attempt can go on from here: there is no release of the tag, or one that an earlier attempt left behind. */
  ghost predicate Resumable(service: Service, job: Job, s: Remote) {
    Absent(s, job.tag)
    || exists id :: Only(s, job.tag, id)
         && (DraftReady(service, job, s.blobs, s.store[id]) || Settled(service, job, s.blobs, s.store[id]))
  }

  /** `id` is the one release of the tag, published and qualified. */
  predicate Final(service: Service, job: Job, s: Remote, id: int) {
    Only(s, job.tag, id) && Settled(service, job, s.blobs, s.store[id])
  }

  /** The service records an upload as what it is. */
  ghost predicate Honest(service: Service) {
    forall id, name, content ::
      service.record(id, name, content) == Asset(id, name, true, |content|, service.digest(content))
  }

  /** Uploads are recorded truthfully and publication makes a release immutable. */
  ghost predicate Trusted(service: Service) {
    Honest(service) && service.immutable
  }

  predicate HasPublished(s: Remote, tag: string) {
    exists id :: id in s.store && s.store[id].tag == tag && !s.store[id].draft
  }

  /** The listing gains at most one release, and only where the tag had none. */
  predicate ListingGrows(tag: string, s: Remote, s': Remote) {
    s'.order == s.order || (Absent(s, tag) && !Absent(s', tag) && |s'.order| == |s.order| + 1)
  }

  /**
   * What one attempt does, wherever it is stopped. Where it cannot go on it changes nothing; otherwise it leaves a
   * state from which a later attempt can go on; and when it reports success the release is final.
   */
  ghost predicate Attempt(service: Service, job: Job, s: Remote, s': Remote, r: Result<int>) {
    && Valid(s') && Evolves(service, job, s, s') && ListingGrows(job.tag, s, s')
    && (HasPublished(s, job.tag) ==> s' == s)
    && (!Resumable(service, job, s) ==> s' == s && r.Err?)
    && (Trusted(service) && Resumable(service, job, s) ==> Resumable(service, job, s'))
    && (r.Ok? ==> Final(service, job, s', r.value))
  }

  lemma OnlyOneResumable(service: Service, job: Job, s: Remote, id: int)
    requires Only(s, job.tag, id)
    ensures Resumable(service, job, s) <==>
              DraftReady(service, job, s.blobs, s.store[id]) || Settled(service, job, s.blobs, s.store[id])
  {
  }

  // ----- the job and a release's rows -----

  const ASSETS := 9
  const MAX_ASSET_BYTES := 100_000_000

  datatype LocalFile = LocalFile(name: string, regular: bool, content: Bytes)

  predicate Packaged(f: LocalFile) {
    f.regular && 0 < |f.content| <= 100_000_000
  }

  /** The first `n` files by name. */
  predicate Gathered(files: seq<LocalFile>, n: nat, expected: map<string, Bytes>)
    requires n <= |files|
  {
    && |expected| == n
    && (forall j :: 0 <= j < n ==> Packaged(files[j]))
    && (forall j :: 0 <= j < |files| ==> (files[j].name in expected <==> j < n))
    && (forall j :: 0 <= j < n ==> expected[files[j].name] == files[j].content)
  }

  lemma GatherOne(files: seq<LocalFile>, n: nat, expected: map<string, Bytes>)
    requires forall i, j :: 0 <= i < j < |files| ==> files[i].name != files[j].name
    requires n < |files| && Gathered(files, n, expected) && Packaged(files[n])
    ensures Gathered(files, n + 1, expected[files[n].name := files[n].content])
  {
  }

  /** `expected_assets`: exactly nine regular files of bounded size, by name. A directory does not repeat a name. */
  method ExpectedAssets(files: seq<LocalFile>) returns (r: Result<map<string, Bytes>>)
    requires forall i, j :: 0 <= i < j < |files| ==> files[i].name != files[j].name
    ensures r.Ok? <==> |files| == 9 && forall i :: 0 <= i < |files| ==> Packaged(files[i])
    ensures r.Ok? ==> |r.value| == 9
    ensures r.Ok? ==> forall i :: 0 <= i < |files| ==>
              files[i].name in r.value && r.value[files[i].name] == files[i].content
  {
    if |files| != ASSETS || exists i :: 0 <= i < |files| && !files[i].regular {
      return Err("Expected exactly nine regular qualified release assets");
    }
    var expected: map<string, Bytes> := map[];
    for i := 0 to |files|
      invariant Gathered(files, i, expected)
    {
      if !(0 < |files[i].content| <= MAX_ASSET_BYTES) {
        return Err("Qualified release asset exceeds its size bound");
      }
      GatherOne(files, i, expected);
      expected := expected[files[i].name := files[i].content];
    }
    return Ok(expected);
  }

  lemma {:induction false} FewNames(rows: seq<Asset>, all: set<string>)
    requires forall i :: 0 <= i < |rows| ==> rows[i].name in all
    requires forall i, j :: 0 <= i < j < |rows| ==> rows[i].name != rows[j].name
    ensures |rows| <= |all|
  {
    if rows != [] {
      var last := rows[|rows| - 1];
      FewNames(rows[..|rows| - 1], all - {last.name});
    }
  }

  function Identities(rows: seq<Asset>): set<int> {
    set i | 0 <= i < |rows| :: rows[i].id
  }

  /** The map from the rows' names to their identities. */
  predicate Maps(m: map<string, int>, rows: seq<Asset>) {
    m.Keys == Names(rows) && forall i :: 0 <= i < |rows| ==> rows[i].name in m && m[rows[i].name] == rows[i].id
  }

  lemma MapsSnoc(m: map<string, int>, rows: seq<Asset>, i: nat)
    requires i < |rows| && Maps(m, rows[..i]) && rows[i].name !in m
    ensures Maps(m[rows[i].name := rows[i].id], rows[..i + 1])
  {
    var a, b := rows[..i + 1], rows[..i];
    assert a == b + [rows[i]] && a[..|a| - 1] == b;
    assert a[i] == rows[i] && forall j :: 0 <= j < i ==> a[j] == b[j];
  }

  lemma RowsFitSnoc(service: Service, job: Job, rows: seq<Asset>, i: nat)
    requires i < |rows|
    ensures RowsFit(service, job, rows[..i + 1]) <==>
              RowsFit(service, job, rows[..i]) && RowFits(service, job, rows[i])
              && rows[i].name !in Names(rows[..i]) && rows[i].id !in Identities(rows[..i])
    ensures Names(rows[..i + 1]) == Names(rows[..i]) + {rows[i].name}
    ensures Identities(rows[..i + 1]) == Identities(rows[..i]) + {rows[i].id}
    ensures RowsFit(service, job, rows) ==> RowsFit(service, job, rows[..i + 1])
  {
    var a, b := rows[..i + 1], rows[..i];
    assert a == b + [rows[i]] && a[..|a| - 1] == b;
    assert a[i] == rows[i] && forall j :: 0 <= j < i ==> a[j] == b[j];
    NamesAre(b);
  }

  /** `admitted_assets`: the rows are this job's uploads, by name and identity; the result is their map, one to one. */
  method AdmittedAssets(service: Service, job: Job, rows: seq<Asset>, complete: bool)
    returns (r: Result<map<string, int>>)
    ensures r.Ok? <==> RowsFit(service, job, rows) && (complete ==> Complete(job, rows))
    ensures r.Ok? ==> Maps(r.value, rows)
  {
    if |rows| > |job.expected| {
      if RowsFit(service, job, rows) {
        FewNames(rows, job.expected.Keys);
      }
      return Err("Uploaded release asset inventory differs from qualified packages");
    }
    var result: map<string, int>, identities: set<int> := map[], {};
    for i := 0 to |rows|
      invariant RowsFit(service, job, rows[..i])
      invariant Maps(result, rows[..i]) && identities == Identities(rows[..i])
    {
      var row := rows[i];
      RowsFitSnoc(service, job, rows, i);
      if row.id <= 0 || row.name !in job.expected || row.name in result || row.id in identities
         || !row.uploaded || row.size != |job.expected[row.name]|
         || row.digest != service.digest(job.expected[row.name]) {
        return Err("Uploaded release asset differs from qualified packages");
      }
      MapsSnoc(result, rows, i);
      result := result[row.name := row.id];
      identities := identities + {row.id};
    }
    assert rows[..|rows|] == rows;
    if complete && result.Keys != job.expected.Keys {
      return Err("Published release is missing qualified assets");
    }
    return Ok(result);
  }

  /** A draft's page may still be missing; a published release has its page and cannot change any more. */
  predicate PageAccepted(job: Job, r: Release) {
    && ((r.draft && !Contains(r.body, MARKER)) || PageFits(job, r))
    && (r.draft || (r.immutable && r.prerelease))
  }

  /** What the record of an existing release is checked for, before its files are downloaded. */
  method CheckRecord(service: Service, job: Job, release: Release) returns (r: Result<map<string, int>>)
    ensures r.Ok? <==>
              && RowsFit(service, job, release.assets)
              && (release.draft || Complete(job, release.assets))
              && PageAccepted(job, release)
    ensures r.Ok? ==> Maps(r.value, release.assets)
  {
    r := AdmittedAssets(service, job, release.assets, !release.draft);
    if r.Err? {
      return;
    }
    if (!release.draft || Contains(release.body, MARKER)) && !PageFits(job, release) {
      return Err("Release page differs from the qualified rendered notes");
    }
    if !release.draft && !(release.immutable && release.prerelease) {
      return Err("Already published native release must be an immutable prerelease");
    }
  }

  /** The bytes behind every name of the map are those of the job. */
  predicate MapFits(service: Service, job: Job, blobs: map<int, Bytes>, assets: map<string, int>) {
    forall name :: name in assets ==> BlobFits(service, job, blobs, name, assets[name])
  }

  /** Rows that were admitted and whose bytes were checked are this job's assets. */
  lemma CheckedRowsFit(service: Service, job: Job, blobs: map<int, Bytes>, rows: seq<Asset>, assets: map<string, int>)
    requires RowsFit(service, job, rows) && Maps(assets, rows)
    ensures AssetsFit(service, job, blobs, rows) <==> MapFits(service, job, blobs, assets)
    ensures assets.Keys <= job.expected.Keys
  {
    NamesAre(rows);
    if MapFits(service, job, blobs, assets) {
      forall i | 0 <= i < |rows| ensures BlobFits(service, job, blobs, rows[i].name, rows[i].id) {
        assert rows[i].name in assets;
      }
    }
  }

  /** What an existing release is examined for is that it is a draft to go on with, or settled. */
  lemma ExaminedWhen(service: Service, job: Job, blobs: map<int, Bytes>, r: Release)
    requires r.tag == job.tag
    ensures (if r.draft then DraftReady(service, job, blobs, r) else Settled(service, job, blobs, r))
       <==> PageAccepted(job, r) && AssetsFit(service, job, blobs, r.assets) && (r.draft || Complete(job, r.assets))
    ensures DraftReady(service, job, blobs, r) ==> r.draft
    ensures Settled(service, job, blobs, r) ==> !r.draft
  {
  }

  // ----- what the steps of an attempt preserve -----

  /** The state during the part of an attempt that writes: one release of the tag, a draft. */
  ghost predicate Drafted(job: Job, s: Remote, id: int) {
    Valid(s) && Only(s, job.tag, id) && s.store[id].draft
  }

  predicate SamePage(r: Release, r': Release) {
    r'.name == r.name && r'.body == r.body
  }

  /** The release's rows and their bytes are this job's. */
  predicate DraftFits(service: Service, job: Job, s: Remote, id: int) {
    id in s.store && AssetsFit(service, job, s.blobs, s.store[id].assets)
  }

  /** A draft with the job's page and all of its files. */
  predicate DraftWhole(service: Service, job: Job, s: Remote, id: int) {
    DraftFits(service, job, s, id) && PageFits(job, s.store[id]) && Complete(job, s.store[id].assets)
  }

  lemma EvolvesReflexive(service: Service, job: Job, s: Remote)
    ensures Evolves(service, job, s, s)
  {
    forall id ensures Kept(service, job, s, s, id) && Added(service, job, s, s, id) {
    }
  }

  lemma CreateSteps(service: Service, job: Job, s: Remote)
    requires Valid(s) && Absent(s, job.tag)
    ensures var s' := CreateDraft(s, job); Drafted(job, s', s.nextId) && Evolves(service, job, s, s')
    ensures Resumable(service, job, CreateDraft(s, job))
  {
    CreateKeepsValid(s, job);
    var s' := CreateDraft(s, job);
    assert Only(s', job.tag, s.nextId);
    assert DraftReady(service, job, s'.blobs, s'.store[s.nextId]);
    forall id ensures Kept(service, job, s, s', id) && Added(service, job, s, s', id) {
    }
  }

  lemma EditSteps(service: Service, job: Job, s: Remote, id: int)
    requires Drafted(job, s, id)
    ensures var s' := Edit(s, id, job); Drafted(job, s', id) && Evolves(service, job, s, s')
  {
    EditKeepsValid(s, id, job);
    var s' := Edit(s, id, job);
    forall i ensures Kept(service, job, s, s', i) && Added(service, job, s, s', i) {
    }
  }

  lemma UploadSteps(service: Service, job: Job, s: Remote, id: int, asset: Asset, content: Bytes)
    requires Drafted(job, s, id)
    ensures var s' := Upload(s, id, asset, content); Drafted(job, s', id) && Evolves(service, job, s, s')
  {
    UploadKeepsValid(s, id, asset, content);
    assert s.nextId !in s.blobs;
    var s' := Upload(s, id, asset, content);
    forall i ensures Kept(service, job, s, s', i) && Added(service, job, s, s', i) {
    }
  }

  lemma PublishSteps(service: Service, job: Job, s: Remote, id: int)
    requires Drafted(job, s, id) && PageFits(job, s.store[id])
    requires AssetsFit(service, job, s.blobs, s.store[id].assets) && Complete(job, s.store[id].assets)
    ensures var s' := MakePublic(service, s, id);
      && Valid(s') && Only(s', job.tag, id)
      && Evolves(service, job, s, s') && Qualified(service, job, s'.blobs, s'.store[id])
    ensures service.immutable ==> Settled(service, job, s.blobs, MakePublic(service, s, id).store[id])
  {
    PublishKeepsValid(service, s, id);
    var s' := MakePublic(service, s, id);
    forall i ensures Kept(service, job, s, s', i) && Added(service, job, s, s', i) {
    }
  }

  /** What the uploads so far have made of the draft they `start`ed from. */
  ghost predicate Grown(service: Service, job: Job, start: Remote, s: Remote, id: int) {
    && Drafted(job, s, id) && Evolves(service, job, start, s) && s.order == start.order
    && id in start.store && SamePage(start.store[id], s.store[id])
    && (Honest(service) && DraftFits(service, job, start, id) ==> DraftFits(service, job, s, id))
  }

  /** The loop of uploads: when the service is honest, only `pending` is missing. */
  ghost predicate Uploading(service: Service, job: Job, start: Remote, s: Remote, id: int, pending: set<string>) {
    && pending <= job.expected.Keys && Grown(service, job, start, s, id)
    && (Honest(service) && DraftFits(service, job, start, id) ==>
          Names(s.store[id].assets) == job.expected.Keys - pending)
  }

  lemma UploadingStart(service: Service, job: Job, s: Remote, id: int, have: set<string>)
    requires Drafted(job, s, id) && have == Names(s.store[id].assets) && have <= job.expected.Keys
    ensures Uploading(service, job, s, s, id, job.expected.Keys - have)
  {
    EvolvesReflexive(service, job, s);
    assert job.expected.Keys - (job.expected.Keys - have) == have;
  }

  lemma UploadingEnd(service: Service, job: Job, start: Remote, s: Remote, id: int)
    requires Uploading(service, job, start, s, id, {})
    ensures Honest(service) && DraftFits(service, job, start, id) ==> Complete(job, s.store[id].assets)
  {
  }

  lemma FitSnoc(service: Service, job: Job, blobs: map<int, Bytes>, blobs': map<int, Bytes>, rows: seq<Asset>,
                row: Asset)
    requires AssetsFit(service, job, blobs, rows) && row.name !in Names(rows)
    requires row.id !in blobs && KeepsBlobs(blobs, blobs')
    requires RowFits(service, job, row) && BlobFits(service, job, blobs', row.name, row.id)
    ensures AssetsFit(service, job, blobs', rows + [row])
  {
    NamesAre(rows);
    var rows' := rows + [row];
    forall i | 0 <= i < |rows|
      ensures rows'[i] == rows[i] && RowFits(service, job, rows[i]) && rows[i].id != row.id && rows[i].name != row.name
      ensures BlobFits(service, job, blobs', rows[i].name, rows[i].id)
    {
      assert BlobFits(service, job, blobs, rows[i].name, rows[i].id);
    }
    assert rows'[|rows|] == row;
  }

  /** An honest upload of a file that was missing keeps the draft's assets fitting. */
  lemma UploadFits(service: Service, job: Job, s: Remote, id: int, name: string)
    requires Honest(service) && Drafted(job, s, id) && name in job.expected
    requires AssetsFit(service, job, s.blobs, s.store[id].assets) && name !in Names(s.store[id].assets)
    ensures var s' := Upload(s, id, service.record(s.nextId, name, job.expected[name]), job.expected[name]);
      && AssetsFit(service, job, s'.blobs, s'.store[id].assets)
      && Names(s'.store[id].assets) == Names(s.store[id].assets) + {name}
  {
    var rows, row := s.store[id].assets, service.record(s.nextId, name, job.expected[name]);
    NamesSnoc(rows, row);
    FitSnoc(service, job, s.blobs, s.blobs[s.nextId := job.expected[name]], rows, row);
  }

  // ----- pages of the listing -----

  lemma TakeOne<T>(all: set<T>, pending: set<T>, x: T)
    requires pending <= all && x in pending
    ensures (all - pending) + {x} == all - (pending - {x}) && x !in all - pending
  {
  }

  lemma SameMap(a: map<string, int>, b: map<string, int>, rows: seq<Asset>)
    requires Maps(a, rows) && Maps(b, rows)
    ensures a == b
  {
    NamesAre(rows);
  }

  /** `s[from:from + n]`, which stops at the end. */
  function Slice<T>(s: seq<T>, from: nat, n: nat): seq<T> {
    if from >= |s| then [] else if from + n <= |s| then s[from..from + n] else s[from..]
  }

  lemma SliceIsPart<T>(s: seq<T>, from: nat, n: nat)
    requires from <= |s| && n > 0
    ensures var next := Slice(s, from, n);
      && |next| <= n && from + |next| <= |s| && s[..from] + next == s[..from + |next|]
      && (|next| < n ==> from + |next| == |s|)
  {
  }

  lemma SliceNext(all: seq<Release>, done: nat, n: nat, tag: string)
    requires done <= |all| && n > 0
    ensures var next := Slice(all, done, n);
      && |next| <= n && done + |next| <= |all| && (|next| < n ==> done + |next| == |all| && all[..done + |next|] == all)
      && OfTag(all[..done], tag) + OfTag(next, tag) == OfTag(all[..done + |next|], tag)
      && |OfTag(all[..done], tag) + OfTag(next, tag)| <= |OfTag(all, tag)|
  {
    var next := Slice(all, done, n);
    SliceIsPart(all, done, n);
    OfTagAppend(all[..done], next, tag);
    OfTagAppend(all[..done + |next|], all[done + |next|..], tag);
    assert all[..done + |next|] + all[done + |next|..] == all;
  }

  /** The pages before this one were full, and `matches` are the releases of the tag on them. */
  ghost predicate Searched(all: seq<Release>, tag: string, page: nat, matches: seq<Release>) {
    page > 0 && PAGE * (page - 1) <= |all| && Seqs.Same(matches, OfTag(all[..PAGE * (page - 1)], tag))
  }

  lemma SearchStarts(all: seq<Release>, tag: string)
    ensures Searched(all, tag, 1, [])
  {
  }

  // ----- any number of attempts -----

  /** The states between attempts, each stopped anywhere, and what each attempt reported. */
  ghost predicate Run(service: Service, job: Job, states: seq<Remote>, results: seq<Result<int>>) {
    && |states| == |results| + 1
    && forall i :: 0 <= i < |results| ==> Attempt(service, job, states[i], states[i + 1], results[i])
  }

  lemma {:induction false} RunEvolves(service: Service, job: Job, states: seq<Remote>, results: seq<Result<int>>,
                                      i: nat, j: nat)
    requires Run(service, job, states, results) && i <= j < |states|
    ensures Evolves(service, job, states[i], states[j])
  {
    if i == j {
      EvolvesReflexive(service, job, states[i]);
    } else {
      RunEvolves(service, job, states, results, i, j - 1);
      assert Attempt(service, job, states[j - 1], states[j], results[j - 1]);
      EvolvesTransitive(service, job, states[i], states[j - 1], states[j]);
    }
  }

  /**
   * Safety over any run: a release that was published at some point, or has another tag, is the same for ever after;
   * and every release of the tag that is published, and was not at the start, is exactly the job.
   */
  lemma RunIsSafe(service: Service, job: Job, states: seq<Remote>, results: seq<Result<int>>, i: nat, j: nat, id: int)
    requires Run(service, job, states, results) && i <= j < |states|
    ensures id in states[i].store && (!states[i].store[id].draft || states[i].store[id].tag != job.tag) ==>
              id in states[j].store && states[j].store[id] == states[i].store[id]
    ensures (id in states[j].store && !states[j].store[id].draft
             && (id !in states[i].store || states[i].store[id].draft)) ==>
              Qualified(service, job, states[j].blobs, states[j].store[id])
  {
    RunEvolves(service, job, states, results, i, j);
    assert Kept(service, job, states[i], states[j], id) && Added(service, job, states[i], states[j], id);
  }

  lemma {:induction false} RunStaysResumable(service: Service, job: Job, states: seq<Remote>, results: seq<Result<int>>,
                                             i: nat)
    requires Run(service, job, states, results) && i < |states|
    requires Trusted(service) && Valid(states[0]) && Resumable(service, job, states[0])
    ensures Valid(states[i]) && Resumable(service, job, states[i])
  {
    if i > 0 {
      RunStaysResumable(service, job, states, results, i - 1);
      assert Attempt(service, job, states[i - 1], states[i], results[i - 1]);
    }
  }

  lemma {:induction false} NamedOnce(rows: seq<Asset>, name: string)
    requires forall i, j :: 0 <= i < j < |rows| ==> rows[i].name != rows[j].name
    ensures AssetsNamed(rows, name) == if name in Names(rows) then 1 else 0
  {
    if rows != [] {
      var front := rows[..|rows| - 1];
      NamedOnce(front, name);
      NamesAre(front);
    }
  }

  /** A qualified release holds each of its files once, so the history uploaded each of them once. */
  lemma FinalOnce(service: Service, job: Job, s: Remote, id: int)
    requires Valid(s) && Final(service, job, s, id)
    ensures Creations(s.log, id) == 1
    ensures forall name :: Uploads(s.log, id, name) == if name in job.expected then 1 else 0
  {
    assert Accounted(s, id);
    forall name ensures Uploads(s.log, id, name) == if name in job.expected then 1 else 0 {
      NamedOnce(s.store[id].assets, name);
    }
  }

  /** Before a success, no other release of the tag can have been there. */
  lemma OnlyEver(service: Service, job: Job, states: seq<Remote>, results: seq<Result<int>>, k: nat, id: int, j: nat,
                 other: int)
    requires Run(service, job, states, results) && k < |results| && results[k] == Ok(id)
    requires j <= k + 1 && other in states[j].store && states[j].store[other].tag == job.tag
    ensures other == id
  {
    assert Attempt(service, job, states[k], states[k + 1], results[k]);
    RunEvolves(service, job, states, results, j, k + 1);
    assert Kept(service, job, states[j], states[k + 1], other);
  }

  lemma SuccessesAgree(service: Service, job: Job, states: seq<Remote>, results: seq<Result<int>>, a: nat, b: nat)
    requires Run(service, job, states, results) && a <= b < |results| && results[a].Ok? && results[b].Ok?
    ensures results[a].value == results[b].value
  {
    assert Attempt(service, job, states[a], states[a + 1], results[a]);
    OnlyEver(service, job, states, results, b, results[b].value, a + 1, results[a].value);
  }

  /** Once a release of the tag is published, no attempt changes anything. */
  lemma {:induction false} NothingAfterwards(service: Service, job: Job, states: seq<Remote>, results: seq<Result<int>>,
                                             k: nat, j: nat)
    requires Run(service, job, states, results) && k < |results| && results[k].Ok? && k < j < |states|
    ensures states[j] == states[k + 1]
    decreases j
  {
    assert Attempt(service, job, states[k], states[k + 1], results[k]);
    if j > k + 1 {
      NothingAfterwards(service, job, states, results, k, j - 1);
      assert Attempt(service, job, states[j - 1], states[j], results[j - 1]);
      assert !states[k + 1].store[results[k].value].draft;
    }
  }

  /**
   * Once an attempt of a run has succeeded, the tag has one release; over the whole history it was created once, each
   * expected file was uploaded to it once and no other file ever was; and every success, and every state in which the
   * tag had a release at all, names the same release; and nothing changes any more.
   */
  lemma RunEndsOnce(service: Service, job: Job, states: seq<Remote>, results: seq<Result<int>>, k: nat, id: int,
                    name: string)
    requires Run(service, job, states, results) && k < |results| && results[k] == Ok(id)
    ensures var s := states[k + 1];
      && Final(service, job, s, id) && Creations(s.log, id) == 1
      && Uploads(s.log, id, name) == (if name in job.expected then 1 else 0)
    ensures forall j, other :: 0 <= j <= k + 1 && other in states[j].store && states[j].store[other].tag == job.tag ==>
              other == id
    ensures forall j :: 0 <= j < |results| && results[j].Ok? ==> results[j].value == id
    ensures forall j :: k < j < |states| ==> states[j] == states[k + 1]
  {
    var s := states[k + 1];
    assert Attempt(service, job, states[k], s, results[k]);
    FinalOnce(service, job, s, id);
    forall j, other | 0 <= j <= k + 1 && other in states[j].store && states[j].store[other].tag == job.tag
      ensures other == id
    {
      OnlyEver(service, job, states, results, k, id, j, other);
    }
    forall j | 0 <= j < |results| && results[j].Ok? ensures results[j].value == id {
      SuccessesAgree(service, job, states, results, if j <= k then j else k, if j <= k then k else j);
    }
    forall j | k < j < |states| ensures states[j] == states[k + 1] {
      NothingAfterwards(service, job, states, results, k, j);
    }
  }

  /** The listing, counting the release that the tag may still get. */
  function Load(tag: string, s: Remote): nat {
    |s.order| + (if Absent(s, tag) then 1 else 0)
  }

  lemma LoadNeverGrows(service: Service, job: Job, s: Remote, s': Remote, r: Result<int>)
    requires Attempt(service, job, s, s', r)
    ensures Load(job.tag, s') <= Load(job.tag, s)
  {
    if !Absent(s, job.tag) {
      var id :| id in s.store && s.store[id].tag == job.tag;
      assert Kept(service, job, s, s', id);
    }
  }

  // ----- what an attempt saw of the tag, and what it did -----

  /** What the tag names refer to, and the annotated tags, when they are read. */
  datatype View = View(refs: map<string, Target>, tags: map<string, Target>)

  ghost predicate Leads(v: View, tag: string, sha: string) {
    tag in v.refs && Resolves(v.tags, v.refs[tag], sha)
  }

  /** A step of an attempt: the tag was read, or an effect happened. */
  datatype Step = Read(view: View) | Did(event: Event)

  /** The tag and the commit of an attempt, and the history of the releases when it began. */
  datatype Course = Course(tag: string, sha: string, base: seq<Event>)

  function Effects(steps: seq<Step>): seq<Event> {
    if steps == [] then []
    else
      Effects(steps[..|steps| - 1]) + (match steps[|steps| - 1] case Read(_) => [] case Did(e) => [e])
  }

  /** When the tag was read last, it led to the commit. */
  ghost predicate Holding(c: Course, steps: seq<Step>) {
    steps != [] &&
    match steps[|steps| - 1]
    case Read(v) => Leads(v, c.tag, c.sha)
    case Did(_) => Holding(c, steps[..|steps| - 1])
  }

  /** Making a release and publishing one come right after a reading. */
  predicate Urgent(e: Event) {
    e.Created? || e.Published?
  }

  predicate JustRead(steps: seq<Step>) {
    steps != [] && steps[|steps| - 1].Read?
  }

  /** The first step is a reading, and every other step is made only while the last reading led to the commit. */
  ghost predicate Guarded(c: Course, steps: seq<Step>) {
    steps == [] ||
    var front, last := steps[..|steps| - 1], steps[|steps| - 1];
    && Guarded(c, front)
    && (if front == [] then last.Read? else Holding(c, front))
    && (last.Did? && Urgent(last.event) ==> JustRead(front))
  }

  /** The steps are guarded, and they are all that was added to the history. */
  ghost predicate OnCourse(c: Course, log: seq<Event>, steps: seq<Step>) {
    Guarded(c, steps) && log == c.base + Effects(steps)
  }

  lemma ReadStep(c: Course, log: seq<Event>, steps: seq<Step>, v: View)
    requires OnCourse(c, log, steps) && (steps == [] || Holding(c, steps))
    ensures OnCourse(c, log, steps + [Read(v)]) && JustRead(steps + [Read(v)])
    ensures Holding(c, steps + [Read(v)]) <==> Leads(v, c.tag, c.sha)
  {
    Snoc(steps, Read(v));
    assert Effects(steps) + [] == Effects(steps);
  }

  lemma DidStep(c: Course, log: seq<Event>, steps: seq<Step>, e: Event)
    requires OnCourse(c, log, steps) && Holding(c, steps) && (Urgent(e) ==> JustRead(steps))
    ensures OnCourse(c, log + [e], steps + [Did(e)]) && Holding(c, steps + [Did(e)])
  {
    Snoc(steps, Did(e));
    assert (c.base + Effects(steps)) + [e] == c.base + (Effects(steps) + [e]);
  }

  lemma {:induction false} GuardedAt(c: Course, steps: seq<Step>, k: nat)
    requires Guarded(c, steps) && k < |steps|
    ensures k == 0 ==> steps[k].Read?
    ensures k > 0 ==> Holding(c, steps[..k])
    ensures steps[k].Did? && Urgent(steps[k].event) ==> k > 0 && steps[k - 1].Read?
  {
    if k == |steps| - 1 {
      assert steps[..k] == steps[..|steps| - 1];
    } else {
      GuardedAt(c, steps[..|steps| - 1], k);
      assert steps[..|steps| - 1][..k] == steps[..k];
    }
  }

  lemma {:induction false} NoEffects(steps: seq<Step>)
    requires forall k :: 0 <= k < |steps| ==> steps[k].Read?
    ensures Effects(steps) == []
  {
    if steps != [] {
      NoEffects(steps[..|steps| - 1]);
    }
  }

  /**
   * What the readings of the tag guarantee. A release is made, and one is published, only right after a reading that
   * led to the commit; every effect comes after such a reading, with no other reading in between; and if the first
   * reading does not lead to the commit nothing is done at all.
   */
  lemma ReadingsGuard(c: Course, log: seq<Event>, steps: seq<Step>, k: nat)
    requires OnCourse(c, log, steps) && k < |steps|
    ensures steps[k].Did? ==> k > 0 && Holding(c, steps[..k])
    ensures steps[k].Did? && Urgent(steps[k].event) ==> steps[k - 1].Read? && Leads(steps[k - 1].view, c.tag, c.sha)
    ensures steps[0].Read?
    ensures !Leads(steps[0].view, c.tag, c.sha) ==> |steps| == 1 && log == c.base
  {
    GuardedAt(c, steps, 0);
    GuardedAt(c, steps, k);
    if k > 0 {
      assert steps[..k][|steps[..k]| - 1] == steps[k - 1];
    }
    if |steps| > 1 {
      GuardedAt(c, steps, 1);
      assert steps[..1] == [steps[0]];
    } else {
      NoEffects(steps);
      Seqs.Empty(c.base);
    }
  }

  lemma CourseStarts(c: Course, log: seq<Event>)
    requires log == c.base
    ensures OnCourse(c, log, [])
  {
    Seqs.Empty(log);
  }

  /** What the first reading decides about the releases. */
  lemma FirstReading(service: Service, job: Job, s: Remote, s': Remote, c: Course, steps: seq<Step>)
    requires OnCourse(c, s'.log, steps) && c.base == s.log && Evolves(service, job, s, s')
    ensures steps != [] ==> steps[0].Read? && (!Leads(steps[0].view, c.tag, c.sha) ==> s' == s)
    ensures steps == [] ==> s' == s
  {
    if steps == [] {
      Seqs.Empty(c.base);
    } else {
      ReadingsGuard(c, s'.log, steps, 0);
    }
  }

  // ----- calls that are delivered -----

  /** The next `n` calls are delivered. */
  predicate Calm(faults: seq<Fault>, n: nat) {
    n <= |faults| && forall i :: 0 <= i < n ==> faults[i] == Deliver
  }

  /** What is left of the faults after `n` calls. */
  predicate Left(faults: seq<Fault>, n: nat, left: seq<Fault>) {
    n <= |faults| && left == faults[n..]
  }

  /** How many pages of the listing are read. */
  function Pages(listed: nat): nat {
    listed / PAGE + 1
  }

  /** A search before its `page`th page: if the calls for its pages are delivered, it has made those for the others. */
  predicate Undisturbed(given: seq<Fault>, page: nat, left: seq<Fault>, listed: nat) {
    page > 0 && (Calm(given, Pages(listed)) ==> Left(given, page - 1, left))
  }

  lemma UndisturbedStart(given: seq<Fault>, listed: nat)
    ensures Undisturbed(given, 1, given, listed)
  {
    Seqs.Whole(given);
  }

  lemma UndisturbedNext(given: seq<Fault>, page: nat, left: seq<Fault>, listed: nat)
    requires Undisturbed(given, page, left, listed) && PAGE * (page - 1) <= listed
    ensures Calm(given, Pages(listed)) ==> left != [] && left[0] == Deliver
    ensures left != [] ==> Undisturbed(given, page + 1, left[1..], listed)
    ensures left == [] ==> Undisturbed(given, page + 1, left, listed)
  {
    if Calm(given, Pages(listed)) {
      Seqs.Tail(given, page - 1);
    }
  }

  /** After a search: if the calls for its pages were delivered, it has made those and no other. */
  predicate Finished(given: seq<Fault>, left: seq<Fault>, listed: nat) {
    Calm(given, Pages(listed)) ==> left == given[Pages(listed)..]
  }

  lemma UndisturbedEnd(given: seq<Fault>, page: nat, left: seq<Fault>, listed: nat)
    requires Undisturbed(given, page + 1, left, listed) && PAGE * (page - 1) <= listed < PAGE * page
    ensures Finished(given, left, listed)
  {
  }

  /** An attempt that finds no release, and is stopped by the lost reply to its creation of one. */
  function CreationLost(listed: nat): seq<Fault> {
    [Deliver] + (seq(Pages(listed), _ => Deliver) + [Deliver, LoseReply])
  }

  lemma CreationLostParts(listed: nat)
    ensures var faults := CreationLost(listed);
            && faults != [] && faults[0] == Deliver
            && Calm(faults[1..], Pages(listed))
            && faults[1..][Pages(listed)..] == [Deliver, LoseReply]
  {
    var calm := seq(Pages(listed), _ => Deliver);
    Seqs.Cons(Deliver, calm + [Deliver, LoseReply], []);
    Seqs.Concatenation(calm, [Deliver, LoseReply]);
  }

  /** One page more of a search. */
  lemma SearchedNext(all: seq<Release>, tag: string, page: nat, matches: seq<Release>, records: seq<Release>)
    requires Searched(all, tag, page, matches) && Seqs.Same(records, Slice(all, PAGE * (page - 1), PAGE))
    ensures |records| < PAGE ==>
              PAGE * (page - 1) <= |all| < PAGE * page && matches + OfTag(records, tag) == OfTag(all, tag)
    ensures |records| >= PAGE ==>
              |all| >= PAGE * page && Searched(all, tag, page + 1, matches + OfTag(records, tag))
    ensures |matches + OfTag(records, tag)| <= |OfTag(all, tag)|
  {
    SliceNext(all, PAGE * (page - 1), PAGE, tag);
  }

  lemma PageBound(listed: nat, page: nat)
    requires page <= MAX_PAGES && listed < PAGE * page
    ensures listed < 1000
  {
  }

  lemma SearchedAll(all: seq<Release>, tag: string, page: nat, matches: seq<Release>)
    requires page > MAX_PAGES && Searched(all, tag, page, matches)
    ensures |all| >= 1000
  {
  }

  // ----- the calls and the script -----

  /** What happens to the calls of an attempt, and how the tag moves before its readings. */
  datatype Interruption = Interruption(faults: seq<Fault>, views: seq<View>)

  /** The repository as the script reaches it through `gh`. The environment moves tags between readings of them. */
  class GitHub {
    const service: Service
    var remote: Remote
    var faults: seq<Fault>
    /** How the environment moves the tags before the readings to come, and what was read last. */
    var views: seq<View>
    var view: View
    /** The steps of the attempt. */
    ghost var steps: seq<Step>

    constructor (service: Service, view: View, remote: Remote)
      ensures this.service == service && this.view == view && this.remote == remote
      ensures faults == [] && views == [] && steps == []
    {
      this.service, this.view, this.remote := service, view, remote;
      faults, views, steps := [], [], [];
    }

    /** What happens to the next call. */
    method Next() returns (f: Fault)
      modifies this`faults
      ensures old(faults) == [] ==> f == Deliver && faults == []
      ensures old(faults) != [] ==> f == old(faults)[0] && faults == old(faults)[1..]
    {
      if faults == [] {
        return Deliver;
      }
      f := faults[0];
      faults := faults[1..];
    }

    /**
     * `require_tag`. The tag is read as the environment has it by then; each read may fail, none has an effect.
     */
    method RequireTag(tag: string, sha: string, ghost c: Course) returns (ok: bool)
      requires c.tag == tag && c.sha == sha
      requires OnCourse(c, remote.log, steps) && (steps == [] || Holding(c, steps))
      modifies this`faults, this`views, this`view, this`steps
      ensures OnCourse(c, remote.log, steps)
      ensures ok ==> Holding(c, steps) && JustRead(steps) && Leads(view, tag, sha)
      ensures old(views) == [] ==> views == [] && view == old(view)
      ensures ok && old(views) != [] ==> view == old(views)[0] && views == old(views)[1..]
      ensures old(faults) == [] ==> faults == []
      ensures old(faults) != [] ==> faults == old(faults)[1..]
      ensures (old(faults) == [] || old(faults)[0] == Deliver) && old(views) == [] && Leads(view, tag, sha) ==> ok
    {
      var f := Next();
      if f != Deliver {
        return false;
      }
      if views != [] {
        view, views := views[0], views[1..];
      }
      ReadStep(c, remote.log, steps, view);
      steps := steps + [Read(view)];
      if tag !in view.refs {
        return false;
      }
      ok := Follow(view.tags, view.refs[tag], sha);
    }

    /** One page of the listing, pages counted from 1. */
    method Page(page: nat) returns (r: Result<seq<Release>>)
      requires Listed(remote) && page > 0
      modifies this`faults
      ensures r.Ok? ==> r.value == Slice(All(remote), PAGE * (page - 1), PAGE)
      ensures old(faults) == [] ==> r.Ok? && faults == []
      ensures old(faults) != [] ==> faults == old(faults)[1..] && (old(faults)[0] == Deliver ==> r.Ok?)
    {
      var f := Next();
      if f != Deliver {
        return Err("GitHub operation failed");
      }
      return Ok(Slice(All(remote), PAGE * (page - 1), PAGE));
    }

    /** One page more: the matches so far, and whether the page was the last one. */
    method NextPage(tag: string, page: nat, matches: seq<Release>, ghost given: seq<Fault>)
      returns (r: Result<(seq<Release>, bool)>)
      requires Valid(remote) && page > 0 && Searched(All(remote), tag, page, matches)
      requires Undisturbed(given, page, faults, |remote.order|)
      modifies this`faults
      ensures r.Ok? && r.value.1 ==> |remote.order| < PAGE * page && r.value.0 == OfTag(All(remote), tag)
      ensures r.Ok? && r.value.1 ==> Finished(given, faults, |remote.order|)
      ensures r.Ok? && !r.value.1 ==> |remote.order| >= PAGE * page && Searched(All(remote), tag, page + 1, r.value.0)
      ensures r.Ok? && !r.value.1 ==> Undisturbed(given, page + 1, faults, |remote.order|)
      ensures r.Ok? ==> |r.value.0| <= 1
      ensures old(faults) == [] ==> faults == []
      ensures (old(faults) == [] || Calm(given, Pages(|remote.order|))) && |OfTag(All(remote), tag)| <= 1 ==> r.Ok?
    {
      ghost var all := All(remote);
      UndisturbedNext(given, page, faults, |all|);
      var records := Page(page);
      if records.Err? {
        return Err(records.message);
      }
      SearchedNext(all, tag, page, matches, records.value);
      var found := matches + OfTag(records.value, tag);
      if |found| > 1 {
        return Err("Ambiguous release tag inventory");
      }
      var last := |records.value| < PAGE;
      if last {
        UndisturbedEnd(given, page, faults, |all|);
      }
      return Ok((found, last));
    }

    /** The releases of the tag over at most ten pages; a full tenth page is an error. */
    method Search(tag: string) returns (r: Result<seq<Release>>)
      requires Valid(remote)
      modifies this`faults
      ensures r.Ok? ==> |remote.order| < 1000 && r.value == OfTag(All(remote), tag) && |r.value| <= 1
      ensures old(faults) == [] ==> faults == []
      ensures r.Ok? ==> Finished(old(faults), faults, |remote.order|)
      ensures ((old(faults) == [] || Calm(old(faults), Pages(|remote.order|)))
               && |remote.order| < 1000 && |OfTag(All(remote), tag)| <= 1) ==> r.Ok?
    {
      ghost var given, all := faults, All(remote);
      UndisturbedStart(given, |all|);
      SearchStarts(all, tag);
      var matches: seq<Release>, page := [], 1;
      while page <= MAX_PAGES
        invariant 1 <= page <= MAX_PAGES + 1 && Searched(all, tag, page, matches)
        invariant Undisturbed(given, page, faults, |all|)
        invariant given == [] ==> faults == []
      {
        var next := NextPage(tag, page, matches, given);
        if next.Err? {
          return Err(next.message);
        }
        matches := next.value.0;
        if next.value.1 {
          PageBound(|all|, page);
          return Ok(matches);
        }
        page := page + 1;
      }
      SearchedAll(all, tag, page, matches);
      return Err("Release inventory exceeds the bounded search; no release was changed");
    }

    /** `find_release`: the release of the tag, from a listing of at most ten pages that is not full. */
    method FindRelease(tag: string) returns (r: Result<Option<Release>>)
      requires Valid(remote)
      modifies this`faults
      ensures r.Ok? ==> |remote.order| < 1000
      ensures r.Ok? && r.value.None? ==> Absent(remote, tag)
      ensures r.Ok? && r.value.Some? ==> Only(remote, tag, r.value.value.id)
      ensures (old(faults) == [] && |remote.order| < 1000
               && (Absent(remote, tag) || exists id :: Only(remote, tag, id))) ==> r.Ok?
      ensures old(faults) == [] ==> faults == []
      ensures (Calm(old(faults), Pages(|remote.order|)) && |remote.order| < 1000
               && (Absent(remote, tag) || exists id :: Only(remote, tag, id))) ==>
                r.Ok? && faults == old(faults)[Pages(|remote.order|)..]
    {
      SearchTells(remote, tag);
      var found := Search(tag);
      if found.Err? {
        return Err(found.message);
      }
      FoundTells(remote, tag, found.value);
      return Ok(if found.value == [] then None else Some(found.value[0]));
    }

    method ReadRelease(id: int) returns (r: Result<Release>)
      modifies this`faults
      ensures r.Ok? ==> id in remote.store && r.value == remote.store[id]
      ensures old(faults) == [] ==> faults == [] && (id in remote.store ==> r.Ok?)
    {
      var f := Next();
      if f != Deliver || id !in remote.store {
        return Err("GitHub operation failed");
      }
      return Ok(remote.store[id]);
    }

    /** `verify_downloads`: every asset of the map is downloaded and compared. The order does not matter. */
    method VerifyDownloads(job: Job, assets: map<string, int>) returns (ok: bool)
      requires assets.Keys <= job.expected.Keys
      modifies this`faults
      ensures ok ==> MapFits(service, job, remote.blobs, assets)
      ensures old(faults) == [] ==> faults == [] && (MapFits(service, job, remote.blobs, assets) ==> ok)
    {
      var pending := assets.Keys;
      while pending != {}
        invariant pending <= assets.Keys
        invariant forall name :: name in assets.Keys - pending ==>
                    BlobFits(service, job, remote.blobs, name, assets[name])
        invariant old(faults) == [] ==> faults == []
        decreases |pending|
      {
        var name :| name in pending;
        var f := Next();
        if f != Deliver || !BlobFits(service, job, remote.blobs, name, assets[name]) {
          return false;
        }
        pending := pending - {name};
      }
      return true;
    }

    /** The effects. Each one may happen without a reply. */
    method Create(job: Job, ghost c: Course) returns (r: Result<Release>)
      requires OnCourse(c, remote.log, steps) && Holding(c, steps) && JustRead(steps)
      modifies this`remote, this`faults, this`steps
      ensures OnCourse(c, remote.log, steps) && Holding(c, steps)
      ensures remote == old(remote) || remote == CreateDraft(old(remote), job)
      ensures r.Ok? ==> remote == CreateDraft(old(remote), job) && r.value == remote.store[old(remote).nextId]
      ensures old(faults) == [] ==> faults == [] && r.Ok?
      ensures old(faults) == [LoseReply] ==> r.Err? && remote == CreateDraft(old(remote), job)
    {
      var f := Next();
      if f == Drop {
        return Err("GitHub operation failed");
      }
      var id := remote.nextId;
      DidStep(c, remote.log, steps, Created(id));
      remote, steps := CreateDraft(remote, job), steps + [Did(Created(id))];
      return if f == Deliver then Ok(remote.store[id]) else Err("GitHub operation failed");
    }

    method PatchPage(job: Job, id: int, ghost c: Course) returns (ok: bool)
      requires OnCourse(c, remote.log, steps) && Holding(c, steps) && id in remote.store
      modifies this`remote, this`faults, this`steps
      ensures OnCourse(c, remote.log, steps) && Holding(c, steps)
      ensures remote == old(remote) || remote == Edit(old(remote), id, job)
      ensures ok ==> remote == Edit(old(remote), id, job)
      ensures old(faults) == [] ==> faults == [] && ok
    {
      var f := Next();
      if f == Drop {
        return false;
      }
      DidStep(c, remote.log, steps, Edited(id));
      remote, steps := Edit(remote, id, job), steps + [Did(Edited(id))];
      return f == Deliver;
    }

    method UploadAsset(id: int, name: string, content: Bytes, ghost c: Course) returns (ok: bool)
      requires OnCourse(c, remote.log, steps) && Holding(c, steps) && id in remote.store
      modifies this`remote, this`faults, this`steps
      ensures OnCourse(c, remote.log, steps) && Holding(c, steps)
      ensures var s := old(remote); var s' := Upload(s, id, service.record(s.nextId, name, content), content);
        (remote == s || remote == s') && (ok ==> remote == s')
      ensures old(faults) == [] ==> faults == [] && ok
    {
      var f := Next();
      if f == Drop {
        return false;
      }
      var row := service.record(remote.nextId, name, content);
      DidStep(c, remote.log, steps, Uploaded(id, row.name));
      remote, steps := Upload(remote, id, row, content), steps + [Did(Uploaded(id, row.name))];
      return f == Deliver;
    }

    method PatchPublic(id: int, ghost c: Course) returns (ok: bool)
      requires OnCourse(c, remote.log, steps) && Holding(c, steps) && JustRead(steps) && id in remote.store
      modifies this`remote, this`faults, this`steps
      ensures OnCourse(c, remote.log, steps) && Holding(c, steps)
      ensures remote == old(remote) || remote == MakePublic(service, old(remote), id)
      ensures ok ==> remote == MakePublic(service, old(remote), id)
      ensures old(faults) == [] ==> faults == [] && ok
    {
      var f := Next();
      if f == Drop {
        return false;
      }
      DidStep(c, remote.log, steps, Published(id));
      remote, steps := MakePublic(service, remote, id), steps + [Did(Published(id))];
      return f == Deliver;
    }

    method UploadOne(job: Job, id: int, name: string, ghost c: Course) returns (ok: bool)
      requires OnCourse(c, remote.log, steps) && Holding(c, steps)
      requires Drafted(job, remote, id) && name in job.expected
      modifies this`remote, this`faults, this`steps
      ensures OnCourse(c, remote.log, steps) && Holding(c, steps)
      ensures Drafted(job, remote, id) && Evolves(service, job, old(remote), remote)
      ensures SamePage(old(remote.store[id]), remote.store[id]) && remote.order == old(remote.order)
      ensures (Honest(service) && DraftFits(service, job, old(remote), id)
               && name !in Names(old(remote.store[id].assets))) ==>
                && DraftFits(service, job, remote, id)
                && (ok ==> Names(remote.store[id].assets) == Names(old(remote.store[id].assets)) + {name})
      ensures old(faults) == [] ==> ok && faults == []
    {
      var row := service.record(remote.nextId, name, job.expected[name]);
      UploadSteps(service, job, remote, id, row, job.expected[name]);
      EvolvesReflexive(service, job, remote);
      if Honest(service) && DraftFits(service, job, remote, id) && name !in Names(remote.store[id].assets) {
        UploadFits(service, job, remote, id, name);
      }
      ok := UploadAsset(id, name, job.expected[name], c);
    }

    method UploadNext(job: Job, id: int, name: string, ghost start: Remote, ghost pending: set<string>, ghost c: Course)
      returns (ok: bool)
      requires OnCourse(c, remote.log, steps) && Holding(c, steps)
      requires Uploading(service, job, start, remote, id, pending) && name in pending
      modifies this`remote, this`faults, this`steps
      ensures OnCourse(c, remote.log, steps) && Holding(c, steps)
      ensures Grown(service, job, start, remote, id)
      ensures ok ==> Uploading(service, job, start, remote, id, pending - {name})
      ensures old(faults) == [] ==> ok && faults == []
    {
      ghost var before := remote;
      TakeOne(job.expected.Keys, pending, name);
      ok := UploadOne(job, id, name, c);
      EvolvesTransitive(service, job, start, before, remote);
    }

    method UploadAll(job: Job, id: int, missing: set<string>, ghost start: Remote, ghost c: Course) returns (ok: bool)
      requires OnCourse(c, remote.log, steps) && Holding(c, steps)
      requires Uploading(service, job, start, remote, id, missing)
      modifies this`remote, this`faults, this`steps
      ensures OnCourse(c, remote.log, steps) && Holding(c, steps)
      ensures Grown(service, job, start, remote, id)
      ensures ok ==> Uploading(service, job, start, remote, id, {})
      ensures old(faults) == [] ==> ok && faults == []
    {
      var pending := missing;
      while pending != {}
        invariant Uploading(service, job, start, remote, id, pending)
        invariant OnCourse(c, remote.log, steps) && Holding(c, steps)
        invariant old(faults) == [] ==> faults == []
        decreases |pending|
      {
        var name :| name in pending;
        ok := UploadNext(job, id, name, start, pending, c);
        if !ok {
          return;
        }
        pending := pending - {name};
      }
      ok := true;
    }

    /** The upload loop: each expected file that the draft did not have is uploaded once. The order does not matter. */
    method UploadMissing(job: Job, id: int, assets: map<string, int>, ghost c: Course) returns (ok: bool)
      requires OnCourse(c, remote.log, steps) && Holding(c, steps)
      requires Drafted(job, remote, id)
      requires assets.Keys == Names(remote.store[id].assets) && assets.Keys <= job.expected.Keys
      modifies this`remote, this`faults, this`steps
      ensures OnCourse(c, remote.log, steps) && Holding(c, steps)
      ensures Grown(service, job, old(remote), remote, id)
      ensures ok && Honest(service) && DraftFits(service, job, old(remote), id) ==>
                Complete(job, remote.store[id].assets)
      ensures old(faults) == [] ==> ok && faults == []
    {
      var pending := job.expected.Keys - assets.Keys;
      UploadingStart(service, job, remote, id, assets.Keys);
      ok := UploadAll(job, id, pending, remote, c);
      if ok {
        UploadingEnd(service, job, old(remote), remote, id);
      }
    }

    /** The page, the rows and the bytes of the complete draft. */
    method CheckUploads(job: Job, id: int) returns (r: Result<map<string, int>>)
      requires Drafted(job, remote, id)
      modifies this`faults
      ensures r.Ok? ==> DraftWhole(service, job, remote, id)
      ensures r.Ok? ==> Maps(r.value, remote.store[id].assets)
      ensures old(faults) == [] && DraftWhole(service, job, remote, id) ==> r.Ok?
      ensures old(faults) == [] ==> faults == []
    {
      var release := ReadRelease(id);
      if release.Err? {
        return Err(release.message);
      }
      if !release.value.draft || !PageFits(job, release.value) {
        return Err("Draft page differs from the qualified rendered notes");
      }
      r := AdmittedAssets(service, job, release.value.assets, true);
      if r.Err? {
        return;
      }
      CheckedRowsFit(service, job, remote.blobs, release.value.assets, r.value);
      var ok := VerifyDownloads(job, r.value);
      if !ok {
        return Err("Downloaded release asset differs from qualified bytes");
      }
    }

    /** Everything that is checked on the complete draft before it is published, the tag last. */
    method CheckDraft(job: Job, sha: string, id: int, ghost c: Course) returns (r: Result<map<string, int>>)
      requires c.tag == job.tag && c.sha == sha
      requires OnCourse(c, remote.log, steps) && Holding(c, steps)
      requires Drafted(job, remote, id)
      modifies this`faults, this`views, this`view, this`steps
      ensures OnCourse(c, remote.log, steps)
      ensures r.Ok? ==> DraftWhole(service, job, remote, id)
      ensures r.Ok? ==> Maps(r.value, remote.store[id].assets) && Holding(c, steps) && JustRead(steps)
      ensures (old(faults) == [] && old(views) == [] && DraftWhole(service, job, remote, id)
               && Leads(old(view), job.tag, sha)) ==> r.Ok?
      ensures old(faults) == [] ==> faults == []
    {
      r := CheckUploads(job, id);
      if r.Err? {
        return;
      }
      var ok := RequireTag(job.tag, sha, c);
      if !ok {
        return Err("Remote release tag moved from the qualified source");
      }
    }

    /** Publication, and the checks on what was published. */
    method PublishDraft(job: Job, id: int, uploaded: map<string, int>, ghost c: Course) returns (r: Result<int>)
      requires OnCourse(c, remote.log, steps) && Holding(c, steps) && JustRead(steps)
      requires Drafted(job, remote, id) && DraftWhole(service, job, remote, id)
      requires Maps(uploaded, remote.store[id].assets)
      modifies this`remote, this`faults, this`steps
      ensures OnCourse(c, remote.log, steps) && Holding(c, steps)
      ensures remote.order == old(remote.order)
      ensures Valid(remote) && Evolves(service, job, old(remote), remote)
      ensures remote == old(remote)
              || (Only(remote, job.tag, id) && Qualified(service, job, remote.blobs, remote.store[id])
                  && (service.immutable ==> remote.store[id].immutable))
      ensures r.Ok? ==> r.value == id && Final(service, job, remote, id)
      ensures old(faults) == [] && service.immutable ==> r.Ok?
    {
      PublishSteps(service, job, remote, id);
      EvolvesReflexive(service, job, remote);
      var ok := PatchPublic(id, c);
      if !ok {
        return Err("GitHub operation failed");
      }
      var release := ReadRelease(id);
      if release.Err? {
        return Err(release.message);
      }
      if release.value.draft || !release.value.immutable || !release.value.prerelease {
        return Err("Published native release must be an immutable prerelease");
      }
      if !PageFits(job, release.value) {
        return Err("Published release page differs from qualified notes");
      }
      var published := AdmittedAssets(service, job, release.value.assets, true);
      if published.Err? {
        return Err("Uploaded release asset differs from qualified packages");
      }
      if published.value != uploaded {
        SameMap(published.value, uploaded, release.value.assets);
        return Err("Release asset identities changed during publication");
      }
      return Ok(id);
    }

    /** The draft's page is set unless it is right already. */
    method SetPage(job: Job, id: int, page: Release, ghost c: Course) returns (ok: bool)
      requires OnCourse(c, remote.log, steps) && Holding(c, steps)
      requires Drafted(job, remote, id) && page == remote.store[id] && DraftReady(service, job, remote.blobs, page)
      modifies this`remote, this`faults, this`steps
      ensures OnCourse(c, remote.log, steps) && Holding(c, steps)
      ensures Drafted(job, remote, id) && Evolves(service, job, old(remote), remote)
      ensures remote.order == old(remote.order)
      ensures remote.store[id].assets == page.assets && DraftReady(service, job, remote.blobs, remote.store[id])
      ensures ok ==> PageFits(job, remote.store[id])
      ensures old(faults) == [] ==> ok && faults == []
    {
      EvolvesReflexive(service, job, remote);
      if PageFits(job, page) {
        return true;
      }
      EditSteps(service, job, remote, id);
      ok := PatchPage(job, id, c);
    }

    /** The part of `publish` that writes: page, missing files, checks, publication. */
    method FinishDraft(job: Job, sha: string, id: int, page: Release, assets: map<string, int>, ghost c: Course)
      returns (r: Result<int>)
      requires c.tag == job.tag && c.sha == sha
      requires OnCourse(c, remote.log, steps) && Holding(c, steps)
      requires Drafted(job, remote, id) && page == remote.store[id] && Maps(assets, page.assets)
      requires DraftReady(service, job, remote.blobs, page)
      modifies this`remote, this`faults, this`views, this`view, this`steps
      ensures OnCourse(c, remote.log, steps)
      ensures r.Ok? ==> Holding(c, steps)
      ensures remote.order == old(remote.order) && Only(remote, job.tag, id)
      ensures Valid(remote) && Evolves(service, job, old(remote), remote)
      ensures Trusted(service) ==> Resumable(service, job, remote)
      ensures r.Ok? ==> r.value == id && Final(service, job, remote, id)
      ensures old(faults) == [] && old(views) == [] && Trusted(service) && Leads(old(view), job.tag, sha) ==> r.Ok?
    {
      ghost var start := remote;
      var ok := SetPage(job, id, page, c);
      if !ok {
        return Err("GitHub operation failed");
      }
      ghost var paged := remote;
      CheckedRowsFit(service, job, remote.blobs, page.assets, assets);
      ok := UploadMissing(job, id, assets, c);
      EvolvesTransitive(service, job, start, paged, remote);
      if !ok {
        return Err("GitHub operation failed");
      }
      var uploaded := CheckDraft(job, sha, id, c);
      if uploaded.Err? {
        return Err(uploaded.message);
      }
      ghost var checked := remote;
      r := PublishDraft(job, id, uploaded.value, c);
      EvolvesTransitive(service, job, start, checked, remote);
    }

    /**
     * The checks on a release that is there: a draft can be finished, a published one is exactly the job; anything else
     * is refused.
     */
    method Examine(job: Job, id: int) returns (r: Result<map<string, int>>)
      requires Valid(remote) && Only(remote, job.tag, id)
      modifies this`faults
      ensures r.Ok? ==> Maps(r.value, remote.store[id].assets)
      ensures r.Ok? ==>
                if remote.store[id].draft then DraftReady(service, job, remote.blobs, remote.store[id])
                else Settled(service, job, remote.blobs, remote.store[id])
      ensures old(faults) == [] ==> faults == []
      ensures old(faults) == [] && Resumable(service, job, remote) ==> r.Ok?
    {
      OnlyOneResumable(service, job, remote, id);
      ExaminedWhen(service, job, remote.blobs, remote.store[id]);
      var read := ReadRelease(id);
      if read.Err? {
        return Err(read.message);
      }
      r := CheckRecord(service, job, read.value);
      if r.Err? {
        return;
      }
      CheckedRowsFit(service, job, remote.blobs, read.value.assets, r.value);
      var ok := VerifyDownloads(job, r.value);
      if !ok {
        return Err("Downloaded release asset differs from qualified bytes");
      }
    }

    /**
     * `publish` when the tag has a release already: an exact published release is confirmed, a fitting draft is
     * finished.
     */
    method Resume(job: Job, sha: string, id: int, ghost c: Course) returns (r: Result<int>)
      requires c.tag == job.tag && c.sha == sha
      requires OnCourse(c, remote.log, steps) && Holding(c, steps)
      requires Valid(remote) && Only(remote, job.tag, id)
      modifies this`remote, this`faults, this`views, this`view, this`steps
      ensures OnCourse(c, remote.log, steps)
      ensures r.Ok? ==> Holding(c, steps)
      ensures Attempt(service, job, old(remote), remote, r)
      ensures (old(faults) == [] && old(views) == [] && Trusted(service) && Resumable(service, job, old(remote))
               && Leads(old(view), job.tag, sha)) ==> r.Ok?
    {
      EvolvesReflexive(service, job, remote);
      OnlyOneResumable(service, job, remote, id);
      var assets := Examine(job, id);
      if assets.Err? {
        return Err(assets.message);
      }
      if !remote.store[id].draft {
        var ok := RequireTag(job.tag, sha, c);
        return if ok then Ok(id) else Err("Remote release tag moved from the qualified source");
      }
      r := FinishDraft(job, sha, id, remote.store[id], assets.value, c);
    }

    /** From the draft as it was just created. */
    method FinishNew(job: Job, sha: string, page: Release, ghost c: Course) returns (r: Result<int>)
      requires c.tag == job.tag && c.sha == sha
      requires OnCourse(c, remote.log, steps) && Holding(c, steps)
      requires Drafted(job, remote, page.id) && page == remote.store[page.id] && page.assets == []
      requires DraftReady(service, job, remote.blobs, page)
      modifies this`remote, this`faults, this`views, this`view, this`steps
      ensures OnCourse(c, remote.log, steps)
      ensures r.Ok? ==> Holding(c, steps)
      ensures Valid(remote) && Evolves(service, job, old(remote), remote)
      ensures remote.order == old(remote.order) && Only(remote, job.tag, page.id)
      ensures Trusted(service) ==> Resumable(service, job, remote)
      ensures r.Ok? ==> r.value == page.id && Final(service, job, remote, page.id)
      ensures old(faults) == [] && old(views) == [] && Trusted(service) && Leads(old(view), job.tag, sha) ==> r.Ok?
    {
      EvolvesReflexive(service, job, remote);
      var assets := AdmittedAssets(service, job, page.assets, false);
      if assets.Err? {
        return Err("Uploaded release asset inventory differs from qualified packages");
      }
      r := FinishDraft(job, sha, page.id, page, assets.value, c);
    }

    /** `publish` when the tag has no release: a draft is created and finished. */
    method Begin(job: Job, sha: string, ghost c: Course) returns (r: Result<int>)
      requires c.tag == job.tag && c.sha == sha
      requires OnCourse(c, remote.log, steps) && Holding(c, steps)
      requires Valid(remote) && Absent(remote, job.tag)
      modifies this`remote, this`faults, this`views, this`view, this`steps
      ensures OnCourse(c, remote.log, steps)
      ensures r.Ok? ==> Holding(c, steps)
      ensures Attempt(service, job, old(remote), remote, r)
      ensures old(faults) == [] && old(views) == [] && Trusted(service) && Leads(old(view), job.tag, sha) ==> r.Ok?
      ensures old(faults) == [Deliver, LoseReply] && old(views) == [] && Leads(old(view), job.tag, sha) ==>
                r.Err? && remote == CreateDraft(old(remote), job)
    {
      EvolvesReflexive(service, job, remote);
      var ok := RequireTag(job.tag, sha, c);
      if !ok {
        return Err("Remote release tag moved from the qualified source");
      }
      ghost var start := remote;
      CreateSteps(service, job, remote);
      var created := Create(job, c);
      if created.Err? {
        return Err(created.message);
      }
      ghost var drafted := remote;
      r := FinishNew(job, sha, created.value, c);
      EvolvesTransitive(service, job, start, drafted, remote);
    }

    /** `publish`: one attempt. */
    method Publish(job: Job, sha: string) returns (r: Result<int>)
      requires Valid(remote)
      modifies this`remote, this`faults, this`views, this`view, this`steps
      ensures Attempt(service, job, old(remote), remote, r)
      ensures OnCourse(Course(job.tag, sha, old(remote.log)), remote.log, steps)
      ensures r.Ok? ==> Holding(Course(job.tag, sha, old(remote.log)), steps)
      ensures steps != [] ==> steps[0].Read? && (!Leads(steps[0].view, job.tag, sha) ==> remote == old(remote))
      ensures steps == [] ==> remote == old(remote)
      ensures |old(remote).order| >= 1000 ==> r.Err? && remote == old(remote)
      ensures (old(faults) == [] && old(views) == [] && Trusted(service) && Resumable(service, job, old(remote))
               && |old(remote).order| < 1000 && Leads(old(view), job.tag, sha)) ==> r.Ok?
      ensures (old(faults) == CreationLost(|old(remote).order|) && old(views) == [] && Absent(old(remote), job.tag)
               && |old(remote).order| < 1000 && Leads(old(view), job.tag, sha)) ==>
                r.Err? && remote == CreateDraft(old(remote), job)
    {
      CreationLostParts(|remote.order|);
      ghost var c := Course(job.tag, sha, remote.log);
      steps := [];
      CourseStarts(c, remote.log);
      EvolvesReflexive(service, job, remote);
      var ok := RequireTag(job.tag, sha, c);
      if !ok {
        FirstReading(service, job, old(remote), remote, c, steps);
        return Err("Remote release tag moved from the qualified source");
      }
      var existing := FindRelease(job.tag);
      if existing.Err? {
        FirstReading(service, job, old(remote), remote, c, steps);
        return Err(existing.message);
      }
      if existing.value.Some? {
        r := Resume(job, sha, existing.value.value.id, c);
      } else {
        r := Begin(job, sha, c);
      }
      FirstReading(service, job, old(remote), remote, c, steps);
    }

    /**
     * Attempts with the same job, each interrupted at any calls while the environment moves the tag as it likes, and
     * then one without interruption: the tag has one release, exactly the job; over the whole history it was created
     * once, and each of its files was uploaded to it once. `made` says under what each attempt was made.
     */
    method Recover(job: Job, sha: string, attempts: seq<Interruption>, last: View)
      returns (r: Result<int>, ghost made: seq<Interruption>)
      requires Valid(remote) && Trusted(service) && Resumable(service, job, remote)
      requires Load(job.tag, remote) < 1000 && Leads(last, job.tag, sha)
      modifies this`remote, this`faults, this`views, this`view, this`steps
      ensures made == attempts
      ensures r.Ok? && Final(service, job, remote, r.value)
      ensures Evolves(service, job, old(remote), remote)
      ensures Creations(remote.log, r.value) == 1
      ensures forall name :: Uploads(remote.log, r.value, name) == if name in job.expected then 1 else 0
    {
      EvolvesReflexive(service, job, remote);
      made := [];
      for i := 0 to |attempts|
        invariant made == attempts[..i]
        invariant Valid(remote) && Resumable(service, job, remote) && Evolves(service, job, old(remote), remote)
        invariant Load(job.tag, remote) <= Load(job.tag, old(remote))
      {
        ghost var before := remote;
        faults, views := attempts[i].faults, attempts[i].views;
        made := made + [Interruption(faults, views)];
        var one := Publish(job, sha);
        LoadNeverGrows(service, job, before, remote, one);
        EvolvesTransitive(service, job, old(remote), before, remote);
      }
      ghost var before := remote;
      faults, views, view := [], [], last;
      r := Publish(job, sha);
      EvolvesTransitive(service, job, old(remote), before, remote);
      FinalOnce(service, job, remote, r.value);
    }

    /**
     * The bound of `Recover` is exact. Where the listing would get full with the release of the tag, an attempt that
     * is stopped right after creating it leaves a draft that no later attempt finishes: each of them fails and changes
     * nothing, whatever happens to its calls.
     */
    method FillListing(job: Job, sha: string, first: View, attempts: seq<Interruption>)
      returns (stopped: Result<int>, results: seq<Result<int>>, ghost made: seq<Interruption>)
      requires Valid(remote) && Trusted(service) && Absent(remote, job.tag)
      requires Load(job.tag, remote) == 1000 && Leads(first, job.tag, sha)
      modifies this`remote, this`faults, this`views, this`view, this`steps
      ensures stopped.Err? && remote == CreateDraft(old(remote), job)
      ensures Resumable(service, job, remote) && forall id :: !Final(service, job, remote, id)
      ensures made == attempts
      ensures |results| == |attempts| && forall i :: 0 <= i < |results| ==> results[i].Err?
    {
      faults, views, view := CreationLost(|remote.order|), [], first;
      stopped := Publish(job, sha);
      results, made := [], [];
      ghost var draft := remote;
      for i := 0 to |attempts|
        invariant made == attempts[..i]
        invariant remote == draft && Valid(remote) && |remote.order| == 1000
        invariant |results| == i && forall k :: 0 <= k < i ==> results[k].Err?
      {
        faults, views := attempts[i].faults, attempts[i].views;
        made := made + [Interruption(faults, views)];
        var one := Publish(job, sha);
        results := results + [one];
      }
    }
  }
}
