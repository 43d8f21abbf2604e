/** `select_videos_to_upload`: the manifest rows not yet in the upload log,
    of which at most two are drawn at random and turned into upload records. */
module Selector {
  import opened Wrappers
  import opened Files
  import opened Ledger

  /** The literal limit of `min(2, len(available_videos))`. */
  const MaxSelected: nat := 2

  function Min(a: int, b: int): (r: int)
  {
    if a <= b then a else b
  }

  /** A video handed to the uploader: `{path, title, description}`. */
  datatype VideoRecord = VideoRecord(path: string, title: string, description: string)

  /** The list comprehension `available_videos`: the rows whose path is not
      in the ledger, in manifest order. */
  function Available(rows: seq<ManifestRow>, uploaded: set<string>): (r: seq<ManifestRow>)
    ensures |r| <= |rows|
    ensures forall row :: row in r <==> row in rows && row.videoPath !in uploaded
  {
    if rows == [] then []
    else (if rows[0].videoPath in uploaded then [] else [rows[0]]) + Available(rows[1..], uploaded)
  }

  /** The filter keeps the manifest's relative order: filtering a
      concatenation is concatenating the filtered parts. */
  lemma {:induction false} AvailableAppend(a: seq<ManifestRow>, b: seq<ManifestRow>, uploaded: set<string>)
    ensures Available(a + b, uploaded) == Available(a, uploaded) + Available(b, uploaded)
  {
    if a == [] {
      assert a + b == b;
    } else {
      assert (a + b)[0] == a[0] && (a + b)[1..] == a[1..] + b;
      AvailableAppend(a[1..], b, uploaded);
    }
  }

  /** A row is kept as often as the manifest lists it, or dropped every time. */
  lemma {:induction false} AvailableCount(rows: seq<ManifestRow>, uploaded: set<string>, row: ManifestRow)
    ensures multiset(Available(rows, uploaded))[row]
            == if row.videoPath in uploaded then 0 else multiset(rows)[row]
  {
    if rows != [] {
      assert rows == [rows[0]] + rows[1..];
      AvailableCount(rows[1..], uploaded, row);
    }
  }

  /** With an empty ledger every row is available. */
  lemma {:induction false} AvailableEmptyLedger(rows: seq<ManifestRow>)
    ensures Available(rows, {}) == rows
  {
    if rows != [] {
      AvailableEmptyLedger(rows[1..]);
      assert rows == [rows[0]] + rows[1..];
    }
  }

  /** `random.sample(available_videos, min(2, n))` on a population of size n:
      the positions drawn, distinct, in the order the draw returns them. */
  method DrawPositions(n: nat) returns (picks: seq<nat>)
    ensures |picks| == Min(MaxSelected, n)
    ensures forall k :: 0 <= k < |picks| ==> picks[k] < n
    ensures NoDuplicates(picks)
  {
    if n == 0 {
      picks := [];
    } else if n == 1 {
      picks := [0];
    } else {
      var i: nat :| i < n;
      ghost var other: nat := if i == 0 then 1 else 0;
      assert other < n && other != i;
      var j: nat :| j < n && j != i;
      picks := [i, j];
    }
  }

  function RecordOf(row: ManifestRow): (r: VideoRecord)
  {
    VideoRecord(row.videoPath, row.title, row.description)
  }

  /** `select_videos_to_upload`, reading the upload log and the manifest.
      `available` and `picks` are the filtered rows and the positions drawn. */
  method SelectVideosToUpload(log: LogFile, manifest: ManifestFile)
    returns (r: Result<seq<VideoRecord>, Error>, ghost available: seq<ManifestRow>, ghost picks: seq<nat>)
    ensures log.Unparseable? ==> r == Failure(LogNotParseable)
    ensures !log.Unparseable? && manifest.ManifestMissing? ==> r == Failure(ManifestNotFound)
    ensures !log.Unparseable? && manifest.Rows? ==>
      var uploaded := LoadUploadedVideos(log).value;
      && r.Success?
      && available == Available(manifest.rows, uploaded)
      && |picks| == |r.value| == Min(MaxSelected, |available|)
      && NoDuplicates(picks)
      && (forall k :: 0 <= k < |picks| ==> picks[k] < |available|)
      && (forall k :: 0 <= k < |r.value| ==>
            && r.value[k].path == available[picks[k]].videoPath
            && r.value[k].title == available[picks[k]].title
            && r.value[k].description == available[picks[k]].description)
      && (forall k :: 0 <= k < |r.value| ==> r.value[k].path !in uploaded)
  {
    available, picks := [], [];
    var loaded := LoadUploadedVideos(log);
    if loaded.Failure? {
      return Failure(loaded.error), available, picks;
    }
    if manifest.ManifestMissing? {
      return Failure(ManifestNotFound), available, picks;
    }
    var availableVideos := Available(manifest.rows, loaded.value);
    var selected := DrawPositions(|availableVideos|);
    var videos: seq<VideoRecord> := [];
    for k := 0 to |selected|
      invariant |videos| == k
      invariant forall j :: 0 <= j < k ==> videos[j] == RecordOf(availableVideos[selected[j]])
    {
      videos := videos + [RecordOf(availableVideos[selected[k]])];
    }
    forall k | 0 <= k < |videos| ensures videos[k].path !in loaded.value {
      assert availableVideos[selected[k]] in availableVideos;
    }
    r, available, picks := Success(videos), availableVideos, selected;
  }
}
