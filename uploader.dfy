/** `YouTubeUploader` and `main`: the dedup rule of `upload_video`, the
    ledger update after a successful upload, and the run over the selected
    videos. The video platform is an oracle: each insert call is answered with
    the reply the environment supplies. */
module Uploader {
  import opened Wrappers
  import opened Files
  import opened Ledger
  import opened Selector

  /** The default `category_id` and `privacy_status` of `upload_video`. */
  const DefaultCategoryId: string := "22"
  const DefaultPrivacyStatus: string := "private"

  /** What one `videos().insert(...).execute()` call ends with. */
  datatype Reply = Inserted(id: string) | HttpError(status: int)

  /** The request body of an insert call, with the file it uploads. */
  datatype UploadRequest = UploadRequest(
    videoPath: string, title: string, description: string,
    categoryId: string, privacyStatus: string)

  /** The platform behind `self.youtube`. */
  class Platform {
    /** Every insert request it was sent, in order. */
    var calls: seq<UploadRequest>
    /** The requests it accepted, in order. */
    var published: seq<UploadRequest>

    constructor ()
      ensures calls == [] && published == []
    {
      calls, published := [], [];
    }

    /** One insert call, answered by `reply`. */
    method Insert(request: UploadRequest, reply: Reply) returns (response: Reply)
      modifies this
      ensures response == reply
      ensures calls == old(calls) + [request]
      ensures published == old(published) + (if reply.Inserted? then [request] else [])
    {
      calls := calls + [request];
      if reply.Inserted? {
        published := published + [request];
      }
      response := reply;
    }
  }

  function RequestPaths(requests: seq<UploadRequest>): (r: seq<string>)
  {
    seq(|requests|, k requires 0 <= k < |requests| => requests[k].videoPath)
  }

  function RecordPaths(videos: seq<VideoRecord>): (r: seq<string>)
  {
    seq(|videos|, k requires 0 <= k < |videos| => videos[k].path)
  }

  class YouTubeUploader {
    /** `self.uploaded_videos`. */
    var uploadedVideos: set<string>
    /** The contents of the file at `self.uploaded_log_path`. */
    var logFile: LogFile
    /** `self.youtube`. */
    const youtube: Platform

    /** The log on disk always decodes to the ledger held in memory. */
    ghost predicate Valid()
      reads this
    {
      LoadUploadedVideos(logFile) == Success(uploadedVideos)
    }

    /** `__init__` when the log decodes; `Open` is the whole call. */
    constructor (log: LogFile, platform: Platform)
      requires LoadUploadedVideos(log).Success?
      ensures Valid()
      ensures uploadedVideos == LoadUploadedVideos(log).value
      ensures logFile == log && youtube == platform
    {
      uploadedVideos := LoadUploadedVideos(log).value;
      logFile := log;
      youtube := platform;
    }

    /** `YouTubeUploader(...)`: raises the log's decoding error. */
    static method Open(log: LogFile, platform: Platform) returns (r: Result<YouTubeUploader, Error>)
      ensures r.Failure? <==> log.Unparseable?
      ensures r.Failure? ==> r.error == LogNotParseable
      ensures r.Success? ==>
        && fresh(r.value) && r.value.Valid()
        && r.value.uploadedVideos == LoadUploadedVideos(log).value
        && r.value.logFile == log && r.value.youtube == platform
    {
      var loaded := LoadUploadedVideos(log);
      if loaded.Failure? {
        return Failure(loaded.error);
      }
      var uploader := new YouTubeUploader(log, platform);
      r := Success(uploader);
    }

    /** `_save_uploaded_videos`: add the path, then rewrite the whole log. */
    method SaveUploadedVideos(videoPath: string)
      modifies this
      ensures Valid()
      ensures uploadedVideos == old(uploadedVideos) + {videoPath}
      ensures logFile.Listing? && IsListing(logFile.entries, uploadedVideos)
    {
      uploadedVideos := uploadedVideos + {videoPath};
      var entries := ListOf(uploadedVideos);
      logFile := Listing(entries);
      SaveLoadRoundTrip(entries, uploadedVideos);
    }

    /** `upload_video`: skip a path already in the ledger; otherwise send one
        insert request and record the path only if the platform accepted it. */
    method UploadVideo(videoPath: string, title: string, description: string,
                       categoryId: string, privacyStatus: string, reply: Reply)
      returns (response: Option<string>)
      requires Valid()
      modifies this, youtube
      ensures Valid()
      ensures old(videoPath in uploadedVideos) ==>
        && response == None
        && uploadedVideos == old(uploadedVideos) && logFile == old(logFile)
        && youtube.calls == old(youtube.calls) && youtube.published == old(youtube.published)
      ensures videoPath !in old(uploadedVideos) ==>
        var request := UploadRequest(videoPath, title, description, categoryId, privacyStatus);
        && youtube.calls == old(youtube.calls) + [request]
        && (reply.Inserted? ==>
             && response == Some(reply.id)
             && uploadedVideos == old(uploadedVideos) + {videoPath}
             && logFile.Listing? && IsListing(logFile.entries, uploadedVideos)
             && youtube.published == old(youtube.published) + [request])
        && (reply.HttpError? ==>
             && response == None
             && uploadedVideos == old(uploadedVideos) && logFile == old(logFile)
             && youtube.published == old(youtube.published))
    {
      if videoPath in uploadedVideos {
        return None;
      }
      var request := UploadRequest(videoPath, title, description, categoryId, privacyStatus);
      var answer := youtube.Insert(request, reply);
      match answer
      case Inserted(id) =>
        SaveUploadedVideos(videoPath);
        response := Some(id);
      case HttpError(_) =>
        response := None;
    }
  }

  /* The run over a sequence of candidate paths, as values: `LedgerAfter` is
     the ledger after the calls, `Attempted` the paths sent to the platform,
     `Uploaded` the paths it accepted. `replies[k]` answers the k-th call if
     it is sent. */

  function LedgerAfter(ledger: set<string>, paths: seq<string>, replies: seq<Reply>): (r: set<string>)
    requires |paths| == |replies|
    ensures ledger <= r
  {
    if paths == [] then ledger
    else
      var n := |paths| - 1;
      var before := LedgerAfter(ledger, paths[..n], replies[..n]);
      if paths[n] !in before && replies[n].Inserted? then before + {paths[n]} else before
  }

  function Attempted(ledger: set<string>, paths: seq<string>, replies: seq<Reply>): (r: seq<string>)
    requires |paths| == |replies|
    ensures |r| <= |paths|
  {
    if paths == [] then []
    else
      var n := |paths| - 1;
      Attempted(ledger, paths[..n], replies[..n])
        + (if paths[n] !in LedgerAfter(ledger, paths[..n], replies[..n]) then [paths[n]] else [])
  }

  function Uploaded(ledger: set<string>, paths: seq<string>, replies: seq<Reply>): (r: seq<string>)
    requires |paths| == |replies|
    ensures |r| <= |paths|
  {
    if paths == [] then []
    else
      var n := |paths| - 1;
      Uploaded(ledger, paths[..n], replies[..n])
        + (if paths[n] !in LedgerAfter(ledger, paths[..n], replies[..n]) && replies[n].Inserted?
           then [paths[n]] else [])
  }

  /** The request `main` sends for a selected video: its own path, title and
      description, with the default category and privacy status. */
  function RequestOf(video: VideoRecord): (r: UploadRequest)
  {
    UploadRequest(video.path, video.title, video.description, DefaultCategoryId, DefaultPrivacyStatus)
  }

  /** The full requests a run over `videos` sends to the platform. */
  function Sent(ledger: set<string>, videos: seq<VideoRecord>, replies: seq<Reply>): (r: seq<UploadRequest>)
    requires |videos| == |replies|
    ensures |r| <= |videos|
  {
    if videos == [] then []
    else
      var n := |videos| - 1;
      Sent(ledger, videos[..n], replies[..n])
        + (if videos[n].path !in LedgerAfter(ledger, RecordPaths(videos[..n]), replies[..n])
           then [RequestOf(videos[n])] else [])
  }

  /** The full requests of a run over `videos` that the platform accepts. */
  function Accepted(ledger: set<string>, videos: seq<VideoRecord>, replies: seq<Reply>): (r: seq<UploadRequest>)
    requires |videos| == |replies|
    ensures |r| <= |videos|
  {
    if videos == [] then []
    else
      var n := |videos| - 1;
      Accepted(ledger, videos[..n], replies[..n])
        + (if videos[n].path !in LedgerAfter(ledger, RecordPaths(videos[..n]), replies[..n]) && replies[n].Inserted?
           then [RequestOf(videos[n])] else [])
  }

  /** The run over the first k + 1 videos, in terms of the run over the
      first k. */
  lemma SentStep(ledger: set<string>, videos: seq<VideoRecord>, replies: seq<Reply>, k: nat)
    requires |videos| == |replies| && k < |videos|
    ensures var before := LedgerAfter(ledger, RecordPaths(videos[..k]), replies[..k]);
      var sent := videos[k].path !in before;
      && LedgerAfter(ledger, RecordPaths(videos[..k + 1]), replies[..k + 1])
         == (if sent && replies[k].Inserted? then before + {videos[k].path} else before)
      && Sent(ledger, videos[..k + 1], replies[..k + 1])
         == Sent(ledger, videos[..k], replies[..k]) + (if sent then [RequestOf(videos[k])] else [])
      && Accepted(ledger, videos[..k + 1], replies[..k + 1])
         == Accepted(ledger, videos[..k], replies[..k]) + (if sent && replies[k].Inserted? then [RequestOf(videos[k])] else [])
  {
    assert videos[..k + 1][..k] == videos[..k] && replies[..k + 1][..k] == replies[..k];
    assert videos[..k + 1][k] == videos[k] && replies[..k + 1][k] == replies[k];
    var paths := RecordPaths(videos[..k + 1]);
    assert paths[..k] == RecordPaths(videos[..k]) && paths[k] == videos[k].path;
  }

  /** Every request a run sends is the request of one of its videos, with
      that video's title and description, category "22" and privacy
      "private", and a path not in the starting ledger; every accepted request
      was sent. */
  lemma {:induction false} SentRequestsOfVideos(ledger: set<string>, videos: seq<VideoRecord>, replies: seq<Reply>)
    requires |videos| == |replies|
    ensures forall q :: q in Sent(ledger, videos, replies) ==>
      && q.videoPath !in ledger
      && q.categoryId == DefaultCategoryId && q.privacyStatus == DefaultPrivacyStatus
      && exists k :: 0 <= k < |videos| && q == RequestOf(videos[k])
    ensures forall q :: q in Accepted(ledger, videos, replies) ==> q in Sent(ledger, videos, replies)
  {
    if videos != [] {
      var n := |videos| - 1;
      SentRequestsOfVideos(ledger, videos[..n], replies[..n]);
      forall q | q in Sent(ledger, videos[..n], replies[..n])
        ensures exists k :: 0 <= k < |videos| && q == RequestOf(videos[k])
      {
        var k :| 0 <= k < n && q == RequestOf(videos[..n][k]);
        assert videos[..n][k] == videos[k];
      }
      var before := LedgerAfter(ledger, RecordPaths(videos[..n]), replies[..n]);
      assert ledger <= before;
    }
  }

  /** The requests sent and accepted carry exactly the paths of `Attempted`
      and `Uploaded`. */
  lemma {:induction false} SentPaths(ledger: set<string>, videos: seq<VideoRecord>, replies: seq<Reply>)
    requires |videos| == |replies|
    ensures RequestPaths(Sent(ledger, videos, replies)) == Attempted(ledger, RecordPaths(videos), replies)
    ensures RequestPaths(Accepted(ledger, videos, replies)) == Uploaded(ledger, RecordPaths(videos), replies)
  {
    if videos != [] {
      var n := |videos| - 1;
      assert RecordPaths(videos)[..n] == RecordPaths(videos[..n]);
      SentPaths(ledger, videos[..n], replies[..n]);
      var tail := if videos[n].path !in LedgerAfter(ledger, RecordPaths(videos[..n]), replies[..n])
                  then [RequestOf(videos[n])] else [];
      var tail' := if videos[n].path !in LedgerAfter(ledger, RecordPaths(videos[..n]), replies[..n]) && replies[n].Inserted?
                   then [RequestOf(videos[n])] else [];
      RequestPathsAppend(Sent(ledger, videos[..n], replies[..n]), tail);
      RequestPathsAppend(Accepted(ledger, videos[..n], replies[..n]), tail');
    }
  }

  /** The ledger only grows, and grows by exactly the accepted paths; no
      path is accepted twice, nor one that was in the ledger at the start. */
  lemma {:induction false} UploadedExact(ledger: set<string>, paths: seq<string>, replies: seq<Reply>)
    requires |paths| == |replies|
    ensures ledger <= LedgerAfter(ledger, paths, replies)
    ensures forall p :: p in LedgerAfter(ledger, paths, replies) <==> p in ledger || p in Uploaded(ledger, paths, replies)
    ensures NoDuplicates(Uploaded(ledger, paths, replies))
    ensures forall p :: p in Uploaded(ledger, paths, replies) ==> p !in ledger
  {
    if paths != [] {
      var n := |paths| - 1;
      var before := LedgerAfter(ledger, paths[..n], replies[..n]);
      var up := Uploaded(ledger, paths[..n], replies[..n]);
      UploadedExact(ledger, paths[..n], replies[..n]);
      if paths[n] !in before && replies[n].Inserted? {
        assert LedgerAfter(ledger, paths, replies) == before + {paths[n]};
        assert Uploaded(ledger, paths, replies) == up + [paths[n]];
        AppendFresh(up, paths[n]);
      } else {
        assert LedgerAfter(ledger, paths, replies) == before;
        assert Uploaded(ledger, paths, replies) == up;
      }
    }
  }

  lemma AppendFresh(s: seq<string>, x: string)
    requires NoDuplicates(s) && x !in s
    ensures NoDuplicates(s + [x])
    ensures forall y :: y in s + [x] <==> y in s || y == x
  {
  }

  /** A run extends the ledger of a longer run's prefix: a later call sees
      every path an earlier call recorded. */
  lemma {:induction false} LedgerAfterPrefix(ledger: set<string>, paths: seq<string>, replies: seq<Reply>, i: nat)
    requires |paths| == |replies| && i <= |paths|
    ensures LedgerAfter(ledger, paths[..i], replies[..i]) <= LedgerAfter(ledger, paths, replies)
  {
    if i < |paths| {
      var n := |paths| - 1;
      assert paths[..n][..i] == paths[..i] && replies[..n][..i] == replies[..i];
      LedgerAfterPrefix(ledger, paths[..n], replies[..n], i);
    } else {
      assert paths[..i] == paths && replies[..i] == replies;
    }
  }

  /** Once call i has uploaded a path, every later call with that path is
      skipped: it is not sent to the platform. */
  lemma SkippedAfterUpload(ledger: set<string>, paths: seq<string>, replies: seq<Reply>, i: nat, j: nat)
    requires |paths| == |replies| && i < j < |paths| && paths[i] == paths[j]
    requires paths[i] !in LedgerAfter(ledger, paths[..i], replies[..i]) && replies[i].Inserted?
    ensures paths[j] in LedgerAfter(ledger, paths[..j], replies[..j])
  {
    var p, r := paths[..j], replies[..j];
    assert p[..i] == paths[..i] && r[..i] == replies[..i];
    assert p[..i + 1][..i] == paths[..i] && r[..i + 1][..i] == replies[..i];
    assert p[..i + 1][i] == paths[i] && r[..i + 1][i] == replies[i];
    LedgerAfterPrefix(ledger, p, r, i + 1);
  }

  /** A run whose second of three fresh candidates is rejected still sends the
      third, and the ledger gains the first and the third. */
  lemma FailureIsolation(ledger: set<string>, a: string, b: string, c: string, ida: string, idc: string, status: int)
    requires a !in ledger && b !in ledger && c !in ledger
    requires a != b && b != c && a != c
    ensures var paths, replies := [a, b, c], [Inserted(ida), HttpError(status), Inserted(idc)];
      && Attempted(ledger, paths, replies) == [a, b, c]
      && Uploaded(ledger, paths, replies) == [a, c]
      && LedgerAfter(ledger, paths, replies) == ledger + {a, c}
  {
    assert [] + [a] == [a] && [] + [Inserted(ida)] == [Inserted(ida)];
    assert [a] + [b] == [a, b] && [a, b] + [c] == [a, b, c];
    assert [Inserted(ida)] + [HttpError(status)] == [Inserted(ida), HttpError(status)];
    assert [Inserted(ida), HttpError(status)] + [Inserted(idc)] == [Inserted(ida), HttpError(status), Inserted(idc)];
    RunStep(ledger, [], [], a, Inserted(ida));
    RunStep(ledger, [a], [Inserted(ida)], b, HttpError(status));
    RunStep(ledger, [a, b], [Inserted(ida), HttpError(status)], c, Inserted(idc));
  }

  /** One more call, in terms of the run before it. */
  lemma RunStep(ledger: set<string>, paths: seq<string>, replies: seq<Reply>, p: string, reply: Reply)
    requires |paths| == |replies|
    ensures var before := LedgerAfter(ledger, paths, replies);
      var sent := p !in before;
      && LedgerAfter(ledger, paths + [p], replies + [reply])
         == (if sent && reply.Inserted? then before + {p} else before)
      && Attempted(ledger, paths + [p], replies + [reply])
         == Attempted(ledger, paths, replies) + (if sent then [p] else [])
      && Uploaded(ledger, paths + [p], replies + [reply])
         == Uploaded(ledger, paths, replies) + (if sent && reply.Inserted? then [p] else [])
  {
  }

  /** The next run's candidates exclude every path the run uploaded. */
  lemma NextRunExcludesUploaded(rows: seq<ManifestRow>, ledger: set<string>, paths: seq<string>, replies: seq<Reply>)
    requires |paths| == |replies|
    ensures forall row :: row in Available(rows, LedgerAfter(ledger, paths, replies)) ==>
              row.videoPath !in Uploaded(ledger, paths, replies) && row.videoPath !in ledger
  {
    UploadedExact(ledger, paths, replies);
  }

  /** The `for` loop of `main`: one `upload_video` call per selected video,
      with the default category and privacy status. */
  method UploadAll(uploader: YouTubeUploader, videos: seq<VideoRecord>, replies: seq<Reply>)
    requires uploader.Valid() && |replies| == |videos|
    modifies uploader, uploader.youtube
    ensures uploader.Valid()
    ensures uploader.uploadedVideos == LedgerAfter(old(uploader.uploadedVideos), RecordPaths(videos), replies)
    ensures uploader.youtube.calls == old(uploader.youtube.calls) + Sent(old(uploader.uploadedVideos), videos, replies)
    ensures uploader.youtube.published
            == old(uploader.youtube.published) + Accepted(old(uploader.uploadedVideos), videos, replies)
    ensures Accepted(old(uploader.uploadedVideos), videos, replies) == [] ==> uploader.logFile == old(uploader.logFile)
    ensures Accepted(old(uploader.uploadedVideos), videos, replies) != [] ==>
      uploader.logFile.Listing? && IsListing(uploader.logFile.entries, uploader.uploadedVideos)
  {
    ghost var ledger := uploader.uploadedVideos;
    ghost var calls, published := uploader.youtube.calls, uploader.youtube.published;
    ghost var log0 := uploader.logFile;
    for k := 0 to |videos|
      invariant uploader.Valid()
      invariant Accepted(ledger, videos[..k], replies[..k]) == [] ==> uploader.logFile == log0
      invariant Accepted(ledger, videos[..k], replies[..k]) != [] ==>
        uploader.logFile.Listing? && IsListing(uploader.logFile.entries, uploader.uploadedVideos)
      invariant uploader.uploadedVideos == LedgerAfter(ledger, RecordPaths(videos[..k]), replies[..k])
      invariant uploader.youtube.calls == calls + Sent(ledger, videos[..k], replies[..k])
      invariant uploader.youtube.published == published + Accepted(ledger, videos[..k], replies[..k])
    {
      ghost var before, callsBefore, publishedBefore := uploader.uploadedVideos, uploader.youtube.calls, uploader.youtube.published;
      var _ := uploader.UploadVideo(videos[k].path, videos[k].title, videos[k].description,
                                    DefaultCategoryId, DefaultPrivacyStatus, replies[k]);
      UploadStep(ledger, videos, replies, k, calls, published,
                 before, callsBefore, publishedBefore,
                 uploader.uploadedVideos, uploader.youtube.calls, uploader.youtube.published);
      SentStep(ledger, videos, replies, k);
    }
    assert videos[..|videos|] == videos && replies[..|videos|] == replies;
  }

  /** One iteration of `main`'s loop, on values: what `UploadVideo` promises
      for the k-th video carries the loop's description from k to k + 1. */
  lemma UploadStep(ledger: set<string>, videos: seq<VideoRecord>, replies: seq<Reply>, k: nat,
                   calls: seq<UploadRequest>, published: seq<UploadRequest>,
                   before: set<string>, callsBefore: seq<UploadRequest>, publishedBefore: seq<UploadRequest>,
                   after: set<string>, callsAfter: seq<UploadRequest>, publishedAfter: seq<UploadRequest>)
    requires |videos| == |replies| && k < |videos|
    requires before == LedgerAfter(ledger, RecordPaths(videos[..k]), replies[..k])
    requires callsBefore == calls + Sent(ledger, videos[..k], replies[..k])
    requires publishedBefore == published + Accepted(ledger, videos[..k], replies[..k])
    requires videos[k].path in before ==>
      after == before && callsAfter == callsBefore && publishedAfter == publishedBefore
    requires videos[k].path !in before ==>
      && callsAfter == callsBefore + [RequestOf(videos[k])]
      && (replies[k].Inserted? ==>
           after == before + {videos[k].path} && publishedAfter == publishedBefore + [RequestOf(videos[k])])
      && (replies[k].HttpError? ==> after == before && publishedAfter == publishedBefore)
    ensures after == LedgerAfter(ledger, RecordPaths(videos[..k + 1]), replies[..k + 1])
    ensures callsAfter == calls + Sent(ledger, videos[..k + 1], replies[..k + 1])
    ensures publishedAfter == published + Accepted(ledger, videos[..k + 1], replies[..k + 1])
  {
    SentStep(ledger, videos, replies, k);
    var sentBefore, acceptedBefore := Sent(ledger, videos[..k], replies[..k]), Accepted(ledger, videos[..k], replies[..k]);
    assert calls + sentBefore + [RequestOf(videos[k])] == calls + (sentBefore + [RequestOf(videos[k])]);
    assert published + acceptedBefore + [RequestOf(videos[k])] == published + (acceptedBefore + [RequestOf(videos[k])]);
  }

  lemma RequestPathsAppend(a: seq<UploadRequest>, b: seq<UploadRequest>)
    ensures RequestPaths(a + b) == RequestPaths(a) + RequestPaths(b)
  {
  }

  /** `main`: open the uploader, select the videos, upload each. `replies[k]`
      answers the upload of the k-th selected video; `disk` is the upload log
      the run leaves behind; `available` and `picks` are the selection's
      filtered rows and drawn positions. */
  method Run(log: LogFile, manifest: ManifestFile, platform: Platform, replies: seq<Reply>)
    returns (r: Result<seq<VideoRecord>, Error>, disk: LogFile, ghost available: seq<ManifestRow>, ghost picks: seq<nat>)
    requires |replies| >= MaxSelected
    modifies platform
    ensures r.Success? <==> !log.Unparseable? && manifest.Rows?
    ensures log.Unparseable? ==> r == Failure(LogNotParseable)
    ensures !log.Unparseable? && manifest.ManifestMissing? ==> r == Failure(ManifestNotFound)
    ensures r.Failure? ==> disk == log && platform.calls == old(platform.calls) && platform.published == old(platform.published)
    ensures r.Success? ==>
      var ledger := LoadUploadedVideos(log).value;
      var paths := RecordPaths(r.value);
      && available == Available(manifest.rows, ledger)
      && |picks| == |r.value| == Min(MaxSelected, |available|)
      && NoDuplicates(picks)
      && (forall k :: 0 <= k < |picks| ==> picks[k] < |available|)
      && (forall k :: 0 <= k < |r.value| ==>
            && r.value[k].path == available[picks[k]].videoPath
            && r.value[k].title == available[picks[k]].title
            && r.value[k].description == available[picks[k]].description)
      && (forall p :: p in paths ==> p !in ledger)
      && LoadUploadedVideos(disk) == Success(LedgerAfter(ledger, paths, replies[..|paths|]))
      && platform.calls == old(platform.calls) + Sent(ledger, r.value, replies[..|paths|])
      && platform.published == old(platform.published) + Accepted(ledger, r.value, replies[..|paths|])
      && (Accepted(ledger, r.value, replies[..|paths|]) == [] ==> disk == log)
      && (Accepted(ledger, r.value, replies[..|paths|]) != [] ==>
            disk.Listing? && IsListing(disk.entries, LedgerAfter(ledger, paths, replies[..|paths|])))
  {
    available, picks := [], [];
    var created := YouTubeUploader.Open(log, platform);
    if created.Failure? {
      return Failure(created.error), log, available, picks;
    }
    var uploader := created.value;
    var videos;
    videos, available, picks := SelectVideosToUpload(log, manifest);
    if videos.Failure? {
      return videos, log, available, picks;
    }
    UploadAll(uploader, videos.value, replies[..|videos.value|]);
    r, disk := videos, uploader.logFile;
  }
}
