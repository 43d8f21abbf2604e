# YouTube uploader: upload-dedup ledger and candidate selection

This project models the part of `src/uploader.py` that has state and rules:

- the uploader's ledger `uploaded_videos`, the set of video paths already uploaded;
- how that ledger is loaded from the JSON log `uploaded_videos.json` and written back to it;
- the dedup rule of `upload_video`;
- the choice of at most two not-yet-uploaded manifest rows in `select_videos_to_upload`;
- the `main` loop that uploads each chosen video.

The model has five modules:

- `Wrappers`: `Option` and `Result`.
- `Files`: the contents of the upload log and of the manifest, with JSON and CSV decoding abstracted away, and the two exceptions that escape.
- `Ledger`: decoding, listing and the save/load round trip.
- `Selector`: the filter, the random draw and the record mapping.
- `Uploader`: the platform as an oracle, the `YouTubeUploader` class, a value-level description of a run, and `main`.

`YouTubeUploader` is a class. Its fields are:

- `uploadedVideos`: the set.
- `logFile`: the contents of the log file at its path.
- `youtube`: the platform client.

Its invariant `Valid()` says that the log on disk always decodes to the in-memory set. Every method keeps it.

The platform is a `Platform` object. It records every insert request (`calls`) and every request it accepted (`published`). The environment supplies the reply to each call: it is either `Inserted(id)` or `HttpError(status)`.

`main` threads the ledger through the loop. Five functions describe that run as values:

- `LedgerAfter`: the ledger at the end.
- `Attempted`: the paths sent to the platform.
- `Uploaded`: the paths the platform accepted.
- `Sent`: the full requests sent.
- `Accepted`: the full requests accepted.

Lemmas then prove:

- the ledger only grows;
- the ledger grows by exactly the accepted paths;
- no path is accepted twice;
- a path that was uploaded is skipped by every later call.

The model follows what the code does on these points:

- Only a missing log is caught (lines 40 and 121). A log that is not valid JSON is not replaced by an empty ledger: the decoding error from line 39 escapes as `LogNotParseable`.
- A missing manifest is not caught. The `FileNotFoundError` from line 124 escapes as `ManifestNotFound`.
- The log holds only a list of paths (line 52). It records no video IDs and no upload history.
- The selection limit is the literal 2 at line 137 (`Selector.MaxSelected`). It is not a parameter.
- `upload_video` catches only `HttpError` (line 105). Every other exception would escape, and the model has no such replies.

The recheck inside `upload_video` (line 66) matters even after selection has filtered against the log. The manifest may list one path in two rows, and both rows can be drawn. If the first upload succeeds, the second call is skipped (`Uploader.SkippedAfterUpload`).

## Model

| member | source | states |
|---|---|---|
| `Ledger.ElementsOf` | src/uploader.py:39 | `set(list)` holds exactly the listed paths, has at most as many members as the list has entries, and exactly as many when the list has no repeats |
| `Ledger.LoadUploadedVideos` | src/uploader.py:31-41 | a missing log loads as the empty set; an undecodable log fails with `LogNotParseable`, and only then; a decoded list loads as the set of exactly its entries |
| `Ledger.ListOf` | src/uploader.py:52 | `list(set)` lists every member of the set exactly once, in an unspecified order, and lists nothing else |
| `Ledger.SaveLoadRoundTrip` | src/uploader.py:38-52 | loading a log written from a set gives back exactly that set, whatever the order of the list |
| `Ledger.ListingIsUnique` | src/uploader.py:51-52 | any two logs written from the same set have the same length and the same entries, and differ at most in order |
| `Selector.Available` | src/uploader.py:129-132 | the available rows are exactly the manifest rows whose path is not in the ledger, and there are no more of them than manifest rows |
| `Selector.AvailableAppend` | src/uploader.py:129-132 | the filter keeps manifest order: filtering a concatenation is concatenating the filtered parts |
| `Selector.AvailableCount` | src/uploader.py:129-132 | a row appears among the available rows as often as in the manifest if its path is not in the ledger, and otherwise never |
| `Selector.AvailableEmptyLedger` | src/uploader.py:121-132 | with an empty ledger (a missing log) every manifest row is available, in order |
| `Selector.DrawPositions` | src/uploader.py:134-138 | the sample has min(2, n) positions, all in range and pairwise distinct (drawn without replacement) |
| `Selector.SelectVideosToUpload` | src/uploader.py:109-147 | fails with the log's decoding error first, then with the missing manifest; otherwise returns min(2, available) records; each record copies the path, title and description of the available row at its own distinct drawn position; no record's path is in the ledger |
| `Uploader.Platform.Insert` | src/uploader.py:91-97 | an insert call records its request and answers with the environment's reply; the request is published exactly when the reply is `Inserted` |
| `Uploader.YouTubeUploader.constructor` | src/uploader.py:12-29 | the ledger is the decoded log and the on-disk invariant holds from the start |
| `Uploader.YouTubeUploader.Open` | src/uploader.py:12-41 | constructing the uploader fails exactly when the log does not decode; otherwise the new uploader's ledger is the loaded set |
| `Uploader.YouTubeUploader.SaveUploadedVideos` | src/uploader.py:43-52 | the ledger becomes the old ledger plus the path; the log is rewritten as a listing of exactly the new ledger and decodes back to it |
| `Uploader.YouTubeUploader.UploadVideo` | src/uploader.py:54-107 | a path already in the ledger returns `None`, makes no platform call and changes nothing; otherwise exactly one request with title, description, category and privacy is sent; on `Inserted(id)` it returns the id, the ledger gains exactly that path, and the log is rewritten as a listing of the new ledger, each path once; on `HttpError` it returns `None` and the ledger and log are unchanged; the log always decodes to the ledger |
| `Uploader.LedgerAfter` | src/uploader.py:66-101 | the ledger after a run over candidate paths: it never loses a path of the starting ledger |
| `Uploader.Attempted` | src/uploader.py:66-97 | the paths a run sends to the platform: at most one call per candidate |
| `Uploader.Uploaded` | src/uploader.py:97-101 | the paths the platform accepts during a run: at most one per candidate |
| `Uploader.Sent` | src/uploader.py:160-165 | the full requests a run over selected videos sends: at most one per video |
| `Uploader.Accepted` | src/uploader.py:160-165 | the full requests of a run that the platform accepts: at most one per video |
| `Uploader.SentPaths` | src/uploader.py:160-165 | the requests sent carry exactly the `Attempted` paths, and the requests accepted carry exactly the `Uploaded` paths |
| `Uploader.SentRequestsOfVideos` | src/uploader.py:54-97 | every request a run sends is the request of one selected video, with that video's title and description, category "22" and privacy "private", and a path not in the starting ledger; every accepted request was sent |
| `Uploader.UploadedExact` | src/uploader.py:97-101 | over a run, the ledger only grows; a path is in the final ledger exactly when it was in the initial ledger or was uploaded; no path is uploaded twice, and none that was in the initial ledger |
| `Uploader.LedgerAfterPrefix` | src/uploader.py:160-165 | the ledger after any prefix of the run is contained in the ledger after the whole run |
| `Uploader.SkippedAfterUpload` | src/uploader.py:66-68 | once a call has uploaded a path, every later call with the same path finds it in the ledger and is skipped |
| `Uploader.FailureIsolation` | src/uploader.py:97-107 | with three fresh candidates whose second upload fails, all three are sent, and the ledger gains only the first and the third |
| `Uploader.NextRunExcludesUploaded` | src/uploader.py:117-132 | filtering against the ledger a run leaves behind excludes every path the run uploaded and every path already in the initial ledger |
| `Uploader.UploadAll` | src/uploader.py:160-165 | the loop leaves the ledger equal to `LedgerAfter` of the selected paths; the platform's calls gain exactly the `Sent` requests and its published videos exactly the `Accepted` requests, each with the video's own title and description and the default category and privacy; the log still decodes to the ledger; when no upload is accepted the log is left exactly as it was, and otherwise it is a listing of the final ledger, each path once |
| `Uploader.Run` | src/uploader.py:149-165 | the run succeeds exactly when the log decodes and the manifest exists; on failure it changes neither the log nor the platform; on success it processes min(2, available) records, each copying path, title and description from the available row at its own distinct drawn position, none of them in the loaded ledger; the log left behind decodes to `LedgerAfter` of their paths, and the platform gains exactly the `Sent` calls and `Accepted` publications; when no upload is accepted the log on disk is the one the run started with, and otherwise it is a listing of that final ledger, each path once |

## Left out

- OAuth credentials and building the API client (lines 20-25) are foreign library calls. The client is a `Platform` object whose replies the environment supplies.
- The resumable chunked upload (`MediaFileUpload`, `videos().insert`, `execute`, lines 83-97) is library code. It is modelled as one `Platform.Insert` call per upload, and its 1 MiB chunk size has no counterpart.
- `Unparseable` stands for every error in reading the log that escapes: a decoding error at line 39, and also any `open` or read error other than `FileNotFoundError` at line 38 (for example `PermissionError` or `UnicodeDecodeError`). All of them are reported as `LogNotParseable`.
- JSON and CSV decoding are not modelled. A log is either missing, undecodable, or a decoded list of strings. A JSON value that is not a list of strings is not modelled. A manifest is either missing or a sequence of rows; any other error in opening or reading it at lines 124-126 (for example `PermissionError` or `UnicodeDecodeError`) also escapes, and has no counterpart in `ManifestFile`. A CSV row without one of the three columns (a `KeyError`) is not modelled.
- The source of randomness in `random.sample` is modelled only as a nondeterministic choice of distinct positions (`:|`).
- Console output (`print`, lines 67, 98 and 106) is left out.
- Exceptions other than `HttpError` are not modelled: an unreadable video file, or a failure while writing the log.
- The response dictionary is reduced to its `id`, the only field the code reads.
- `Uploader.Run` requires at least two replies, one per selected video. `replies[k]` answers the k-th selected video if that video is sent. This requirement is on the oracle, not on the program.
- The log path is a constructor parameter in `__init__`, while `select_videos_to_upload` hard-codes `uploaded_videos.json`. `main` uses the default path, and the model makes both read the same log.
