/** What the uploader reads from and writes to its working directory, with
    JSON and CSV decoding abstracted away: a file is either absent, or not
    decodable, or holds the decoded value. */
module Files {

  /** The upload log (`uploaded_videos.json`): a JSON list of video paths. */
  datatype LogFile =
    | Missing                        // open() raises FileNotFoundError
    | Unparseable                    // json.load raises, or open/read raises anything but FileNotFoundError
    | Listing(entries: seq<string>)  // json.load returns this list

  /** One row of `videos/content.csv` as csv.DictReader yields it. */
  datatype ManifestRow = ManifestRow(videoPath: string, title: string, description: string)

  /** The manifest `videos/content.csv`. */
  datatype ManifestFile =
    | ManifestMissing                // open() raises FileNotFoundError
    | Rows(rows: seq<ManifestRow>)

  /** The exceptions that escape to the caller (neither is caught). */
  datatype Error =
    | LogNotParseable      // any error but FileNotFoundError from reading or decoding the upload log
    | ManifestNotFound     // a FileNotFoundError from opening the manifest
}
