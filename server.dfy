/** The FastAPI server of main.py: the /info handler that normalises the
    format list yt-dlp reports, and the filename choice of /download and
    /download-mp3. yt-dlp, the request body and the file system are inputs. */
module Server {
  import opened Wrappers
  import opened Text
  import opened Py

  /** What ydl.extract_info returns: its top-level keys, and the 'formats'
      list apart (None when that key is absent). */
  datatype Info = Info(fields: Dict, formats: Option<seq<Dict>>)

  /** The JSON /info answers with, keys 'title', 'thumbnail', 'duration',
      'uploader' and 'formats'. */
  datatype InfoResponse = InfoResponse(title: PyVal, thumbnail: PyVal, duration: PyVal,
                                       uploader: PyVal, formats: seq<Dict>)

  /** An exception raised inside a handler's try block. */
  datatype Raised = HttpRaised(status: int, detail: string) | OtherRaised(message: string)

  /** The HTTP error a handler finally answers with. */
  datatype HttpError = HttpError(status: int, detail: string)

  /** The request body of /info: a JSON object, or whatever made
      request.json() or .get fail, given by its message. */
  datatype RequestBody = JsonObject(fields: Dict) | Unreadable(message: string)

  /** The outcome of ydl.extract_info for the requested url. */
  datatype Extraction = Extracted(info: Info) | ExtractionFailed(message: string)

  /** The outcome of a download: the name ydl.prepare_filename gives and
      info.get('ext', '') as a string, or the message of the error. */
  datatype Download = Downloaded(prepared: string, ext: string) | DownloadFailed(message: string)

  /** A FileResponse. */
  datatype FileReply = FileReply(path: string, filename: string, mediaType: string)

  const FormatKeys: set<string> := {"format_id", "ext", "format_note", "filesize", "url"}
  const Fallbacks: seq<string> := ["mp4", "webm", "mkv"]

  /** The details the handlers raise themselves. */
  const UrlRequired: string := "URL is required"
  const VideoNotFound: string := "Downloaded file not found"
  const Mp3NotFound: string := "MP3 file not found"

  /** str(e): an HTTPException prints as "<status>: <detail>". */
  function StrOf(e: Raised): string {
    match e
    case HttpRaised(status, detail) => IntToString(status) + ": " + detail
    case OtherRaised(message) => message
  }

  /** The `except Exception` clause every handler ends with. */
  function Funnel(e: Raised): HttpError {
    HttpError(500, StrOf(e))
  }

  /** The note of one format: a truthy format_note, else resolution, else
      'unknown'. */
  function NoteOf(f: Dict): (r: PyVal)
    ensures "format_note" in f && Truthy(f["format_note"]) ==> r == f["format_note"]
    ensures !("format_note" in f && Truthy(f["format_note"])) ==>
              r == (if "resolution" in f then f["resolution"] else PyStr("unknown"))
  {
    var note := Get(f, "format_note", PyStr(""));
    if Truthy(note) then note else Get(f, "resolution", PyStr("unknown"))
  }

  /** A falsy note is only ever an explicit falsy resolution; 'unknown' fills
      in only when both keys are falsy or missing. */
  lemma NoteFalsyOnlyFromResolution(f: Dict)
    ensures !Truthy(NoteOf(f)) ==> "resolution" in f && NoteOf(f) == f["resolution"]
    ensures NoteOf(f) == PyStr("unknown") ==>
              (("format_note" in f && f["format_note"] == PyStr("unknown")) ||
               ("resolution" in f && f["resolution"] == PyStr("unknown")) ||
               "resolution" !in f)
  {
  }

  /** The dict appended for one format: exactly five keys, four copied with
      None for a missing key, and the defaulted note. */
  function Normalise(f: Dict): (r: Dict)
    ensures r.Keys == FormatKeys
    ensures r["format_id"] == Get(f, "format_id", PyNone)
    ensures r["ext"] == Get(f, "ext", PyNone)
    ensures r["filesize"] == Get(f, "filesize", PyNone)
    ensures r["url"] == Get(f, "url", PyNone)
    ensures r["format_note"] == NoteOf(f)
  {
    map["format_id" := Get(f, "format_id", PyNone),
        "ext" := Get(f, "ext", PyNone),
        "format_note" := NoteOf(f),
        "filesize" := Get(f, "filesize", PyNone),
        "url" := Get(f, "url", PyNone)]
  }

  /** The loop over info.get('formats', []): one entry per source format, in
      the same order. */
  method NormaliseFormats(source: seq<Dict>) returns (formats: seq<Dict>)
    ensures |formats| == |source|
    ensures forall i :: 0 <= i < |source| ==> formats[i] == Normalise(source[i])
  {
    formats := [];
    for i := 0 to |source|
      invariant |formats| == i
      invariant forall k :: 0 <= k < i ==> formats[k] == Normalise(source[k])
    {
      formats := formats + [Normalise(source[i])];
    }
  }

  /** The response dict: four values read from info, and the formats. */
  function Project(info: Info, formats: seq<Dict>): InfoResponse {
    InfoResponse(Get(info.fields, "title", PyNone), Get(info.fields, "thumbnail", PyNone),
                 Get(info.fields, "duration", PyNone), Get(info.fields, "uploader", PyNone),
                 formats)
  }

  /** The url the body names, None when it has none. */
  function RequestedUrl(body: RequestBody): PyVal
    requires body.JsonObject?
  {
    Get(body.fields, "url", PyNone)
  }

  /** The decimal text of a whole number of hundreds below 1000. */
  lemma HundredsText(h: nat)
    requires 1 <= h <= 9
    ensures IntToString(100 * h) == [DigitChar(h), '0', '0']
  {
    assert DigitChar(0) == '0';
    assert NatToString(h) == [DigitChar(h)];
    assert (10 * h) / 10 == h && (10 * h) % 10 == 0;
    assert NatToString(10 * h) == [DigitChar(h), '0'];
    assert (100 * h) / 10 == 10 * h && (100 * h) % 10 == 0;
    assert NatToString(100 * h) == [DigitChar(h), '0'] + ['0'];
  }

  /** A re-caught HTTPException of status 400 or 500 comes out as status 500
      with its own status in front of its detail. */
  lemma ReraisedDetail(status: int, detail: string)
    requires status == 400 || status == 500
    ensures Funnel(HttpRaised(status, detail)) ==
              HttpError(500, (if status == 400 then "400: " else "500: ") + detail)
  {
    HundredsText(status / 100);
    assert DigitChar(4) == '4' && DigitChar(5) == '5';
    var p := IntToString(status) + ": ";
    assert p == (if status == 400 then "400: " else "500: ");
    assert IntToString(status) + ": " + detail == p + detail;
  }

  /** get_video_info: every failure, the missing url included, is answered
      with status 500; a success projects the normalised formats. */
  method GetVideoInfo(body: RequestBody, extraction: Extraction) returns (r: Result<InfoResponse, HttpError>)
    ensures r.Failure? ==> r.error.status == 500
    ensures r.Success? <==> body.JsonObject? && Truthy(RequestedUrl(body)) && extraction.Extracted?
    ensures body.Unreadable? ==> r == Failure(HttpError(500, body.message))
    ensures body.JsonObject? && !Truthy(RequestedUrl(body)) ==>
              r == Failure(HttpError(500, "400: " + UrlRequired))
    ensures body.JsonObject? && Truthy(RequestedUrl(body)) && extraction.ExtractionFailed? ==>
              r == Failure(HttpError(500, extraction.message))
    ensures r.Success? ==>
              var info := extraction.info;
              var source := info.formats.GetOr([]);
              r.value.title == Get(info.fields, "title", PyNone) &&
              r.value.thumbnail == Get(info.fields, "thumbnail", PyNone) &&
              r.value.duration == Get(info.fields, "duration", PyNone) &&
              r.value.uploader == Get(info.fields, "uploader", PyNone) &&
              |r.value.formats| == |source| &&
              (forall i :: 0 <= i < |source| ==> r.value.formats[i] == Normalise(source[i]))
    ensures r.Success? && extraction.info.formats.None? ==> r.value.formats == []
  {
    var raised: Raised;
    match body {
      case Unreadable(message) =>
        raised := OtherRaised(message);
      case JsonObject(fields) =>
        var url := Get(fields, "url", PyNone);
        if !Truthy(url) {
          raised := HttpRaised(400, UrlRequired);
          ReraisedDetail(400, UrlRequired);
        } else {
          match extraction {
            case ExtractionFailed(message) =>
              raised := OtherRaised(message);
            case Extracted(info) =>
              var formats := NormaliseFormats(info.formats.GetOr([]));
              return Success(Project(info, formats));
          }
        }
    }
    return Failure(Funnel(raised));
  }

  /** The candidate tried for one fallback extension: every occurrence of ext
      in the prepared name replaced. */
  function Candidate(prepared: string, ext: string, k: nat): string
    requires k < |Fallbacks|
  {
    Replace(prepared, ext, Fallbacks[k])
  }

  /** When the extension occurs in the prepared name only as its suffix, each
      candidate is that name with the extension swapped. */
  lemma CandidateOfSuffix(stem: string, ext: string, k: nat)
    requires k < |Fallbacks| && ext != [] && NoOccurrenceBefore(stem + ext, ext, |stem|)
    ensures Candidate(stem + ext, ext, k) == stem + Fallbacks[k]
  {
    ReplaceSuffixOnly(stem, ext, Fallbacks[k]);
  }

  /** The filename fallback of download_video: the prepared name when it
      exists, else the first candidate that exists, in the order mp4, webm,
      mkv; an error when none does. */
  method ChooseVideoFile(prepared: string, ext: string, existing: set<string>) returns (r: Result<string, Raised>)
    ensures r.Success? ==> r.value in existing
    ensures prepared in existing ==> r == Success(prepared)
    ensures prepared !in existing && r.Success? ==>
              exists k :: 0 <= k < |Fallbacks| && r.value == Candidate(prepared, ext, k) &&
                          forall j :: 0 <= j < k ==> Candidate(prepared, ext, j) !in existing
    ensures r.Failure? <==>
              prepared !in existing && forall k :: 0 <= k < |Fallbacks| ==> Candidate(prepared, ext, k) !in existing
    ensures r.Failure? ==> r.error == HttpRaised(500, VideoNotFound)
  {
    var filename := prepared;
    if filename !in existing {
      for k := 0 to |Fallbacks|
        invariant filename == prepared
        invariant forall j :: 0 <= j < k ==> Candidate(prepared, ext, j) !in existing
      {
        var test := Replace(filename, ext, Fallbacks[k]);
        if test in existing {
          filename := test;
          assert filename == Candidate(prepared, ext, k);
          break;
        }
      }
    }
    if filename !in existing {
      return Failure(HttpRaised(500, VideoNotFound));
    }
    return Success(filename);
  }

  /** download_video: the chosen file, offered under its basename. */
  method DownloadVideo(download: Download, existing: set<string>) returns (r: Result<FileReply, HttpError>)
    ensures r.Failure? ==> r.error.status == 500
    ensures download.DownloadFailed? ==> r == Failure(HttpError(500, download.message))
    ensures r.Success? ==>
              download.Downloaded? && r.value.path in existing &&
              r.value.filename == Basename(r.value.path) &&
              r.value.mediaType == "application/octet-stream"
    ensures download.Downloaded? && download.prepared in existing ==> r.Success? && r.value.path == download.prepared
    ensures download.Downloaded? && download.prepared !in existing && r.Success? ==>
              exists k :: 0 <= k < |Fallbacks| && r.value.path == Candidate(download.prepared, download.ext, k) &&
                          forall j :: 0 <= j < k ==> Candidate(download.prepared, download.ext, j) !in existing
    ensures download.Downloaded? && r.Failure? ==>
              r.error == HttpError(500, "500: " + VideoNotFound) &&
              download.prepared !in existing &&
              forall k :: 0 <= k < |Fallbacks| ==> Candidate(download.prepared, download.ext, k) !in existing
  {
    match download {
      case DownloadFailed(message) =>
        r := Failure(Funnel(OtherRaised(message)));
      case Downloaded(prepared, ext) =>
        var chosen := ChooseVideoFile(prepared, ext, existing);
        match chosen {
          case Success(path) =>
            r := Success(FileReply(path, Basename(path), "application/octet-stream"));
          case Failure(e) =>
            ReraisedDetail(500, VideoNotFound);
            r := Failure(Funnel(e));
        }
    }
  }

  /** The MP3 path: every occurrence of the extension replaced by 'mp3'. */
  function Mp3Path(prepared: string, ext: string): string {
    Replace(prepared, ext, "mp3")
  }

  /** When the extension occurs in the prepared name only as its suffix, the
      MP3 path is that name with the extension swapped for 'mp3'. */
  lemma Mp3PathOfSuffix(stem: string, ext: string)
    requires ext != [] && NoOccurrenceBefore(stem + ext, ext, |stem|)
    ensures Mp3Path(stem + ext, ext) == stem + "mp3"
  {
    ReplaceSuffixOnly(stem, ext, "mp3");
  }

  /** download_mp3: the converted file when it exists, else an error. */
  function DownloadMp3(download: Download, existing: set<string>): (r: Result<FileReply, HttpError>)
    ensures r.Failure? ==> r.error.status == 500
    ensures download.DownloadFailed? ==> r == Failure(HttpError(500, download.message))
    ensures download.Downloaded? ==>
              var path := Mp3Path(download.prepared, download.ext);
              (path in existing ==> r == Success(FileReply(path, Basename(path), "audio/mpeg"))) &&
              (path !in existing ==> r == Failure(HttpError(500, "500: " + Mp3NotFound)))
  {
    match download
    case DownloadFailed(message) => Failure(Funnel(OtherRaised(message)))
    case Downloaded(prepared, ext) =>
      var path := Mp3Path(prepared, ext);
      if path in existing then Success(FileReply(path, Basename(path), "audio/mpeg"))
      else
        ReraisedDetail(500, Mp3NotFound);
        Failure(Funnel(HttpRaised(500, Mp3NotFound)))
  }
}
