# Video downloader: client controller and server core

A model of the two halves of a small video-downloader web application.

The browser controller (`script.js`) reads a URL, posts it to the server's
`/info` endpoint and renders the answer. It shows the title, uploader and a
`m:ss` duration line, and fills a selector with the available formats using
a two-tier policy. It then navigates to the server's `/download` or
`/download-mp3` endpoint. Four display regions are toggled along the way:
loading, preview, error and downloading. The model is the class
`Client.Page`. Its fields are those four visibility flags, the texts it
writes, the selector's options and the navigation target. Each handler is
a method, proved against pure functions of the inputs: `DurationText`,
`FormatOptions`, `VideoDownloadTarget`, `AudioDownloadTarget` and
`RejectionMessage`. How the metadata request settled (ok with a body,
not ok with a `detail`, or an exception) is an input.

The FastAPI server (`main.py`) has three parts in the model. The first is
the `/info` handler: it normalises each format record yt-dlp reports,
projects the response, and funnels every error to status 500. The second is
the filename fallback of `/download`. The third is the extension swap of
`/download-mp3`. yt-dlp's answers are inputs. So are the request body and
the set of paths that exist on disk.

Supporting modules:
- `Js`: the JavaScript semantics the controller depends on. It covers
  truthiness, template-literal `ToString`, `trim`, `padStart` and the
  truncating `%`.
- `Uri`: `encodeURIComponent`, with `decodeURIComponent` as its proved
  inverse.
- `Py`: the Python built-ins the server depends on. It covers truthiness,
  `dict.get`, `str.replace` with every occurrence and the empty-pattern
  case, and `os.path.basename`.
- `Text`: decimal numerals.
- `Lists`: filter and map over sequences.
- `Wrappers`: `Option` and `Result`.

Two facts about the download targets:
- Only the `url` parameter of the `/download` target is percent-encoded.
  `format_id` is appended without encoding (`script.js:111`), and
  `Client.VideoDownloadTarget` does the same.
- The MP3 target is absolute: it is prefixed by `BACKEND_URL`, like the
  video target (`script.js:130`).

A `str(e)` of an `HTTPException` is Starlette's `"<status>: <detail>"`. So
the missing URL ends up as status 500 with detail `"400: URL is required"`,
and a missing video file as `"500: Downloaded file not found"`.

## Model

| member | source | states |
|---|---|---|
| Js.Truthy | script.js:18 | definition of JavaScript truthiness: null, undefined, false, 0 and "" are falsy |
| Js.ToText | script.js:55 | template-literal `${v}`: a truthy value never becomes the empty text |
| Js.Or | script.js:39 | definition of `a \|\| b`: a when it is truthy, else b; stated by Client.RejectionMessage, Client.UploaderLine and Client.FallbackTier |
| Js.TextContent | script.js:54 | definition of the textContent setter: null and undefined become "", anything else its text |
| Js.Trim | script.js:16 | the trimmed URL is empty exactly when the field holds only white space, and otherwise starts and ends with a non-white-space character |
| Js.TrimStart | script.js:16 | the first step of trim removes exactly the leading white space: what it drops is all white space, and what it keeps is the rest of the field, starting with a non-white-space character |
| Js.TrimEnd | script.js:16 | the second step of trim removes exactly the trailing white space in the same way |
| Js.TrimIsInfix | script.js:16 | the trimmed URL is a contiguous part of the field with only white space before and after it |
| Js.TrimIdempotent | script.js:16 | trimming a trimmed URL changes nothing |
| Js.Rem | script.js:59 | `d % 60` lies strictly between -60 and 60, takes the sign of `d`, and differs from `d` by a multiple of 60, which together pin it down as JavaScript's truncating remainder |
| Js.PadStart | script.js:60 | a text shorter than the width is filled on the left with the fill character up to the width; a text that is long enough is unchanged |
| Text.IntToString | script.js:58-60 | definition of the decimal text of an integer (Number::toString, and `str(int)` at main.py:68), a "-" before a negative one; stated by Text.NatToString and Server.HundredsText |
| Text.NatToString | script.js:58-60 | the numeral has no leading zero and denotes the number |
| Client.DurationTextShape | script.js:57-60 | for d seconds the line is "Duration: ", the decimal of d div 60, ":", then d mod 60 as exactly two digits; there is no hours field |
| Client.PadTwoDigits | script.js:60 | padStart(2, "0") of the decimal of a number below 100 is that number as exactly two digits |
| Client.ParseDurationOf | script.js:60 | a line of "Duration: ", a numeral, ":" and two digits below 60 reads back as minutes × 60 + seconds |
| Client.DurationRoundTrip | script.js:57-60 | the duration line for d seconds parses back to d |
| Client.DurationSingleColon | script.js:57-60 | after the "Duration: " prefix the line's only colon is the one before the two seconds digits, so no hours field appears |
| Client.DurationPadsSeconds | script.js:57-60 | seconds below ten get a leading zero: 125 s gives "Duration: 2:05" |
| Client.DurationNoHours | script.js:57-60 | minutes are not wrapped into hours: 3661 s gives "Duration: 61:01" |
| Client.DurationText | script.js:57-60 | definition of the duration line; its shape and round trip are stated by Client.DurationTextShape, Client.DurationRoundTrip and Client.DurationSingleColon |
| Client.ShownDuration | script.js:57-61 | definition of the `if (data.duration)` guard; what it means is stated by Client.ShownDurationLine |
| Client.ShownDurationLine | script.js:57-61 | a present, non-zero duration is written as its duration line, which parses back to the duration when it is positive; a missing or zero duration leaves the previous line |
| Client.FixedTwoDigits | script.js:77 | toFixed(2) of n hundredths is n div 100, a point, and n mod 100 as two digits |
| Client.SizeText | script.js:77 | definition of `(filesize / (1024 * 1024)).toFixed(2)`; its value is stated by Client.SizeTextValue |
| Client.FixedTwo | script.js:77 | definition of toFixed(2)'s rendering of n hundredths; stated by Client.FixedTwoDigits |
| Client.SizeTextValue | script.js:75-79 | the size is the number of hundredths of a megabyte nearest to \|filesize\| / 1048576, ties away from zero, written with two decimals, with a leading "-" for a negative size |
| Lists.Filter | script.js:68 | definition of Array.prototype.filter: the elements that satisfy the predicate, in order; stated by Lists.FilterSelects and Lists.FilterEmpty |
| Lists.FilterSelects | script.js:68 | a filter keeps exactly the elements that satisfy the predicate, in their original order |
| Lists.FilterEmpty | script.js:70 | a filter is empty exactly when no element satisfies the predicate |
| Client.HasSize | script.js:68 | definition of the truthiness of `format.filesize`: present and non-zero; stated by Client.PrimaryTier and Client.PrimaryLabel |
| Client.SizeSuffix | script.js:75-79 | definition of the size part of a label: " (<size> MB)" for a truthy filesize, else empty; stated by Client.PrimaryLabel |
| Client.IsPrimary | script.js:68 | definition of the primary-tier filter `f.format_note && f.filesize`; stated by Client.PrimaryTier |
| Client.IsFallback | script.js:87 | definition of the fallback test: a truthy note other than "audio only"; stated by Client.FallbackTier |
| Client.PrimaryOption | script.js:72-81 | definition of a primary-tier option; stated by Client.PrimaryLabel |
| Client.FallbackOption | script.js:88-90 | definition of a fallback option, labelled "note - ext"; stated by Client.FallbackTier |
| Client.FormatOptions | script.js:64-94 | definition of the two-tier option list; stated by Client.PrimaryTier, Client.FallbackTier and Client.OptionValuesFromFormats |
| Client.PrimaryLabel | script.js:75-81 | a format with a truthy note and filesize is labelled "note - ext (size MB)", the size part always present, and valued by its format_id |
| Client.PrimaryTier | script.js:68-83 | when some format has a truthy note and a non-zero filesize, the options are exactly those formats in order, labelled "note - ext (size MB)" and valued by format_id |
| Client.FallbackTier | script.js:84-93 | when no format qualifies for the primary tier, the options are exactly the formats whose note is truthy and not "audio only", in order, labelled "note - ext" and valued by format_id |
| Client.OptionValuesFromFormats | script.js:71-93 | every option value is the format_id of one of the formats the options were built from |
| Client.SelectedFromFormats | script.js:101 | a selected option's value is the format_id of one of the formats the options were built from |
| Client.SelectedValue | script.js:101 | definition of `formatSelect.value`: the chosen option's value, or "" for an empty selector; stated by Client.SelectedFromFormats and Client.Page.DownloadVideo |
| Client.RejectionMessage | script.js:37-39 | a non-ok response yields its detail when that is truthy and "Failed to get video info" otherwise; the message is never empty |
| Client.FailureText | script.js:37-46 | definition of the message a failed request shows: the rejection message or the exception's message; stated by Client.RejectionMessage and Client.Page.LoadInfo |
| Client.VideoDownloadTarget | script.js:111 | definition of the `/download` target; stated by Client.VideoTargetCarriesUrl |
| Client.AudioDownloadTarget | script.js:130 | definition of the `/download-mp3` target; stated by Client.AudioTargetCarriesUrl |
| Uri.EncodeURIComponent | script.js:111 | the encoded URL holds only unreserved characters, "%" and upper-case hex digits |
| Uri.Utf8RoundTrip | script.js:111 | the UTF-8 octets of a character decode back to it |
| Uri.DecodeEscapes | script.js:111 | a run of escapes holding the UTF-8 octets of one character decodes to that character, with decoding continuing after the run |
| Uri.DecodeEncode | script.js:111 | decodeURIComponent recovers the URL from its encoding |
| Uri.EncodedHasNoDelimiters | script.js:111 | the encoded URL holds no "&", "=", "#", "?", "+" or space |
| Client.VideoTargetCarriesUrl | script.js:111 | in the video target, the url parameter runs up to the first "&" and decodes to the trimmed URL; what follows is "&format_id=" and the format id, not encoded |
| Client.SplitAtDelimiter | script.js:111 | a query string built as prefix, a part free of the delimiter, and a rest starting with it splits back into exactly those three pieces |
| Client.AudioTargetCarriesUrl | script.js:130 | in the MP3 target, everything after "?url=" is the encoded URL; it holds no "&" or "#" and decodes to the trimmed URL |
| Client.UploaderText | script.js:55 | definition of the uploader line; what it means is stated by Client.UploaderLine |
| Client.UploaderLine | script.js:55 | a truthy uploader is shown as "Uploader: " and its text; any falsy uploader (null, undefined, "", 0, false) is shown as "Uploader: Unknown" |
| Client.Rendered | script.js:52-97 | definition of the screen after displayVideoInfo; Client.Page.DisplayVideoInfo is proved to produce it |
| Client.Page.ShowError | script.js:138-143 | the message becomes the error text, the error region is shown, the loading indicator is hidden, and nothing else changes |
| Client.Page.GetVideoInfo | script.js:15-50 | a blank URL shows "Please paste a video URL" and makes no request. Otherwise the trimmed URL is requested. A received body is rendered with the error hidden. A failure shows its message with the preview hidden. Loading is off whatever the outcome |
| Client.Page.LoadInfo | script.js:23-49 | loading on, then preview and error hidden; a received body is rendered with the error still hidden; a failure shows its message with the preview hidden; loading is off at the end |
| Client.Page.DisplayVideoInfo | script.js:52-97 | the header texts, duration line and options become those rendered from the data, the preview is shown, and the options are the ones for the data's formats |
| Client.Page.ShowDetails | script.js:53-61 | the thumbnail source and title are those of the data; the uploader line names a truthy uploader and says "Unknown" otherwise; a non-zero duration is written as its duration line, which parses back to a positive duration; a missing or zero duration keeps the old line |
| Client.Page.PopulateFormatOptions | script.js:64-94 | after clearing and appending, the selector holds exactly the options for the given formats, whatever it held before |
| Client.Page.AppendPrimaryOptions | script.js:71-83 | the loop appends exactly one labelled option per primary-tier format, in order, after what the selector already held |
| Client.Page.AppendFallbackOptions | script.js:86-93 | the loop appends exactly one option per format with a truthy note other than "audio only", in order, after what the selector already held |
| Client.Page.DownloadVideo | script.js:99-113 | a blank URL or empty selection shows "Please select a format" and does not navigate; otherwise the downloading region is shown, the page navigates to the video target, and the format id is that of a displayed format |
| Client.Page.DownloadFormat | script.js:100-113 | with a blank URL or an empty format id, shows "Please select a format" and does not navigate; otherwise shows the downloading region and navigates to the video target, nothing else changing |
| Client.Page.StartDownload | script.js:108-112 | the downloading region is shown and the location is the target |
| Client.Page.DownloadMp3 | script.js:120-131 | a blank URL shows "Please enter a URL" and does not navigate; otherwise the downloading region is shown and the page navigates to the MP3 target |
| Client.Page.HideDownloading | script.js:115-117 | the timer callback hides the downloading region and changes nothing else |
| Py.Truthy | main.py:32 | definition of Python truthiness for the values the server tests: None, False, 0 and "" are falsy |
| Py.Get | main.py:30 | definition of `d.get(k, default)`; the values it reads are stated by Server.Normalise and Server.GetVideoInfo |
| Py.Replace | main.py:90 | definition of `str.replace` with no count, empty pattern included; stated by the Py.Replace… and Py.InsertAround… rows |
| Py.InsertAround | main.py:90 | replacing the empty pattern gives \|s\| + (\|s\| + 1) × \|new\| characters |
| Py.InsertAroundGap | main.py:90 | replacing the empty pattern puts one copy of the replacement in the gap before each character: gap i starts at i × (\|new\| + 1) and is followed by character i |
| Py.InsertAroundEnd | main.py:90 | the last gap, after the final character, holds the replacement too |
| Py.ReplaceFirstOccurrence | main.py:90 | replace swaps the first occurrence and continues scanning after it |
| Py.ReplaceAbsent | main.py:90 | a name without an occurrence of the pattern is unchanged |
| Py.ReplaceSuffixOnly | main.py:90 | when the pattern occurs only as the suffix, exactly that suffix is replaced |
| Py.ReplaceEveryOccurrence | main.py:90 | every occurrence is replaced, not only the extension at the end: "webm.webm" becomes "mp4.mp4" |
| Py.Basename | main.py:100 | the file name is the longest suffix of the path without "/" |
| Py.BasenameOfJoin | main.py:100 | a name joined under a directory is recovered by basename |
| Server.NoteOf | main.py:47-49 | the note is a truthy format_note; otherwise the resolution value, with "unknown" only when there is no resolution key |
| Server.NoteFalsyOnlyFromResolution | main.py:47-49 | a falsy note can only be an explicit falsy resolution |
| Server.Normalise | main.py:51-57 | each output entry has exactly the keys format_id, ext, format_note, filesize and url; four are copied, with None for a missing key, and the note is defaulted |
| Server.NormaliseFormats | main.py:45-57 | the output list has the length and order of the source list, entry by entry normalised |
| Server.Project | main.py:59-65 | definition of the response dict; what it holds is stated by Server.GetVideoInfo |
| Server.RequestedUrl | main.py:30 | definition of `data.get("url")`, None when the key is missing; stated by Server.GetVideoInfo |
| Server.StrOf | main.py:68 | definition of `str(e)`: "<status>: <detail>" for an HTTPException, the message otherwise; stated by Server.ReraisedDetail |
| Server.Funnel | main.py:67-68 | definition of the `except Exception` clause: status 500 with `str(e)` as the detail; stated by Server.ReraisedDetail, Server.GetVideoInfo, Server.DownloadVideo and Server.DownloadMp3 |
| Server.HundredsText | main.py:68 | the decimal text of 100, 200, …, 900 is the digit followed by "00", as in a status code inside `str(e)` |
| Server.ReraisedDetail | main.py:67-68 | a re-raised HTTPException of status 400 or 500 comes out as status 500, its own status kept only inside the detail as "400: " or "500: " before the detail |
| Server.GetVideoInfo | main.py:27-68 | every failure is status 500, the missing or empty URL included, with detail "400: URL is required". There is a response exactly when the body is readable, the URL is truthy and extraction succeeds. Its formats are the normalised source formats, empty when the key is missing |
| Server.Candidate | main.py:90 | definition of the file name tried for one fallback extension; stated by Server.CandidateOfSuffix and Server.ChooseVideoFile |
| Server.CandidateOfSuffix | main.py:89-90 | when the extension occurs only at the end of the prepared name, each candidate is the name with the extension swapped |
| Server.ChooseVideoFile | main.py:86-96 | the prepared name when it exists; otherwise the first existing candidate in the order mp4, webm, mkv; it fails with "Downloaded file not found" exactly when none exists |
| Server.DownloadVideo | main.py:71-105 | a file response under its basename as application/octet-stream, for the prepared name when it exists and otherwise for the first existing candidate in the order mp4, webm, mkv; a download error gives 500 with its message; when no file exists, 500 "500: Downloaded file not found" |
| Server.Mp3Path | main.py:126 | definition of the MP3 path: every occurrence of the extension replaced by "mp3"; stated by Server.Mp3PathOfSuffix |
| Server.Mp3PathOfSuffix | main.py:126 | when the extension occurs only at the end of the prepared name, the MP3 path is that name ending in "mp3" |
| Server.DownloadMp3 | main.py:108-138 | the path with every occurrence of the extension replaced by "mp3" is served as audio/mpeg when it exists; otherwise 500 "500: MP3 file not found"; a download error gives 500 with its message |

## Left out

- Event listeners and the Enter-key binding (script.js:4-13): they only call the modelled handlers.
- The `fetch` call and the JSON parsing (script.js:29-42): the outcome is an input of `Client.Page.GetVideoInfo`.
- Navigation and the 3-second timer (script.js:112-117, 131-135): the target is stored in `location`. The timer's effect is the separate method `Client.Page.HideDownloading`, with no clock.
- Overlapping or stale metadata requests: each call of `Client.Page.GetVideoInfo` settles before the next one starts.
- The initial visibility of the regions is set by the HTML page, which is not part of this model. The constructor starts with all of them hidden.
- JSON numbers are integers in the model. A fractional duration or filesize, the precision loss above 2^53, and the exponent notation Number::toString uses from 10^21 on are not represented.
- SizeText: states toFixed(2) of a binary64 quotient exactly only for filesizes up to 2^53 in magnitude.
- A `detail` that is an object or an array (the error shape of FastAPI's own validation errors) is not represented.
- `data.formats` missing or not an array (a TypeError in displayVideoInfo) is not represented.
- `encodeURIComponent`'s URIError for a lone surrogate: `char` values are Unicode scalar values, so every URL encodes.
- The `src` attribute resolving the thumbnail against the page URL is not modelled. `thumbnailSrc` is the assigned text.
- yt-dlp extraction and downloading, FFmpeg, `os.path.exists`, `os.makedirs`, uuid, CORS, routing and the startup hook (main.py:1-24, 41-42, 74-84, 110-125, 141-144): they are foreign library calls, file I/O and randomness. Their results are inputs, and file existence is a set of paths.
- An `info['formats']` that is not a list, entries that are not dicts, and an `ext` that is not a string are not represented. Each raises inside the `try` in the source, and its message would be funnelled like any other failure.
- Lists, dicts and floats among the values yt-dlp reports are not represented. yt-dlp gives format_note, the only one of its values the server tests (main.py:48), as a string or None; the other values, resolution included, are copied unchanged.
- A list or object `url` in the /info body is not represented: `Py.PyVal` has no list or dict value. In the source an empty one fails the `not url` test at main.py:32 like None, and a non-empty one is passed on to extraction.
