/** The browser-side controller of script.js: what it renders from a metadata
    response (duration text, the two-tier list of format options), the download
    targets it navigates to, and the visibility flags and texts it changes. The
    DOM is modelled by the class Page; the outcome of the metadata request is an
    input. */
module Client {
  import opened Wrappers
  import opened Text
  import opened Lists
  import opened Js
  import opened Uri

  const BackendUrl: string := "http://127.0.0.1:8000"

  /** One entry of data.formats. A filesize is a JSON number or null/missing (None). */
  datatype ClientFormat = ClientFormat(formatId: JsVal, formatNote: JsVal, ext: JsVal, filesize: Option<int>)

  /** The metadata body of a successful /info response. A duration is a JSON
      number or null/missing (None). */
  datatype VideoData = VideoData(
    title: JsVal, thumbnail: JsVal, duration: Option<int>, uploader: JsVal, formats: seq<ClientFormat>)

  /** How the metadata request settled: an ok response with its body, a non-ok
      response whose JSON body has the given detail property, or an exception
      (the request failed, or a body was not JSON) with its message. */
  datatype FetchOutcome = Received(data: VideoData) | Rejected(detail: JsVal) | Thrown(message: string)

  datatype SelectOption = SelectOption(value: string, text: string)

  // ---------------------------------------------------------------------------
  // Duration text

  /** The duration line for d seconds: Math.floor(d / 60), ":", then d % 60 padded
      to two characters. Dafny's division by a positive divisor is Math.floor's. */
  function DurationText(d: int): string {
    "Duration: " + IntToString(d / 60) + ":" + PadStart(IntToString(Rem(d, 60)), 2, '0')
  }

  /** For a non-negative duration the line is the minutes, one colon, and the
      seconds below 60 as exactly two digits: there is no hours field. */
  lemma {:induction false} DurationTextShape(d: nat)
    ensures DurationText(d) == "Duration: " + NatToString(d / 60) + ":" + TwoDigits(d % 60)
  {
    assert Rem(d, 60) == d % 60;
    PadTwoDigits(d % 60);
  }

  /** padStart(2, '0') of a number below 100 is its two-digit form. */
  lemma PadTwoDigits(n: nat)
    requires n < 100
    ensures PadStart(NatToString(n), 2, '0') == TwoDigits(n)
  {
    NatToStringBelowHundred(n);
    if n < 10 {
      var t := TwoDigits(n);
      assert t[0] == '0';
      assert PadStart(NatToString(n), 2, '0') == Repeat('0', 1) + t[1..];
      assert Repeat('0', 1) == [t[0]];
    }
  }

  /** Reads a duration line back into seconds. */
  function ParseDuration(t: string): Option<nat> {
    var p := "Duration: ";
    if |t| < |p| + 4 || t[..|p|] != p || t[|t| - 3] != ':' then None
    else
      var minutes := t[|p|..|t| - 3];
      var seconds := t[|t| - 2..];
      if AllDigits(minutes) && AllDigits(seconds) && DigitsValue(seconds) < 60 then
        Some(DigitsValue(minutes) * 60 + DigitsValue(seconds))
      else
        None
  }

  /** A line built from a numeral and two digits below 60 parses to their value. */
  lemma {:induction false} ParseDurationOf(m: string, two: string)
    requires m != [] && AllDigits(m) && |two| == 2 && AllDigits(two) && DigitsValue(two) < 60
    ensures ParseDuration("Duration: " + m + ":" + two) == Some(DigitsValue(m) * 60 + DigitsValue(two))
  {
    var t := "Duration: " + m + ":" + two;
    assert t[..10] == "Duration: ";
    assert t[|t| - 3] == ':';
    assert t[10..|t| - 3] == m;
    assert t[|t| - 2..] == two;
  }

  /** The duration line parses back to the duration it was made from. */
  lemma {:induction false} DurationRoundTrip(d: nat)
    ensures ParseDuration(DurationText(d)) == Some(d)
  {
    var m := NatToString(d / 60);
    var two := TwoDigits(d % 60);
    assert ParseDuration("Duration: " + m + ":" + two) == Some(d) by {
      ParseDurationOf(m, two);
      assert DigitsValue(m) * 60 + DigitsValue(two) == d by {
        assert DigitsValue(m) == d / 60 && DigitsValue(two) == d % 60;
      }
    }
    DurationTextShape(d);
  }

  /** The only colon after the "Duration: " prefix is the one before the two
      seconds digits, so no hours field is ever produced. */
  lemma {:induction false} DurationSingleColon(d: nat)
    ensures forall i :: 10 <= i < |DurationText(d)| && DurationText(d)[i] == ':' ==> i == |DurationText(d)| - 3
  {
    var m := NatToString(d / 60);
    var t := "Duration: " + m + ":" + TwoDigits(d % 60);
    assert forall i :: 10 <= i < |t| && t[i] == ':' ==> i == |t| - 3 by {
      forall i | 10 <= i < |t| - 3
        ensures t[i] != ':'
      {
        assert t[i] == m[i - 10];
      }
    }
    DurationTextShape(d);
  }

  /** Seconds below ten get a leading zero: 125 s is "2:05". */
  lemma DurationPadsSeconds()
    ensures DurationText(125) == "Duration: 2:05"
  {
    assert 125 / 60 == 2 && Rem(125, 60) == 5;
    assert DigitChar(2) == '2' && DigitChar(5) == '5';
    assert IntToString(2) == "2" && IntToString(5) == "5";
    assert PadStart("5", 2, '0') == "05";
  }

  /** There is no hours field: 3661 s is "61:01". */
  lemma DurationNoHours()
    ensures DurationText(3661) == "Duration: 61:01"
  {
    assert 3661 / 60 == 61 && Rem(3661, 60) == 1;
    assert DigitChar(6) == '6' && DigitChar(1) == '1';
    assert NatToString(61) == NatToString(6) + [DigitChar(1)];
    assert IntToString(61) == "61" && IntToString(1) == "1";
    assert PadStart("1", 2, '0') == "01";
  }

  // ---------------------------------------------------------------------------
  // Size text: (filesize / (1024 * 1024)).toFixed(2)

  /** Number.prototype.toFixed(2) of filesize / 1048576. For an integer of at most
      2^53 in magnitude the quotient is exact in binary64, so toFixed's n (the
      integer closest to 100 times the quotient, ties to the larger) is integer
      arithmetic. */
  function SizeText(filesize: int): string {
    var x := if filesize < 0 then -filesize else filesize;
    (if filesize < 0 then "-" else "") + FixedTwo((x * 100 + 524288) / 1048576)
  }

  /** toFixed's rendering of n hundredths: the digits of n, padded with zeros to at
      least three, with a point before the last two. */
  function FixedTwo(n: nat): string {
    var m := NatToString(n);
    var padded := if |m| <= 2 then Repeat('0', 3 - |m|) + m else m;
    padded[..|padded| - 2] + "." + padded[|padded| - 2..]
  }

  lemma FixedTwoDigits(n: nat)
    ensures FixedTwo(n) == NatToString(n / 100) + "." + TwoDigits(n % 100)
  {
    if n >= 100 {
      NatToStringLastTwo(n);
      var m := NatToString(n);
      assert m[..|m| - 2] == NatToString(n / 100);
      assert m[|m| - 2..] == TwoDigits(n % 100);
    } else {
      NatToStringBelowHundred(n);
      if n < 10 {
        assert NatToString(n) == [DigitChar(n)];
        assert Repeat('0', 2) + NatToString(n) == "00" + [DigitChar(n)];
      } else {
        assert Repeat('0', 1) + NatToString(n) == "0" + TwoDigits(n);
      }
    }
  }

  /** For the number n of hundredths of a megabyte nearest to |filesize| (ties
      away from zero), the text is n / 100 in decimal, a point, and two digits. */
  lemma SizeTextValue(filesize: int, n: nat)
    requires var x := if filesize < 0 then -filesize else filesize;
      100 * x - 524288 < n * 1048576 <= 100 * x + 524288
    ensures SizeText(filesize) == (if filesize < 0 then "-" else "") + NatToString(n / 100) + "." + TwoDigits(n % 100)
  {
    var x := if filesize < 0 then -filesize else filesize;
    assert n == (x * 100 + 524288) / 1048576;
    FixedTwoDigits(n);
  }

  // ---------------------------------------------------------------------------
  // Format options

  predicate HasSize(f: ClientFormat) {
    f.filesize.Some? && f.filesize.value != 0
  }

  /** `f.format_note && f.filesize` */
  predicate IsPrimary(f: ClientFormat) {
    Truthy(f.formatNote) && HasSize(f)
  }

  /** `format.format_note && format.format_note !== 'audio only'` */
  predicate IsFallback(f: ClientFormat) {
    Truthy(f.formatNote) && f.formatNote != Str("audio only")
  }

  function SizeSuffix(f: ClientFormat): string {
    if HasSize(f) then " (" + SizeText(f.filesize.value) + " MB)" else ""
  }

  function PrimaryOption(f: ClientFormat): SelectOption {
    SelectOption(ToText(f.formatId), ToText(f.formatNote) + " - " + ToText(f.ext) + SizeSuffix(f))
  }

  function FallbackOption(f: ClientFormat): SelectOption {
    SelectOption(ToText(f.formatId), ToText(Or(f.formatNote, f.formatId)) + " - " + ToText(f.ext))
  }

  /** The options displayVideoInfo puts in the selector for the given formats. */
  function FormatOptions(formats: seq<ClientFormat>): seq<SelectOption> {
    var primary := Filter(formats, IsPrimary);
    if |primary| > 0 then MapTo(primary, PrimaryOption)
    else MapTo(Filter(formats, IsFallback), FallbackOption)
  }

  /** The label of a primary-tier option always carries the size part. */
  lemma PrimaryLabel(f: ClientFormat)
    requires IsPrimary(f)
    ensures PrimaryOption(f) == SelectOption(ToText(f.formatId),
      ToText(f.formatNote) + " - " + ToText(f.ext) + " (" + SizeText(f.filesize.value) + " MB)")
  {
    var head := ToText(f.formatNote) + " - " + ToText(f.ext);
    var size := SizeText(f.filesize.value);
    assert SizeSuffix(f) == " (" + size + " MB)";
    assert head + (" (" + size + " MB)") == head + " (" + size + " MB)";
  }

  /** The primary tier. When some format has a truthy note and a truthy filesize,
      the options are exactly those formats, in their order, each labelled
      "<note> - <ext> (<size> MB)" and valued by its id. */
  lemma PrimaryTier(formats: seq<ClientFormat>)
    requires exists j :: 0 <= j < |formats| && IsPrimary(formats[j])
    ensures var opts := FormatOptions(formats);
      var idx := FilterIndices(formats, IsPrimary);
      && SelectsExactly(Filter(formats, IsPrimary), formats, IsPrimary, idx)
      && |opts| == |idx|
      && forall k :: 0 <= k < |opts| ==>
           var f := formats[idx[k]];
           opts[k] == SelectOption(ToText(f.formatId),
             ToText(f.formatNote) + " - " + ToText(f.ext) + " (" + SizeText(f.filesize.value) + " MB)")
  {
    FilterSelects(formats, IsPrimary);
    var sel := Filter(formats, IsPrimary);
    var idx := FilterIndices(formats, IsPrimary);
    FilterEmpty(formats, IsPrimary);
    var opts := FormatOptions(formats);
    assert opts == MapTo(sel, PrimaryOption);
    forall k | 0 <= k < |opts|
      ensures var f := formats[idx[k]];
        opts[k] == SelectOption(ToText(f.formatId),
          ToText(f.formatNote) + " - " + ToText(f.ext) + " (" + SizeText(f.filesize.value) + " MB)")
    {
      assert opts[k] == PrimaryOption(sel[k]) && sel[k] == formats[idx[k]];
      PrimaryLabel(sel[k]);
    }
  }

  /** The fallback tier. When no format has both a truthy note and a truthy
      filesize, the options are exactly the formats whose note is truthy and not
      "audio only", in their order, each labelled "<note> - <ext>" without a size
      and valued by its id. */
  lemma FallbackTier(formats: seq<ClientFormat>)
    requires forall j :: 0 <= j < |formats| ==> !IsPrimary(formats[j])
    ensures var opts := FormatOptions(formats);
      var idx := FilterIndices(formats, IsFallback);
      && SelectsExactly(Filter(formats, IsFallback), formats, IsFallback, idx)
      && |opts| == |idx|
      && forall k :: 0 <= k < |opts| ==>
           var f := formats[idx[k]];
           opts[k] == SelectOption(ToText(f.formatId), ToText(f.formatNote) + " - " + ToText(f.ext))
  {
    FilterSelects(formats, IsPrimary);
    FilterSelects(formats, IsFallback);
    FilterEmpty(formats, IsPrimary);
    var sel := Filter(formats, IsFallback);
    var idx := FilterIndices(formats, IsFallback);
    var opts := FormatOptions(formats);
    assert opts == MapTo(sel, FallbackOption);
    forall k | 0 <= k < |opts|
      ensures var f := formats[idx[k]];
        opts[k] == SelectOption(ToText(f.formatId), ToText(f.formatNote) + " - " + ToText(f.ext))
    {
      assert opts[k] == FallbackOption(sel[k]);
      assert sel[k] == formats[idx[k]];
      assert Truthy(sel[k].formatNote);
    }
  }

  /** Every option value is the id of one of the formats it was built from. */
  lemma OptionValuesFromFormats(formats: seq<ClientFormat>)
    ensures forall k :: 0 <= k < |FormatOptions(formats)| ==>
      exists j :: 0 <= j < |formats| && FormatOptions(formats)[k].value == ToText(formats[j].formatId)
  {
    var opts := FormatOptions(formats);
    var keep := if |Filter(formats, IsPrimary)| > 0 then IsPrimary else IsFallback;
    var render := if |Filter(formats, IsPrimary)| > 0 then PrimaryOption else FallbackOption;
    FilterSelects(formats, keep);
    var sel := Filter(formats, keep);
    var idx := FilterIndices(formats, keep);
    assert opts == MapTo(sel, render);
    forall k | 0 <= k < |opts|
      ensures exists j :: 0 <= j < |formats| && opts[k].value == ToText(formats[j].formatId)
    {
      assert opts[k] == render(sel[k]) && sel[k] == formats[idx[k]];
      assert opts[k].value == ToText(formats[idx[k]].formatId);
    }
  }

  // ---------------------------------------------------------------------------
  // Error messages and download targets

  /** `new Error(error.detail || 'Failed to get video info').message`: never empty. */
  function RejectionMessage(detail: JsVal): (m: string)
    ensures Truthy(detail) ==> m == ToText(detail)
    ensures !Truthy(detail) ==> m == "Failed to get video info"
    ensures m != []
  {
    ToText(Or(detail, Str("Failed to get video info")))
  }

  /** The text showError receives when the request did not yield metadata. */
  function FailureText(outcome: FetchOutcome): string
    requires !outcome.Received?
  {
    match outcome
    case Rejected(detail) => RejectionMessage(detail)
    case Thrown(message) => message
  }

  const VideoPrefix: string := BackendUrl + "/download?url="
  const AudioPrefix: string := BackendUrl + "/download-mp3?url="

  /** Where downloadVideo navigates; the format id is appended without encoding. */
  function VideoDownloadTarget(url: string, formatId: string): string {
    VideoPrefix + EncodeURIComponent(url) + "&format_id=" + formatId
  }

  function AudioDownloadTarget(url: string): string {
    AudioPrefix + EncodeURIComponent(url)
  }

  /** The part of s before its first occurrence of c. */
  function UpTo(s: string, c: char): (r: string)
    ensures |r| <= |s| && r == s[..|r|] && c !in r
    ensures |r| < |s| ==> s[|r|] == c
  {
    if s == [] || s[0] == c then [] else [s[0]] + UpTo(s[1..], c)
  }

  lemma UpToAppend(a: string, b: string, c: char)
    requires c !in a && b != [] && b[0] == c
    ensures UpTo(a + b, c) == a
  {
    if a != [] {
      UpToAppend(a[1..], b, c);
      assert (a + b)[1..] == a[1..] + b;
    }
  }

  /** In the video target, the url parameter runs up to the first "&" and decodes
      to the trimmed URL, whatever the format id; what follows is the format id as
      given. */
  lemma VideoTargetCarriesUrl(url: string, formatId: string)
    ensures var t := VideoDownloadTarget(url, formatId);
      var q := UpTo(t[|VideoPrefix|..], '&');
      && t[..|VideoPrefix|] == VideoPrefix
      && DecodeURIComponent(q) == Some(url)
      && t[|VideoPrefix| + |q|..] == "&format_id=" + formatId
  {
    var e := EncodeURIComponent(url);
    assert '&' !in e by {
      EncodedHasNoDelimiters(url);
      forall i | 0 <= i < |e| ensures e[i] != '&' {
        assert e[i] !in "&=#?+ ";
      }
    }
    var rest := "&format_id=" + formatId;
    SplitAtDelimiter(VideoPrefix, e, rest, '&');
    assert VideoDownloadTarget(url, formatId) == VideoPrefix + e + rest;
    DecodeEncode(url);
  }

  /** A prefix, a part free of c, and a rest starting with c split back apart. */
  lemma SplitAtDelimiter(prefix: string, part: string, rest: string, c: char)
    requires c !in part && rest != [] && rest[0] == c
    ensures var t := prefix + part + rest;
      && t[..|prefix|] == prefix
      && UpTo(t[|prefix|..], c) == part
      && t[|prefix| + |part|..] == rest
  {
    var t := prefix + part + rest;
    assert t[|prefix|..] == part + rest;
    UpToAppend(part, rest, c);
  }

  /** In the audio target, everything after "?url=" is the encoded URL: it holds no
      "&" or "#" and decodes to the trimmed URL. */
  lemma AudioTargetCarriesUrl(url: string)
    ensures var t := AudioDownloadTarget(url);
      && t[..|AudioPrefix|] == AudioPrefix
      && '&' !in t[|AudioPrefix|..] && '#' !in t[|AudioPrefix|..]
      && DecodeURIComponent(t[|AudioPrefix|..]) == Some(url)
  {
    EncodedHasNoDelimiters(url);
    DecodeEncode(url);
    assert AudioDownloadTarget(url)[|AudioPrefix|..] == EncodeURIComponent(url);
  }

  /** The selected value is the format_id of one of the formats. */
  lemma SelectedFromFormats(formats: seq<ClientFormat>, choice: nat)
    requires choice < |FormatOptions(formats)|
    ensures exists j :: 0 <= j < |formats| && SelectedValue(FormatOptions(formats), choice) == ToText(formats[j].formatId)
  {
    OptionValuesFromFormats(formats);
  }

  /** The value of the selector: the chosen option's value, or "" when it is empty. */
  function SelectedValue(options: seq<SelectOption>, choice: nat): string
    requires options == [] || choice < |options|
  {
    if options == [] then "" else options[choice].value
  }

  // ---------------------------------------------------------------------------
  // The page

  /** What the user sees: the display flags of the loading, preview, error and
      downloading regions, the texts, the selector's options and the location the
      page navigated to. */
  datatype Screen = Screen(
    loading: bool, preview: bool, error: bool, downloading: bool,
    errorText: string, thumbnailSrc: string, title: string, uploader: string, duration: string,
    options: seq<SelectOption>, location: Option<string>)

  /** The duration line after a render: rewritten only when data.duration is
      truthy (present and non-zero), otherwise the previous text stays. */
  function ShownDuration(current: string, d: Option<int>): string {
    if d.Some? && d.value != 0 then DurationText(d.value) else current
  }

  /** The uploader line: "Unknown" stands in for a falsy uploader. */
  function UploaderText(uploader: JsVal): string {
    "Uploader: " + ToText(Or(uploader, Str("Unknown")))
  }

  /** A truthy uploader is shown as it is; "Unknown" replaces a falsy one. */
  lemma UploaderLine(uploader: JsVal)
    ensures Truthy(uploader) ==> UploaderText(uploader) == "Uploader: " + ToText(uploader)
    ensures !Truthy(uploader) ==> UploaderText(uploader) == "Uploader: Unknown"
  {
  }

  /** A truthy duration is written as its duration line, which reads back as the
      duration when it is positive; otherwise the line shown before stays. */
  lemma ShownDurationLine(current: string, d: Option<int>)
    ensures d.Some? && d.value != 0 ==> ShownDuration(current, d) == DurationText(d.value)
    ensures d.Some? && d.value > 0 ==> ParseDuration(ShownDuration(current, d)) == Some(d.value)
    ensures d.None? || d.value == 0 ==> ShownDuration(current, d) == current
  {
    if d.Some? && d.value > 0 {
      DurationRoundTrip(d.value);
    }
  }

  /** The screen after displayVideoInfo(data): header texts, duration line and
      options replaced, the preview shown, everything else as it was. */
  function Rendered(s: Screen, data: VideoData): Screen {
    s.(thumbnailSrc := ToText(data.thumbnail),
       title := TextContent(data.title),
       uploader := UploaderText(data.uploader),
       duration := ShownDuration(s.duration, data.duration),
       options := FormatOptions(data.formats),
       preview := true)
  }

  class Page {
    var loading: bool
    var preview: bool
    var error: bool
    var downloading: bool
    var errorText: string
    var thumbnailSrc: string
    var title: string
    var uploader: string
    var duration: string
    var options: seq<SelectOption>
    var location: Option<string>
    /** The formats of the last metadata displayed. */
    ghost var shownFormats: seq<ClientFormat>

    ghost predicate Valid()
      reads this
    {
      options == FormatOptions(shownFormats)
    }

    function Snapshot(): Screen
      reads this
    {
      Screen(loading, preview, error, downloading, errorText, thumbnailSrc, title, uploader, duration,
             options, location)
    }

    /** A freshly loaded page: every region hidden, nothing rendered. */
    constructor ()
      ensures Valid()
      ensures Snapshot() == Screen(false, false, false, false, "", "", "", "", "", [], None)
    {
      loading, preview, error, downloading := false, false, false, false;
      errorText, thumbnailSrc, title, uploader, duration := "", "", "", "", "";
      options, location := [], None;
      shownFormats := [];
    }

    /** showError: the message in the error region, which becomes visible, and the
        loading indicator hidden. */
    method ShowError(message: string)
      requires Valid()
      modifies this`errorText, this`error, this`loading
      ensures Valid() && shownFormats == old(shownFormats)
      ensures Snapshot() == old(Snapshot()).(errorText := message, error := true, loading := false)
    {
      errorText := message;
      error := true;
      loading := false;
    }

    /** getVideoInfo: request is the URL posted to /info, None when no request is made. */
    method GetVideoInfo(urlField: string, outcome: FetchOutcome) returns (request: Option<string>)
      requires Valid()
      modifies this
      ensures Valid()
      ensures request == if Trim(urlField) == [] then None else Some(Trim(urlField))
      ensures !loading
      ensures request.None? ==>
        && Snapshot() == old(Snapshot()).(errorText := "Please paste a video URL", error := true, loading := false)
        && shownFormats == old(shownFormats)
      ensures request.Some? && outcome.Received? ==>
        && Snapshot() == Rendered(old(Snapshot()), outcome.data).(loading := false, error := false)
        && shownFormats == outcome.data.formats
      ensures request.Some? && !outcome.Received? ==>
        && Snapshot() == old(Snapshot()).(errorText := FailureText(outcome), error := true, loading := false, preview := false)
        && shownFormats == old(shownFormats)
    {
      var url := Trim(urlField);
      if url == [] {
        ShowError("Please paste a video URL");
        request := None;
        return;
      }
      request := Some(url);
      LoadInfo(outcome);
    }

    /** The request part of getVideoInfo: loading shown and the preview and error
        hidden, then the outcome displayed or its message shown, and loading
        hidden at the end whatever happened. */
    method LoadInfo(outcome: FetchOutcome)
      requires Valid()
      modifies this
      ensures Valid() && !loading
      ensures outcome.Received? ==>
        && Snapshot() == Rendered(old(Snapshot()), outcome.data).(loading := false, error := false)
        && shownFormats == outcome.data.formats
      ensures !outcome.Received? ==>
        && Snapshot() == old(Snapshot()).(errorText := FailureText(outcome), error := true, loading := false, preview := false)
        && shownFormats == old(shownFormats)
    {
      loading := true;
      preview := false;
      error := false;
      if outcome.Received? {
        DisplayVideoInfo(outcome.data);
      } else {
        ShowError(FailureText(outcome));
      }
      loading := false;
    }

    /** displayVideoInfo: fills the preview and rebuilds the selector from
        data.formats alone. */
    method DisplayVideoInfo(data: VideoData)
      modifies this`thumbnailSrc, this`title, this`uploader, this`duration, this`options, this`preview, this`shownFormats
      ensures Valid() && shownFormats == data.formats
      ensures Snapshot() == Rendered(old(Snapshot()), data)
    {
      ShowDetails(data);
      PopulateFormatOptions(data.formats);
      preview := true;
      shownFormats := data.formats;
      assert Snapshot() == old(Snapshot()).(thumbnailSrc := thumbnailSrc, title := title, uploader := uploader,
        duration := duration, options := options, preview := preview);
    }

    /** The thumbnail, title, uploader and duration part of displayVideoInfo. */
    method ShowDetails(data: VideoData)
      modifies this`thumbnailSrc, this`title, this`uploader, this`duration
      ensures thumbnailSrc == ToText(data.thumbnail) && title == TextContent(data.title)
      ensures uploader == UploaderText(data.uploader) && duration == ShownDuration(old(duration), data.duration)
      ensures Truthy(data.uploader) ==> uploader == "Uploader: " + ToText(data.uploader)
      ensures !Truthy(data.uploader) ==> uploader == "Uploader: Unknown"
      ensures data.duration.Some? && data.duration.value != 0 ==> duration == DurationText(data.duration.value)
      ensures data.duration.Some? && data.duration.value > 0 ==> ParseDuration(duration) == Some(data.duration.value)
      ensures data.duration.None? || data.duration.value == 0 ==> duration == old(duration)
    {
      thumbnailSrc := ToText(data.thumbnail);
      title := TextContent(data.title);
      uploader := UploaderText(data.uploader);
      UploaderLine(data.uploader);
      ShownDurationLine(duration, data.duration);
      duration := ShownDuration(duration, data.duration);
    }

    /** The "Populate format options" part of displayVideoInfo: the selector is
        emptied, then the options of one of the two tiers are appended. */
    method PopulateFormatOptions(formats: seq<ClientFormat>)
      modifies this`options
      ensures options == FormatOptions(formats)
    {
      options := [];
      var videoFormats := Filter(formats, IsPrimary);
      if |videoFormats| > 0 {
        AppendPrimaryOptions(videoFormats);
      } else {
        AppendFallbackOptions(formats);
      }
    }

    /** The first forEach: one labelled option per primary-tier format. */
    method AppendPrimaryOptions(videoFormats: seq<ClientFormat>)
      modifies this`options
      ensures options == old(options) + MapTo(videoFormats, PrimaryOption)
    {
      ghost var start := options;
      var i := 0;
      while i < |videoFormats|
        invariant 0 <= i <= |videoFormats|
        invariant options == start + MapTo(videoFormats[..i], PrimaryOption)
      {
        MapToSnoc(videoFormats[..i], videoFormats[i], PrimaryOption);
        assert videoFormats[..i + 1] == videoFormats[..i] + [videoFormats[i]];
        options := options + [PrimaryOption(videoFormats[i])];
        i := i + 1;
      }
      assert videoFormats[..i] == videoFormats;
    }

    /** The second forEach: an option for each format with a truthy note other
        than "audio only". */
    method AppendFallbackOptions(formats: seq<ClientFormat>)
      modifies this`options
      ensures options == old(options) + MapTo(Filter(formats, IsFallback), FallbackOption)
    {
      ghost var start := options;
      var i := 0;
      while i < |formats|
        invariant 0 <= i <= |formats|
        invariant options == start + MapTo(Filter(formats[..i], IsFallback), FallbackOption)
      {
        var format := formats[i];
        FilterSnoc(formats, i, IsFallback);
        if Truthy(format.formatNote) && format.formatNote != Str("audio only") {
          MapToSnoc(Filter(formats[..i], IsFallback), format, FallbackOption);
          options := options + [FallbackOption(format)];
        }
        i := i + 1;
      }
      assert formats[..i] == formats;
    }

    /** downloadVideo, with choice the index of the selected option: the
        selector's value is read, then the download is started or refused. */
    method DownloadVideo(urlField: string, choice: nat)
      requires Valid()
      requires options == [] || choice < |options|
      modifies this`errorText, this`error, this`loading, this`downloading, this`location
      ensures Valid() && shownFormats == old(shownFormats)
      ensures Trim(urlField) == [] || SelectedValue(old(options), choice) == [] ==>
        Snapshot() == old(Snapshot()).(errorText := "Please select a format", error := true, loading := false)
      ensures Trim(urlField) != [] && SelectedValue(old(options), choice) != [] ==>
        Snapshot() == old(Snapshot()).(downloading := true,
          location := Some(VideoDownloadTarget(Trim(urlField), SelectedValue(old(options), choice))))
      ensures SelectedValue(old(options), choice) != [] ==>
        exists j :: 0 <= j < |shownFormats| && SelectedValue(old(options), choice) == ToText(shownFormats[j].formatId)
    {
      var formatId := SelectedValue(options, choice);
      if options != [] {
        SelectedFromFormats(shownFormats, choice);
      }
      DownloadFormat(urlField, formatId);
    }

    /** The checks and navigation of downloadVideo for the selector value formatId. */
    method DownloadFormat(urlField: string, formatId: string)
      requires Valid()
      modifies this`errorText, this`error, this`loading, this`downloading, this`location
      ensures Valid() && shownFormats == old(shownFormats)
      ensures Trim(urlField) == [] || formatId == [] ==>
        Snapshot() == old(Snapshot()).(errorText := "Please select a format", error := true, loading := false)
      ensures Trim(urlField) != [] && formatId != [] ==>
        Snapshot() == old(Snapshot()).(downloading := true, location := Some(VideoDownloadTarget(Trim(urlField), formatId)))
    {
      var url := Trim(urlField);
      if url == [] || formatId == [] {
        ShowError("Please select a format");
        assert Snapshot() == old(Snapshot()).(errorText := errorText, error := error, loading := loading);
        return;
      }
      StartDownload(VideoDownloadTarget(url, formatId));
      assert Snapshot() == old(Snapshot()).(downloading := downloading, location := location);
    }

    /** downloadMP3 */
    method DownloadMp3(urlField: string)
      requires Valid()
      modifies this`errorText, this`error, this`loading, this`downloading, this`location
      ensures Valid() && shownFormats == old(shownFormats)
      ensures var url := Trim(urlField);
        if url == [] then
          Snapshot() == old(Snapshot()).(errorText := "Please enter a URL", error := true, loading := false)
        else
          Snapshot() == old(Snapshot()).(downloading := true, location := Some(AudioDownloadTarget(url)))
    {
      var url := Trim(urlField);
      if url == [] {
        ShowError("Please enter a URL");
        assert Snapshot() == old(Snapshot()).(errorText := errorText, error := error, loading := loading);
        return;
      }
      StartDownload(AudioDownloadTarget(url));
      assert Snapshot() == old(Snapshot()).(downloading := downloading, location := location);
    }

    /** Shows the downloading region and navigates to target. */
    method StartDownload(target: string)
      modifies this`downloading, this`location
      ensures downloading && location == Some(target)
    {
      downloading := true;
      location := Some(target);
    }

    /** The timer callback both downloads schedule: it hides the downloading region. */
    method HideDownloading()
      requires Valid()
      modifies this`downloading
      ensures Valid() && shownFormats == old(shownFormats)
      ensures Snapshot() == old(Snapshot()).(downloading := false)
    {
      downloading := false;
    }
  }
}
