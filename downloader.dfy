/** The download strategies of downloader/downloader.go, with the network, the
    file system and the clock replaced by given outcomes. */
module Downloader {
  import opened Wrappers
  import StrConv
  import FilePath
  import Metalink

  /** Errors a strategy returns. Errors of the network, the file system and
      the XML decoder are opaque and passed on unchanged. */
  datatype Error =
    | External(cause: string)        // from net/http, os, io or encoding/xml
    | InvalidLength(header: string)  // strconv.Atoi refused the Content-Length header
    | NoUrls                         // "no URLs in metalink"

  // ---------------------------------------------------------------- RandHex

  const HexLetters: string := "0123456789abcdef"

  predicate IsHex(s: string) {
    forall i :: 0 <= i < |s| ==> s[i] in HexLetters
  }

  /** A string of `n` characters, each drawn from the sixteen hexadecimal
      letters; the random index is an arbitrary choice in [0, 16). */
  method RandHex(n: nat) returns (s: string)
    ensures |s| == n
    ensures IsHex(s)
  {
    var buf := new char[n];
    for i := 0 to n
      invariant forall j :: 0 <= j < i ==> buf[j] in HexLetters
    {
      var k :| 0 <= k < |HexLetters|;
      buf[i] := HexLetters[k];
    }
    s := buf[..];
  }

  // ------------------------------------------------------------ FormatSpeed

  datatype Unit = KiB | MiB

  function UnitBytes(u: Unit): real {
    match u
    case KiB => 1024.0
    case MiB => 1048576.0
  }

  /** A formatted rate: `amount` printed with "%6.2f", then "KiB/s" or "MiB/s". */
  datatype Speed = Speed(amount: real, unit: Unit)

  /** MiB/s only above one MiB per second, KiB/s otherwise; the amount is the
      rate in the chosen unit. */
  function FormatSpeed(bps: real): (s: Speed)
    ensures s.unit == MiB <==> bps > 1048576.0
    ensures s.amount * UnitBytes(s.unit) == bps
  {
    if bps > 1024.0 * 1024.0 then Speed(bps / (1024.0 * 1024.0), MiB)
    else Speed(bps / 1024.0, KiB)
  }

  /** A non-negative rate is shown as more than one MiB/s, or as at most
      1024 KiB/s: the amount never exceeds 1024 in KiB/s nor drops to 1 in MiB/s. */
  lemma FormatSpeedRange(bps: real)
    requires bps >= 0.0
    ensures FormatSpeed(bps).unit == MiB ==> FormatSpeed(bps).amount > 1.0
    ensures FormatSpeed(bps).unit == KiB ==> 0.0 <= FormatSpeed(bps).amount <= 1024.0
  {
  }

  lemma FormatSpeedExamples()
    ensures FormatSpeed(1048576.0) == Speed(1024.0, KiB)
    ensures FormatSpeed(2097152.0) == Speed(2.0, MiB)
    ensures FormatSpeed(512.0) == Speed(0.5, KiB)
  {
  }

  // ----------------------------------------------------------- DownloadHTTP

  /** What one invocation hands back: path, speed text and error. A speed of
      None is the empty string Go returns on failure. */
  datatype Reply = Reply(path: string, speed: Option<Speed>, err: Option<Error>)

  /** The effectful steps of DownloadHTTP, in the order the code tries them. */
  datatype Step = Head | ParseLength | Get | Create | Copy

  const Pipeline: seq<Step> := [Head, ParseLength, Get, Create, Copy]

  /** The outcomes the outside world gives the steps of one download: the
      HEAD request's Content-Length header ("" when absent) or its error, the
      errors (if any) of GET, of creating the file and of copying the body,
      and the reported average: the Content-Length divided by the seconds the
      copy took. */
  datatype Outcomes = Outcomes(
    head: Result<string, Error>,
    get: Option<Error>,
    create: Option<Error>,
    copy: Option<Error>,
    avg: real)

  /** The error a step returns under `o`, or None if it succeeds. */
  function StepError(o: Outcomes, step: Step): Option<Error> {
    match step
    case Head => if o.head.Err? then Some(o.head.error) else None
    case ParseLength =>
      if o.head.Ok? && StrConv.Atoi(o.head.value).None? then Some(InvalidLength(o.head.value)) else None
    case Get => o.get
    case Create => o.create
    case Copy => o.copy
  }

  /** `steps` is the run of the pipeline that stops at the first failing step:
      a non-empty prefix whose every step but the last succeeded, and whose
      last step failed unless the pipeline ran to its end. */
  predicate StopsAtFirstFailure(o: Outcomes, steps: seq<Step>) {
    steps != [] && steps <= Pipeline &&
    (forall i :: 0 <= i < |steps| - 1 ==> StepError(o, steps[i]).None?) &&
    (steps != Pipeline ==> StepError(o, steps[|steps| - 1]).Some?)
  }

  /** The whole promise of DownloadHTTP: the steps tried, the filename always
      handed back, the failing step's error passed on unchanged, and a speed
      exactly when nothing failed. */
  predicate HttpContract(filename: string, o: Outcomes, reply: Reply, steps: seq<Step>) {
    StopsAtFirstFailure(o, steps) &&
    reply.path == filename &&
    reply.err == StepError(o, steps[|steps| - 1]) &&
    reply.speed == (if reply.err.None? then Some(FormatSpeed(o.avg)) else None)
  }

  /** HEAD, parse Content-Length, GET, create the file, copy the body; the
      first failure returns at once. `net(url)` is what the world answers to
      the requests for `url`. */
  method DownloadHTTP(url: string, filename: string, net: string -> Outcomes) returns (reply: Reply, steps: seq<Step>)
    ensures HttpContract(filename, net(url), reply, steps)
    ensures StepError(net(url), Head).Some? ==> steps == [Head]
    ensures StepError(net(url), Head).None? && StepError(net(url), ParseLength).Some? ==> steps == [Head, ParseLength]
  {
    var o := net(url);
    steps := [Head];
    if o.head.Err? {
      return Reply(filename, None, Some(o.head.error)), steps;
    }
    steps := steps + [ParseLength];
    var total := StrConv.Atoi(o.head.value);
    if total.None? {
      return Reply(filename, None, Some(InvalidLength(o.head.value))), steps;
    }
    steps := steps + [Get];
    if o.get.Some? {
      return Reply(filename, None, o.get), steps;
    }
    steps := steps + [Create];
    if o.create.Some? {
      return Reply(filename, None, o.create), steps;
    }
    steps := steps + [Copy];
    if o.copy.Some? {
      return Reply(filename, None, o.copy), steps;
    }
    reply := Reply(filename, Some(FormatSpeed(o.avg)), None);
  }

  /** The trace is determined by the outcomes: two runs that both stop at the
      first failure are the same run. */
  lemma StopsAtFirstFailureUnique(o: Outcomes, a: seq<Step>, b: seq<Step>)
    requires StopsAtFirstFailure(o, a) && StopsAtFirstFailure(o, b)
    ensures a == b
  {
  }

  /** A failed HEAD or an unparsable Content-Length ends the run before GET and
      before the file is created. */
  lemma EarlyFailureSkipsTransfer(filename: string, o: Outcomes, reply: Reply, steps: seq<Step>)
    requires HttpContract(filename, o, reply, steps)
    requires StepError(o, Head).Some? || StepError(o, ParseLength).Some?
    ensures Get !in steps && Create !in steps && Copy !in steps
    ensures reply.err.Some?
  {
    assert Pipeline[0] == Head && Pipeline[1] == ParseLength;
    assert |steps| <= 2;
    assert steps == Pipeline[..|steps|];
  }

  /** A run succeeds exactly when every step of the pipeline succeeds; then it
      reports a speed, and otherwise it reports none. */
  lemma HttpSucceedsIffEveryStepSucceeds(filename: string, o: Outcomes, reply: Reply, steps: seq<Step>)
    requires HttpContract(filename, o, reply, steps)
    ensures reply.err.None? <==> forall i :: 0 <= i < |Pipeline| ==> StepError(o, Pipeline[i]).None?
    ensures reply.err.None? <==> reply.speed.Some?
    ensures reply.path == filename
  {
  }

  // ------------------------------------------------------- DownloadMetalink

  /** The first URL of the first file, or NoUrls if there is none. */
  function SelectMirror(d: Metalink.Descriptor): (r: Result<string, Error>)
    ensures r.Err? <==> |d.files| == 0 || |d.files[0].urls| == 0
    ensures r.Err? ==> r.error == NoUrls
    ensures r.Ok? ==> r.value == d.files[0].urls[0]
  {
    if |d.files| == 0 || |d.files[0].urls| == 0 then Err(NoUrls)
    else Ok(d.files[0].urls[0])
  }

  /** Only the first mirror of the first file matters: descriptors that agree
      on it select the same way, whatever else they hold. */
  lemma SelectMirrorIgnoresRest(d: Metalink.Descriptor, e: Metalink.Descriptor)
    requires |d.files| > 0 && |e.files| > 0
    requires |d.files[0].urls| > 0 && |e.files[0].urls| > 0
    requires d.files[0].urls[0] == e.files[0].urls[0]
    ensures SelectMirror(d) == SelectMirror(e)
  {
  }

  lemma SelectMirrorExamples()
    ensures SelectMirror(Metalink.Descriptor([])) == Err(NoUrls)
    ensures SelectMirror(Metalink.Descriptor([Metalink.FileEntry([]), Metalink.FileEntry(["http://b/y.bin"])])) == Err(NoUrls)
    ensures SelectMirror(Metalink.Descriptor([Metalink.FileEntry(["http://a/x.bin", "http://b/x.bin"])])) == Ok("http://a/x.bin")
    ensures FilePath.Base("http://a/x.bin") == "x.bin"
  {
    FilePath.MirrorUrlExample();
  }

  /** What DownloadMetalink promises, given the outcome of reading the file
      and parsing its XML: those failures, a root that is not <metalink> and a
      document without URLs return an empty path and no speed before any
      HTTP step; otherwise the HTTP strategy fetches the selected URL into
      its last path element. */
  predicate MetalinkContract(doc: Result<Metalink.Element, Error>, net: string -> Outcomes, reply: Reply, steps: seq<Step>) {
    match doc
    case Err(e) => reply == Reply("", None, Some(e)) && steps == []
    case Ok(root) =>
      match Metalink.Decode(root)
      case Err(msg) => reply == Reply("", None, Some(External(msg))) && steps == []
      case Ok(d) =>
        match SelectMirror(d)
        case Err(e) => reply == Reply("", None, Some(e)) && steps == []
        case Ok(url) => HttpContract(FilePath.Base(url), net(url), reply, steps)
  }

  /** Read the metalink file at `path` and parse its XML (`fs` gives that
      outcome for each path), decode it, select the first mirror, and
      download it over HTTP. */
  method DownloadMetalink(path: string, fs: string -> Result<Metalink.Element, Error>, net: string -> Outcomes)
    returns (reply: Reply, steps: seq<Step>)
    ensures MetalinkContract(fs(path), net, reply, steps)
    ensures reply.err.None? ==> fs(path).Ok? && reply.speed.Some?
  {
    var doc := fs(path);
    if doc.Err? {
      return Reply("", None, Some(doc.error)), [];
    }
    var decoded := Metalink.Decode(doc.value);
    if decoded.Err? {
      return Reply("", None, Some(External(decoded.error))), [];
    }
    var ml := decoded.value;
    if |ml.files| == 0 || |ml.files[0].urls| == 0 {
      return Reply("", None, Some(NoUrls)), [];
    }
    var url := ml.files[0].urls[0];
    var filename := FilePath.Base(url);
    reply, steps := DownloadHTTP(url, filename, net);
  }

  /** For a <metalink> document, the strategy fetches the text of the first
      <url> of the first <file> into that URL's last path element, and fails
      with NoUrls before any HTTP step when there is no such element. */
  lemma MetalinkFetchesFirstUrl(root: Metalink.Element, net: string -> Outcomes, reply: Reply, steps: seq<Step>)
    requires root.name == "metalink"
    requires MetalinkContract(Ok(root), net, reply, steps)
    ensures var files := Metalink.ChildrenNamed(root.children, "file");
      if files == [] || Metalink.ChildrenNamed(files[0].children, "url") == [] then
        reply == Reply("", None, Some(NoUrls)) && steps == []
      else
        var url := Metalink.ChildrenNamed(files[0].children, "url")[0].text;
        HttpContract(FilePath.Base(url), net(url), reply, steps)
  {
    Metalink.DecodeKeepsUrlText(root);
  }
}
