/** The command of main.go: pick a strategy from the URI, run it, and report
    a status. */
module Kzn {
  import opened Wrappers
  import opened Strings
  import FilePath
  import D = Downloader
  import ML = Metalink

  /** The strategy that handles a URI; the HTTP one carries the output file. */
  datatype Strategy = Torrent | Metalink | Http(filename: string)

  predicate IsTorrentUri(uri: string) {
    HasPrefix(uri, "magnet:") || HasSuffix(ToLower(uri), ".torrent")
  }

  predicate IsMetalinkUri(uri: string) {
    HasSuffix(ToLower(uri), ".metalink")
  }

  /** The dispatch switch: torrent for a "magnet:" prefix or a ".torrent"
      suffix in any case, then metalink for a ".metalink" suffix in any case,
      and HTTP for everything else, writing to `output` unless it is empty,
      when the URI's last path element names the file. */
  function Classify(uri: string, output: string): (s: Strategy)
    ensures s.Torrent? <==> IsTorrentUri(uri)
    ensures s.Metalink? <==> !IsTorrentUri(uri) && IsMetalinkUri(uri)
    ensures s.Http? ==> s.filename == (if output != "" then output else FilePath.Base(uri))
  {
    if HasPrefix(uri, "magnet:") || HasSuffix(ToLower(uri), ".torrent") then Torrent
    else if HasSuffix(ToLower(uri), ".metalink") then Metalink
    else Http(if output == "" then FilePath.Base(uri) else output)
  }

  /** The second argument matters only to the HTTP strategy. */
  lemma OutputOnlyNamesHttpFile(uri: string, o1: string, o2: string)
    ensures !Classify(uri, o1).Http? ==> Classify(uri, o1) == Classify(uri, o2)
    ensures Classify(uri, o1).Http? <==> Classify(uri, o2).Http?
  {
  }

  /** A ".torrent" ending is recognised whatever the case of its letters. */
  lemma TorrentSuffixAnyCase(uri: string, output: string)
    requires |uri| >= 8
    requires forall i :: 0 <= i < 8 ==> LowerChar(uri[|uri| - 8 + i]) == ".torrent"[i]
    ensures Classify(uri, output) == Torrent
  {
  }

  /** So is a ".metalink" ending, on a URI that does not start with "magnet:". */
  lemma MetalinkSuffixAnyCase(uri: string, output: string)
    requires |uri| >= 9 && !HasPrefix(uri, "magnet:")
    requires forall i :: 0 <= i < 9 ==> LowerChar(uri[|uri| - 9 + i]) == ".metalink"[i]
    ensures Classify(uri, output) == Metalink
  {
    SuffixIgnoringCase(uri, ".metalink");
    assert ToLower(uri)[|uri| - 1] == 'k';
  }

  /** "magnet:" wins over every suffix, ".metalink" included. */
  lemma MagnetExample()
    ensures Classify("magnet:?dn=set.metalink", "") == Torrent
  {
  }

  lemma TorrentFileExample()
    ensures Classify("FILE.TORRENT", "") == Torrent
  {
    TorrentSuffixAnyCase("FILE.TORRENT", "");
  }

  lemma MetalinkExample()
    ensures Classify("set.metalink", "out.bin") == Metalink
  {
    assert !HasPrefix("set.metalink", "magnet:") by { assert "set.metalink"[0] != 'm'; }
    MetalinkSuffixAnyCase("set.metalink", "out.bin");
  }

  /** A URI that does not start with "magnet:" and whose last character,
      lowered, is neither 't' nor 'k' goes to the HTTP strategy. */
  lemma HttpByLastChar(uri: string, output: string)
    requires uri != [] && !HasPrefix(uri, "magnet:")
    requires LowerChar(uri[|uri| - 1]) != 't' && LowerChar(uri[|uri| - 1]) != 'k'
    ensures Classify(uri, output).Http?
  {
  }

  /** The "magnet:" test is case-sensitive: a link that starts with
      "MAGNET:", holds no '/' and has no ".torrent" or ".metalink" ending in
      any case (such as "MAGNET:?dn=cat") is fetched over HTTP, into a file
      named after the whole link. */
  lemma UpperCaseMagnetIsHttp(uri: string)
    requires HasPrefix(uri, "MAGNET:") && '/' !in uri
    requires !HasSuffix(ToLower(uri), ".torrent") && !HasSuffix(ToLower(uri), ".metalink")
    ensures Classify(uri, "") == Http(uri)
  {
    assert !HasPrefix(uri, "magnet:") by { assert uri[0] == 'M'; }
    assert [] + uri + seq(0, _ => '/') == uri;
    FilePath.BaseOfName([], uri, 0);
  }

  lemma UpperCaseMagnetExample()
    ensures Classify("MAGNET:?dn=cat", "") == Http("MAGNET:?dn=cat")
  {
    var m := "MAGNET:?dn=cat";
    assert HasPrefix(m, "MAGNET:");
    assert ToLower(m)[|m| - 8] == ':' && ToLower(m)[|m| - 9] == 't';
    UpperCaseMagnetIsHttp(m);
  }

  lemma HttpExample()
    ensures Classify("http://host/file.bin", "") == Http("file.bin")
    ensures Classify("http://host/file.bin", "copy.bin") == Http("copy.bin")
  {
    var h := "http://host/file.bin";
    assert !HasPrefix(h, "magnet:") by { assert h[0] != 'm'; }
    HttpByLastChar(h, "");
    HttpByLastChar(h, "copy.bin");
    FilePath.FileUrlExample();
  }

  /** "OK" unless the strategy returned an error, then "ERR". */
  function Status(err: Option<D.Error>): (s: string)
    ensures s == "ERR" <==> err.Some?
    ensures s == "OK" <==> err.None?
  {
    if err.Some? then "ERR" else "OK"
  }

  /** One run of the command: the usage message, or the gid, the strategy, its
      reply with the HTTP steps it tried, and the status shown in the results. */
  datatype Invocation =
    | Usage
    | Completed(gid: string, strategy: Strategy, reply: D.Reply, steps: seq<D.Step>, status: string)

  /** The output name main starts from: the second positional argument, or
      "" when there is none. */
  function OutputArg(args: seq<string>): (output: string)
    ensures output == "" <==> |args| < 2 || args[1] == ""
    ensures output != "" ==> output == args[1]
  {
    if |args| >= 2 then args[1] else ""
  }

  /** main: without a URI, show usage; otherwise draw a gid, dispatch, and
      mark the status "ERR" if the chosen strategy failed. `torrent` is what
      the torrent strategy returns for each URI, `fs` the outcome of reading
      the metalink file at each path and parsing its XML, and `net` the
      world's answers to the HTTP steps for each URL. */
  method Run(args: seq<string>, torrent: string -> D.Reply, fs: string -> Result<ML.Element, D.Error>,
             net: string -> D.Outcomes)
    returns (inv: Invocation)
    ensures inv.Usage? <==> |args| < 1
    ensures inv.Completed? ==> |inv.gid| == 6 && D.IsHex(inv.gid)
    ensures inv.Completed? ==> inv.strategy == Classify(args[0], OutputArg(args))
    ensures inv.Completed? ==> inv.status == Status(inv.reply.err)
    ensures inv.Completed? && inv.strategy.Torrent? ==> inv.reply == torrent(args[0]) && inv.steps == []
    ensures inv.Completed? && inv.strategy.Metalink? ==> D.MetalinkContract(fs(args[0]), net, inv.reply, inv.steps)
    ensures inv.Completed? && inv.strategy.Http? ==> D.HttpContract(inv.strategy.filename, net(args[0]), inv.reply, inv.steps)
  {
    if |args| < 1 {
      return Usage;
    }
    var uri := args[0];
    var output := "";
    if |args| >= 2 {
      output := args[1];
    }
    var gid := D.RandHex(6);
    var status := "OK";
    var strategy := Classify(uri, output);
    var reply: D.Reply;
    var steps: seq<D.Step> := [];
    match strategy {
      case Torrent =>
        reply := torrent(uri);
      case Metalink =>
        reply, steps := D.DownloadMetalink(uri, fs, net);
      case Http(filename) =>
        reply, steps := D.DownloadHTTP(uri, filename, net);
    }
    if reply.err.Some? {
      status := "ERR";
    }
    inv := Completed(gid, strategy, reply, steps, status);
  }

  /** Passing an empty second argument is the same as passing none. */
  lemma EmptyOutputIsAbsent(uri: string)
    ensures Classify(uri, OutputArg([uri, ""])) == Classify(uri, OutputArg([uri]))
  {
  }
}
