# kzn download front-end, modelled in Dafny

`kzn` fetches one resource named by a URI: a magnet link or a `.torrent` file
goes to a torrent engine, a `.metalink` file is decoded and the first URL
of its first file entry is fetched over HTTP, and anything else is fetched
over HTTP directly. It prints a one-row results table whose status is `OK` or `ERR`.

The model covers the decisions the program makes itself:

- `Kzn` (main.go): the argument-count guard, the dispatch switch
  `Classify`, the output name default, the `OK`/`ERR` status, and `Run`,
  which ties them to the strategies.
- `Downloader` (downloader/downloader.go): `RandHex` over an array with an
  arbitrary index choice in [0, 16); `FormatSpeed` over `real`; `DownloadHTTP`
  as a straight-line method over given step outcomes that records which
  steps it tried; `SelectMirror` over the decoded metalink descriptor, and
  `DownloadMetalink`, which reads and parses the file named by its path,
  decodes the element tree and downloads the selected mirror.
- `Metalink` (downloader/downloader.go:20-28, 144-147): how encoding/xml
  fills the `Metalink` struct from that tree, both as the struct tags are
  written (`DecodeAsWritten`) and as they are evidently meant (`Decode`,
  which `DownloadMetalink` uses; see "## Findings").
- Library functions the program relies on, modelled from Go's
  documentation: `FilePath.Base` (Unix `filepath.Base`), `StrConv.Atoi`
  (64-bit `strconv.Atoi`), `Strings.HasPrefix/HasSuffix/ToLower`.

The outside world is passed in as parameters. A function
`net: string -> Outcomes` gives, for each URL, what the HEAD request, the
Content-Length header, the GET request, the file creation and the body copy
give back, plus the reported average: the Content-Length divided by the
seconds the copy took (downloader/downloader.go:92). `Run` also takes the
torrent strategy's reply for each URI, and a function
`fs: string -> Result<Element, Error>` that gives, for each path, the
result of reading that local file and parsing its XML. A speed of `None` stands for the empty
speed string Go returns on failure. `Some(Speed(amount, unit))` stands for
`amount` printed with `%6.2f`, followed by `KiB/s` or `MiB/s`.

Notes on what the code does:
- Usage is shown when there is no URI argument at all. A missing output
  argument is not an error (main.go:23-30).
- A rate of exactly 1048576 B/s is reported as 1024 KiB/s, not 1 MiB/s,
  because the test is a strict `>` (downloader/downloader.go:158).
- The output file is created only after HEAD, the Content-Length parse and
  GET have all succeeded. So a bad Content-Length leaves no file
  (downloader/downloader.go:58-72).

## Model

| member | source | states |
|---|---|---|
| `Kzn.Classify` | main.go:38-50 | torrent exactly when the URI starts with "magnet:" or ends in ".torrent" in any case; metalink exactly when it is not torrent and ends in ".metalink" in any case; otherwise HTTP into the second argument if non-empty, else into Base(uri) |
| `Kzn.OutputOnlyNamesHttpFile` | main.go:40-48 | the second argument never changes a torrent or metalink classification, nor whether the URI is HTTP |
| `Kzn.TorrentSuffixAnyCase` | main.go:40 | any URI whose last eight characters lower to ".torrent" is torrent, whatever follows in the second argument |
| `Kzn.MetalinkSuffixAnyCase` | main.go:42-43 | a non-magnet URI whose last nine characters lower to ".metalink" is metalink, and the second argument is ignored |
| `Kzn.MagnetExample` | main.go:40-41 | "magnet:?dn=set.metalink" is torrent: the magnet prefix wins over a metalink suffix |
| `Kzn.TorrentFileExample` | main.go:40 | "FILE.TORRENT" is torrent |
| `Kzn.MetalinkExample` | main.go:42-43 | "set.metalink" with output "out.bin" is metalink |
| `Kzn.HttpByLastChar` | main.go:44-48 | a non-magnet URI whose lowered last character is neither 't' nor 'k' goes to HTTP |
| `Kzn.UpperCaseMagnetIsHttp` | main.go:40-48 | the magnet test is case-sensitive: a "MAGNET:" link without '/' and without a ".torrent" or ".metalink" ending in any case goes to HTTP, named after the whole link |
| `Kzn.UpperCaseMagnetExample` | main.go:40-48 | "MAGNET:?dn=cat", which ends in 't' but not in ".torrent", goes to HTTP into "MAGNET:?dn=cat" |
| `Kzn.HttpExample` | main.go:44-48 | "http://host/file.bin" goes to HTTP into "file.bin", or into the second argument "copy.bin" when given |
| `Kzn.OutputArg` | main.go:27-30 | the output name is "" exactly when there is no second argument or it is empty; otherwise it is the second argument |
| `Kzn.EmptyOutputIsAbsent` | main.go:27-47 | an explicit empty second argument classifies exactly like a missing one |
| `Kzn.Status` | main.go:51-52 | "ERR" exactly when the strategy returned an error, "OK" exactly when it did not |
| `Kzn.Run` | main.go:22-54 | usage exactly when there is no URI; otherwise a six-character hex gid, the strategy Classify picks, the status "ERR" iff the reply carries an error, the torrent reply for the URI passed through, the metalink contract over the file the URI names, and for HTTP the download contract over the answers to the URI itself into the chosen file |
| `Downloader.RandHex` | downloader/downloader.go:47-54 | the result has exactly n characters, each one of "0123456789abcdef" |
| `Downloader.FormatSpeed` | downloader/downloader.go:157-162 | MiB/s exactly when the rate exceeds 1048576 B/s; the amount times the unit's size in bytes equals the rate |
| `Downloader.FormatSpeedRange` | downloader/downloader.go:158-161 | for a non-negative rate, a MiB/s amount is above 1 and a KiB/s amount lies in [0, 1024] |
| `Downloader.FormatSpeedExamples` | downloader/downloader.go:158-161 | 1048576 B/s is 1024 KiB/s, 2097152 B/s is 2 MiB/s, 512 B/s is 0.5 KiB/s |
| `Downloader.DownloadHTTP` | downloader/downloader.go:57-94 | over the answers to the given URL, tries HEAD, Content-Length parse, GET, create, copy in order and stops at the first failure; returns the input filename always, the failing step's error unchanged, and a speed (FormatSpeed of the measured rate) exactly on success; a HEAD failure runs only HEAD, a parse failure only HEAD and the parse |
| `Downloader.StopsAtFirstFailureUnique` | downloader/downloader.go:58-90 | the outcomes determine the steps tried: two traces that both stop at the first failure are equal |
| `Downloader.EarlyFailureSkipsTransfer` | downloader/downloader.go:58-72 | after a HEAD failure or an unparsable Content-Length, neither GET nor file creation nor the copy is attempted, and an error is returned |
| `Downloader.HttpSucceedsIffEveryStepSucceeds` | downloader/downloader.go:57-93 | the download succeeds exactly when all five steps succeed, it reports a speed exactly when it succeeds, and the path is always the input filename |
| `Downloader.SelectMirror` | downloader/downloader.go:148-151 | fails with "no URLs in metalink" exactly when there is no file or the first file has no URL; otherwise selects the first URL of the first file |
| `Downloader.SelectMirrorIgnoresRest` | downloader/downloader.go:151 | descriptors with the same first URL of the first file select the same mirror, whatever later URLs and files hold |
| `Downloader.SelectMirrorExamples` | downloader/downloader.go:148-153 | no files fails; an empty first file fails even when a later file has URLs; ["http://a/x.bin", "http://b/x.bin"] selects "http://a/x.bin", whose file name is "x.bin" |
| `Downloader.DownloadMetalink` | downloader/downloader.go:139-154 | over the result of reading and parsing the file at the given path: a read or parse error, a root other than metalink, or a document without URLs returns an empty path, no speed and that error before any HTTP step; otherwise the result is DownloadHTTP's over the answers to the selected URL, into Base of that URL |
| `Downloader.MetalinkFetchesFirstUrl` | downloader/downloader.go:145-153 | for a metalink root, the strategy fails with "no URLs in metalink" exactly when there is no first file element or it has no url element, and otherwise downloads the text of that first url element into its last path element |
| `Metalink.ChildrenNamed` | downloader/downloader.go:23-27 | the collected elements all carry the name and come from the children; there are none exactly when no child has the name |
| `Metalink.ChildrenNamedMembers` | downloader/downloader.go:23-27 | an element is collected exactly when it is a child with that name |
| `Metalink.ChildrenNamedFirst` | downloader/downloader.go:23-27 | the first collected element is the first child with that name |
| `Metalink.ChildrenNamedLast` | downloader/downloader.go:24-26 | the last collected element is the last child with that name |
| `Metalink.ChildrenNamedAppend` | downloader/downloader.go:23-27 | collecting the children of a concatenation is the concatenation of the collections, so document order is kept and nothing is dropped or repeated |
| `Metalink.DecodeWith` | downloader/downloader.go:21-28 | a root not named "metalink" is the error "expected element type <metalink> but have <name>"; otherwise one entry per file child of the root, and one URL per url child of that file, each given by the URL reading passed in |
| `Metalink.NestedUrl` | downloader/downloader.go:24-26 | as the inner tag is written, a url element with no url child gives "" |
| `Metalink.NestedUrlIsLast` | downloader/downloader.go:24-26 | as the inner tag is written, a url element with url children gives the text of the last of them, not its own text |
| `Metalink.NestedUrlTakesLast` | downloader/downloader.go:24-26 | a url element holding two url elements with texts a and b gives b |
| `Metalink.DecodeAsWritten` | downloader/downloader.go:21-28 | as the tags are written: an error exactly for a root not named "metalink", otherwise one entry per file element and one URL per url element, each read from the url elements nested inside it |
| `Metalink.Decode` | downloader/downloader.go:21-28 | the corrected decoding fails exactly for a root not named "metalink", with encoding/xml's message |
| `Metalink.DecodeKeepsUrlText` | downloader/downloader.go:21-28 | the corrected decoding gives one entry per file element of the root and one URL per url element of that file, each the url element's own text |
| `Metalink.AsWrittenDropsUrlText` | downloader/downloader.go:23-27 | as the tags are written, every URL of a document whose url elements hold no nested url element decodes to "", whatever other elements the files hold |
| `Metalink.OneMirrorDecodings` | downloader/downloader.go:23-27 | the one-file, one-url document for "http://a/x.bin" decodes to the URL "" as written and to "http://a/x.bin" as corrected |
| `FilePath.Base` | main.go:46 | "." for the empty path; never empty; either "/" or free of '/' |
| `FilePath.BaseOfLastElement` | downloader/downloader.go:152 | when a path is a prefix ending in '/' (or empty), a non-empty name without '/', then only slashes, Base returns that name |
| `FilePath.BaseIsLastElement` | main.go:46 | when a path holds any character other than '/', Base returns its last element in that sense |
| `FilePath.BaseIsRoot` | main.go:46 | Base is "/" exactly for a non-empty path of slashes only |
| `FilePath.BaseOfName` | main.go:46 | a slash-free name after a prefix ending in '/' (or after nothing), followed by any number of slashes, is the base |
| `FilePath.FileUrlExample` | main.go:46 | "http://host/file.bin" gives "file.bin" |
| `FilePath.MirrorUrlExample` | downloader/downloader.go:152 | "http://a/x.bin" gives "x.bin" |
| `FilePath.TrailingSlashExample` | main.go:46 | "http://host/dir/" gives "dir" |
| `FilePath.EmptyAndRootExamples` | main.go:46 | "" gives "." and "///" gives "/" |
| `StrConv.Atoi` | downloader/downloader.go:62 | the empty header, "+" and "-" are errors; a result fits a 64-bit int, comes from an optional sign and decimal digits, and its sign matches the written one |
| `StrConv.AtoiDecimal` | downloader/downloader.go:62-65 | parsing the decimal form of n gives n back when n fits a 64-bit int, and an error otherwise |
| `StrConv.AtoiSignedDigits` | downloader/downloader.go:62-65 | conversely, an optional '+' or '-' then one or more digits parses to the signed value of the digits when it fits a 64-bit int, and is an error otherwise |
| `StrConv.AtoiPadded` | downloader/downloader.go:62-65 | a sign and leading zeros before the decimal digits of n parse to the signed n when it fits |
| `StrConv.AtoiPaddedExamples` | downloader/downloader.go:62-65 | "+5" parses to 5 and "007" to 7 |
| `StrConv.AtoiExamples` | downloader/downloader.go:62-65 | "4096" parses to 4096 |
| `StrConv.AtoiNegativeExample` | downloader/downloader.go:62-65 | "-5" parses to -5 |
| `StrConv.AtoiRejectExamples` | downloader/downloader.go:62-65 | "12a" and " 12" are errors |
| `Strings.HasPrefix` | main.go:40 | s starts with prefix exactly when s is prefix followed by the rest of s |
| `Strings.HasSuffix` | main.go:40-42 | s ends with suffix exactly when s is the rest of s followed by suffix |
| `Strings.LowerChar` | main.go:40-42 | 'A'..'Z' move up by 32, the Kelvin sign lowers to 'k' and the capital I with dot above to 'i', nothing else changes, and no result is an upper-case ASCII letter |
| `Strings.ToLower` | main.go:40-42 | the lowered string has the same length and lowers each character in place |
| `Strings.SuffixIgnoringCase` | main.go:40 | a suffix test on the lowered URI compares its last characters one by one, each lowered |

## Left out

- The torrent strategy (downloader/downloader.go:97-136): it consists of calls into an external torrent library, a blocking wait for metadata and a 500 ms polling loop. `Run` takes its reply for each URI as a function parameter.
- The HTTP requests, the response bodies and the streamed copy: network I/O. They appear only as the success or error outcomes in `Downloader.Outcomes`.
- Reading the metalink file and parsing its XML text into elements (downloader/downloader.go:140-145): file I/O and a library parser. `DownloadMetalink` takes their outcomes as a function `fs` from a path to a `Result` holding the root element. As in main.go:43, the path is the URI itself, so a metalink URI is always read as a local file, an `http://` one included. The mapping of elements onto the struct is modelled in `Metalink`. As the tags are written, each URL string comes from a `<url>` element nested inside another `<url>` (see "## Findings"). XML namespaces and attributes play no part in that mapping and are left out.
- Downloader.DownloadMetalink: decodes with the corrected `Metalink.Decode`, so it fetches the text of the first `<url>` element. The code as written fetches "" for such a document (see "## Findings").
- The progress bars, `LogStart`, `LogComplete`, `PrintResults`, the timestamps and the printing of `Error: ...`: console output.
- The clock and the average `total / dur.Seconds()` (downloader/downloader.go:91-92): the reported rate is the `avg` field of `Outcomes`. It is computed from the Content-Length, not from the bytes actually copied. The parsed Content-Length feeds only the progress bar and this average, so the model drops it after the parse.
- Downloader.FormatSpeed: keeps the unit choice and the divisor, but not the `%6.2f` text. Floating-point formatting and `float64` rounding are not modelled; `real` is exact.
- Downloader.FormatSpeed: `real` has no infinity and no NaN. A zero duration makes Go's average +Inf for a positive length, which is shown in MiB/s. For a zero length it is NaN, which fails the `>` test and is shown in KiB/s.
- Downloader.RandHex: the random index is an arbitrary choice in [0, 16), not `math/rand`, and `rand.Seed` (main.go:16) is left out. A negative `n`, which makes Go panic, is excluded by the type `nat`.
- StrConv.Atoi: does not tell a syntax error from an out-of-range error. Both are the single error `InvalidLength(header)`.
- Strings.ToLower: lowers only 'A'..'Z', the Kelvin sign and the capital I with dot above, the characters Go lowers to ASCII letters. Other characters are kept. This cannot change a match against the ASCII suffixes ".torrent" and ".metalink". Go's replacement of invalid UTF-8 is not modelled: a Dafny string always holds valid characters.
- Command-line flag parsing beyond the list of positional arguments, and the process exit on usage, are not modelled.

## Findings

| source | as written | input that shows it | evidently intended | confidence | as-written member | corrected member |
|---|---|---|---|---|---|---|
| downloader/downloader.go:23-27 | the element type of the `URLs` slice is tagged "url", and so is its inner `URL` field, so each URL string is read from a `<url>` nested inside a `<url>` and the outer element's text is dropped | `<metalink><file><url>http://a/x.bin</url></file></metalink>` decodes to the URL "", so the file name is "." and the HEAD request for "" fails | each URL is the character data of the `<url>` element itself | high; not executed | `Metalink.AsWrittenDropsUrlText` (over `Metalink.DecodeAsWritten`), `Metalink.NestedUrlIsLast`, `Metalink.OneMirrorDecodings` | `Metalink.DecodeKeepsUrlText` (over `Metalink.Decode`), `Downloader.MetalinkFetchesFirstUrl` |
