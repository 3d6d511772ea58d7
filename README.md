# YouTube proxy and playlist loader: a Dafny model

The system is a small HTTP proxy (`server.js`) that streams YouTube content
to network players such as Sonos, and a loader (`load.js`) that builds an M3U
playlist of proxy URLs from an M3U file or a Google spreadsheet.

This project models the decision logic of both halves and proves what it
promises:

- **Request gate.** `ProxyService._onRequest` turns a request target and its
  `User-Agent` header into a display name, a content id (`chid`) and an
  audio flag, or refuses the request.
- **Fetch registry.** `YouTubePlayer` keeps the `_active` map of running
  fetches. `playCached` decides between serving the cache, answering
  `Busy`, and starting a fetch. Each fetch's `onclose` clean-up is shared by
  its event handlers, and `clean` tears everything down. The player also
  has the pure helpers `_buildOptions` and `_getMp3FCacheFilePath`.
- **Command line.** The `-p`/`--port` loop over `process.argv`, with
  JavaScript's `parseInt`.
- **Playlist text.**
  - The M3U line filter.
  - Spreadsheet rows to proxy URLs, including extracting the video id from
    a link.
  - The spreadsheet id taken from a sharing link.
  - The default answer of a prompt.
  - The M3U file the loader writes, with the round trip from writer to
    filter.
- **Interop.** A URL the loader writes is routed by the proxy to the row's
  video id when the display name has no `?` or `#` and the id has no `&` or
  `#`. The loader does not escape them, and the other cases are stated too.

## Modules

- `Wrappers`: `Option`.
- `Text`: the JavaScript string operations that are used: `trim`, the `\s`
  class, `startsWith`, `includes`, `split` on one character, ASCII
  `toLowerCase`, and the two `replace` calls. `IndexOf` and `Join` are not
  calls of the program: they define `Split` and state its inverse.
- `Paths`: Node's POSIX `path.join` and the normalisation it ends with.
- `Url`: the part of legacy `url.parse(s, true)` that is read: `hostname`,
  `pathname` and the query map.
- `Router`: the pure parsing in `_onRequest`, including the two ways it
  throws (no `User-Agent` for video, no `pathname`).
- `ServerArgs`: the argument loop, as a method proved against a function.
- `Player`: the registry.
  - Pure step functions over a `State`. The state is the `_active` map plus
    a `Host` value standing for the file system and the processes. The
    functions are `Play`, `Admit`, `Close`, `OnEvent`, `Run` and
    `CleanAll`, with their invariant `Inv` and lemmas.
  - Classes `YouTubePlayer`, `Fetch` (the variables shared by one call of
    `playCached` and its `onclose`) and `ProxyService`. Each method's
    `ensures` ties the new state to the step function.
- `Playlist`: the loader's text processing. The writer loop is a method
  proved against `M3uText`.
- `Interop`: the two halves together.

## Behaviour worth noting

- **Cap.** The test is `_active.size > 5` (server.js:182), so a sixth fetch
  is admitted and only the seventh distinct id is refused
  (`Player.SixthAdmittedSeventhBusy`).
- **Second request for a running fetch.** An id already in the map on entry
  is served from the cache file after a delay (`ServeCacheLater`,
  server.js:159-164). An id that enters the map during the `await` of `stat`
  is refused with `Busy`, like any other key already present
  (server.js:182-187).
- **Transcoder errors.** The ffmpeg `error` handler calls `onclose` with no
  error argument (server.js:235-238). The entry is removed and the
  transcoder killed, but the cache file is not unlinked and no 500 is sent
  (`Player.TranscoderErrorIsQuiet`).
- **An audio download's end stops the transcoder.** The download stream's
  `close` also calls `onclose` (server.js:226). In audio mode that kills
  ffmpeg (server.js:203-205), though ffmpeg may still be encoding into the
  cache file (server.js:240-242). No error is passed, so the cut-short file
  is not unlinked. Once it holds any bytes, the next request for the id is
  served that file by the `size > 0` test (server.js:169-170)
  (`Player.UpstreamCloseKeepsCutFile`).
- **Missing `chid`.** The answer is status 500 with the reason
  `Missing Channel Id (chid)` (server.js:77-83).
- **Missing `User-Agent`.** When the video flag is `'1'` or `'true'` and no
  `User-Agent` header was sent, `includes` is called on `undefined` and
  throws (server.js:76). This is the `Threw` response.
- **Cache paths follow `..` in the id.** The cache path is
  `path.join(folder, category, chid + "_" + name)` (server.js:140), and the
  `chid` comes from the query string unchecked. A `chid` of `../video/x` in
  audio mode names the video cache file of `x` (`Player.CacheFileModesCollide`).
  The ids `a/../b` and `c/../b` share a cache file (`Player.CacheFileAliases`).
  A `chid` starting `../../` names a file beside the cache folder
  (`Player.CacheFileEscapes`). With a folder `/<dir>/<sub>`, such as
  `/app/cache`, a request for the id `../../x` is answered with the file
  `/<dir>/x_<name>` whenever that file has content
  (`Player.OutsideFileServed`).
- **Loader URLs are not escaped.** The entry is
  `/<name>.mp3?chid=<id>&video=<flag>` (load.js:211), built without
  `encodeURIComponent`. A `#` in the display name starts the fragment, so the
  proxy sees no query and answers 500 (`Interop.HashInNameLosesQuery`). A
  `?` in the name starts the query early; its first key then ends in
  `.mp3?chid`, so there is no `chid` (`Interop.QuestionInNameLosesChid`). An
  `&` in the id cuts the `chid` at the `&` (`Interop.AmpersandInIdCutsChid`).
- **Items without a path stop the writer.** `url.parse("http:")` and
  `url.parse("https://")` have a `null` pathname (`Url.BareHttpHasNoPath`,
  `Url.BareHttpsHasNoPath`), and both pass the M3U filter. `slice` on `null`
  throws at load.js:267. The file then holds the header and the entries
  before that item (`Playlist.NoPathStopsWriter`, `Playlist.WritePlaylist`).
  The proxy throws the same way when a request target has no pathname
  (server.js:74).

## Model

| member | source | states |
|---|---|---|
| Router.VideoFlag | server.js:75 | The video flag is `video` when it is truthy, else `vid` when that is truthy, else `v`. |
| Router.Route | server.js:72-84 | It throws exactly when the target has no pathname, or when it has one, the flag is `'1'` or `'true'` and no `User-Agent` was sent. Otherwise a request whose `chid` is missing or empty is rejected. A dispatched request has a non-empty `chid` equal to the query's. Its name is the pathname with every `/` removed. Audio is off exactly when the flag asks for video and the agent does not contain `Sonos`. |
| Router.SonosGetsAudio | server.js:76 | A user agent containing `Sonos` anywhere always gets audio. |
| Router.NameWithoutSlashKept | server.js:74 | A pathname with no `/` is the name unchanged. |
| Text.Or | server.js:75 | `a \|\| b` is truthy iff either operand is. It is `a` when `a` is truthy and `b` otherwise. |
| Text.ContainsOccurrence | server.js:76 | `includes` finds a substring whatever surrounds it. |
| Text.ContainsHasOccurrence | server.js:76 | Conversely, when `includes` is true the substring occurs at some index. |
| Text.ContainsSplits | server.js:76 | When `includes` is true the string is some text, the substring, then some text. |
| Text.RemoveAll | server.js:74 | `replace(/\/+/g,'')` leaves no `/`, is no longer than its input, and adds no character. |
| Text.RemoveAllAppend | server.js:74 | Removing `/` distributes over concatenation. |
| Url.Parse | server.js:72 | A pathname, when there is one, is non-empty, and each of its characters is a `/` or comes from the input. |
| Url.SchemeRun | server.js:72 | The longest prefix of scheme characters (letters, digits, `+`, `-`, `.`). |
| Url.Protocol | server.js:72 | A protocol is a prefix of the input of at least two characters: scheme characters, then `:`. |
| Url.ProtocolOf | server.js:72 | Conversely, a non-empty run of scheme characters followed by `:` is found as the protocol, whatever follows. With `Url.Protocol` this fixes the protocol of every input. |
| Url.QueryPairs | server.js:72-73 | The query map of the `&`-separated pieces: empty pieces are skipped, and each other piece is split at its first `=`. Stated by `Url.QuerySingle`, `Url.QueryTwo` and `Interop.TargetParses`. |
| Url.ParseQuery | load.js:206-207 | An empty search gives no pairs; any other is split on `&` into `Url.QueryPairs`. Stated by `Url.QuerySingle`, `Url.QueryTwo` and `Url.ParseHttpsQuery`. |
| Text.Contains | server.js:76 | `includes`: the substring starts at the front or somewhere later. Stated by `Text.ContainsOccurrence` and `Text.ContainsHasOccurrence`, which together say it holds iff the substring occurs at some index. |
| Router.AsksForVideo | server.js:76 | `['1','true'].includes(vid)`: exactly the flags `1` and `true` ask for video. Its use is stated by `Router.Route`. |
| Url.HttpsHasPath | load.js:206-208 | An `https://` URL with a non-empty hostname has a pathname. |
| Url.BareHttpHasNoPath | load.js:267 | `url.parse("http:")` has no pathname. |
| Url.BareHttpsHasNoPath | load.js:267 | `url.parse("https://")` has no pathname. |
| Url.ParsePathAndQuery | server.js:72 | A target `<path>?<search>` without `#` or scheme parses to no host, that path, and the query of `<search>`. |
| Url.QueryTwo | server.js:72 | `k1=v1&k2=v2` parses to both pairs, and the first pair wins on equal keys. |
| ServerArgs.ParseInt | server.js:32 | `parseInt(s)`: leading white space is skipped, then an optional sign and the digits. Its behaviour on all inputs of each shape is stated by `ServerArgs.ParseIntDecimalRun`, `ServerArgs.ParseIntHexRun` and `ServerArgs.LeadingSpaceSkipped`. |
| ServerArgs.DigitRunOf | server.js:32 | The run of digits read is exactly the digits before the first character that is not a digit. |
| ServerArgs.DigitsRead | server.js:32 | The digits in front of such a character are the ones read. |
| ServerArgs.UnsignedDecimal | server.js:32 | A run of decimal digits, not a lone `0` before `x`, is read in base 10 up to the first non-digit. |
| ServerArgs.UnsignedHex | server.js:32 | `0x` or `0X` and a run of hexadecimal digits is read in base 16 up to the first non-digit. With no digit after the prefix it is NaN. |
| ServerArgs.Signed | server.js:32 | A `+` in front keeps the value of the digits; a `-` negates it. |
| ServerArgs.SignsOf | server.js:32 | Digits with no sign or white space of their own are read the same bare or behind `+`, and negated behind `-`. |
| ServerArgs.ParseIntDecimalRun | server.js:32-33 | For every run of decimal digits `d` and every text `t` that does not continue it: `parseInt(d + t)` and `parseInt("+" + d + t)` are the value of `d`, and `parseInt("-" + d + t)` is its negation. A lone `0` before `x` is excluded, as it is the hexadecimal case. |
| ServerArgs.ParseIntHexRun | server.js:32-33 | For every run of hexadecimal digits `h` and text `t` that does not continue it, `parseInt("0x" + h + t)` is the value of `h` in base 16, or NaN when `h` is empty. |
| ServerArgs.ArgsFrom | server.js:26-43 | The argument loop from one position on, as a function. The loop `ParseArgs` is proved equal to it. |
| ServerArgs.ParseArgs | server.js:26-43 | The loop's result equals `ArgsFrom(argv, 2, port)`. `-p`/`--port` consumes the next argument and takes it as the port when `parseInt` gives a number. `-h`/`-?`/`--help` stops with the usage. Anything else is skipped. |
| ServerArgs.NoPortFlagKeepsPort | server.js:26-43 | Without a port flag the port is the initial one, unless help is asked for. |
| ServerArgs.PortFlagSwallowsHelp | server.js:30-34 | `-p -h` consumes `-h` as the port argument. `parseInt` gives NaN, so neither the port nor the help applies. |
| ServerArgs.FlagIsNaN | server.js:32-33 | `parseInt("-h")` is NaN. |
| ServerArgs.ParseIntDecimal | server.js:32 | `parseInt("8090")` is 8090. |
| ServerArgs.ParseIntStopsAtText | server.js:32 | `parseInt("80abc")` is 80: text after the digits is ignored. |
| ServerArgs.ParseIntHex | server.js:32 | `parseInt("0x1F")` is 31: a `0x` prefix selects base 16. |
| ServerArgs.ParseIntNaN | server.js:32-33 | `parseInt("port")` is NaN, so the port is kept. |
| ServerArgs.LeadingSpaceSkipped | server.js:32 | Leading white space does not change what `parseInt` reads. |
| Player.BuildOptions | server.js:99-104 | The filter tests `audioBitrate` iff audio, and the quality is `highestaudio` iff audio. |
| Player.FilterOfMode | server.js:100-102 | The audio filter accepts exactly the formats with a positive audio bitrate. The video filter accepts exactly those with a positive bitrate. |
| Player.OptionsAgree | server.js:99-141 | The one flag selects the `audio` category, the `highestaudio` quality and the `audioBitrate` filter together. |
| Player.CacheFilePath | server.js:138-141 | `path.join(folder, category, chid + "_" + name)`. What it gives is stated by the lemmas below. |
| Player.CacheFileInDir | server.js:138-141 | With no `/` in the id or the name, the path is the category directory `path.join(folder, category)`, `/`, and `<chid>_<name>`. |
| Player.CacheFileModesDiffer | server.js:139-140 | With no `/` in the ids or names, the audio and the video cache file never coincide. |
| Player.CacheFileInjective | server.js:140 | With no `/` in the ids or names, for ids of equal length, equal paths mean equal id and equal name. |
| Player.CacheFileCollision | server.js:140 | Ids of different lengths can collide: `a_b` with name `c` and `a` with name `b_c` share a path. |
| Player.CacheFileAliases | server.js:140 | The id `<sub>/../<chid>` names the cache file of `<chid>`, so `a/../b` and `c/../b` are ids of one length that share a path. |
| Player.CacheFileModesCollide | server.js:139-140 | The audio path of the id `../video/<chid>` is the video path of `<chid>`. |
| Player.CacheFileEscapes | server.js:140 | The path of the id `../../<rest>` is `path.join(folder, "..", "<rest>_<name>")`, beside the cache folder. |
| Player.CacheFileOutsideFolder | server.js:140 | With a folder `/<dir>/<sub>`, such as `/app/cache`, the id `../../<rest>` gives the path `/<dir>/<rest>_<name>`. |
| Player.OutsideFileServed | server.js:158-171 | With a folder `/<dir>/<sub>`, a request for the id `../../<rest>` is served the file `/<dir>/<rest>_<name>` when that file has content, and nothing changes. |
| Player.Category | server.js:139 | The category is `audio` or `video`, `audio` exactly when audio is asked for. |
| Player.CacheDir | server.js:95-96 | The directory made for a category is `path.join(folder, category)`, the same join the cache paths start with (`Player.CacheFileInDir`). |
| Paths.PathJoin | server.js:93 | `path.join`: the non-empty arguments joined with `/`, then normalised. Stated by `Paths.JoinResolved` and `Paths.JoinSegments`. |
| Paths.Normalize | server.js:140 | `path.normalize`: `.` for the empty path, otherwise the segments resolved against `.` and `..`, absolute iff the path starts with `/`, keeping a trailing `/`. Stated by `Paths.JoinResolved` and `Paths.ResolveAppend`. |
| Paths.JoinResolved | server.js:140 | `path.join(first, ...segs)`, for segments without `/`, is the rendering of the segments applied to the first argument's own, absolute iff the first argument starts with `/`. |
| Paths.JoinSegments | server.js:140 | The joined text is non-empty, starts with `/` iff the first argument does, does not end in `/`, and splits into the first argument's segments followed by the new ones. |
| Paths.ResolveAppend | server.js:140 | Resolving segments in two parts is resolving them at once. |
| Paths.ResolvePlain | server.js:140 | Segments other than empty, `.` and `..` are appended as they are. |
| Paths.UpCancels | server.js:140 | A plain segment followed by `..` leaves nothing behind. |
| Paths.SplitSnoc | server.js:140 | Appending `/seg` to a path appends `seg` to its segments. |
| Paths.JoinPlainSnoc | server.js:140 | `path.join(first, dir, seg)` is `path.join(first, dir) + "/" + seg` for plain `dir` and `seg`. |
| Paths.JoinPlainInjective | server.js:140 | `path.join(first, dir, seg)` with plain `dir` and `seg` determines both. |
| Paths.RenderInjective | server.js:140 | Different segment lists without `/` render to different paths. |
| Paths.JoinClimbs | server.js:140 | `path.join(first, dir, "../up/seg")` is `path.join(first, up, seg)`. |
| Paths.JoinDetour | server.js:140 | `path.join(first, dir, "sub/../seg")` is `path.join(first, dir, seg)`. |
| Paths.ClimbFromAbsolute | server.js:140 | `path.join("/a/b", "..", seg)` is `/a/seg`. |
| Player.Kill | server.js:204 | `kill` records the processes as killed and changes no file, no unlink record and no process count. |
| Player.Unlink | server.js:173-175 | `unlink` removes regular files among the paths and nothing else. It records every path as unlinked. |
| Player.Created | server.js:191 | `createWriteStream(path, {flags:'w'})` leaves an empty regular file at the path, unless something other than a regular file, such as a directory, holds it. The parent directory is taken to exist; see "Left out". |
| Player.AfterStat | server.js:166-180 | A zero-byte regular file is unlinked. Any other result of `stat` changes nothing. |
| Player.Admit | server.js:182-248 | `Busy` iff the chid is present or the map holds more than 5 entries, and then the state is unchanged. Otherwise the entry `{ffmpeg, cacheFile}` is added under the chid. A transcoder is present iff audio, and it is a new process. The cache file is created. |
| Player.Play | server.js:158-249 | `ServeCacheLater` iff the chid is already in `_active`, and then nothing changes. `Busy` iff the chid is absent, there is no non-empty cache file and the map holds more than 5 entries. A non-empty cached file is served now with nothing changed. A fetch starts iff the chid is absent, the map holds at most 5 entries and there is no non-empty cache file. The new entry has the cache path and a transcoder iff audio. `Busy` leaves `_active` unchanged. For `Busy` and a started fetch the host is the one after `stat`: a zero-byte cache file has been unlinked. A started fetch then creates the cache file, and starts a new transcoder iff audio; nothing is killed. |
| Player.AdmitKeepsInv | server.js:182-187 | Admission keeps the registry valid. The map stays within 6 entries, each cache file is the cache path of its key in its entry's category, and transcoders stay distinct. |
| Player.AddKeepsInv | server.js:248 | Adding a fresh entry for an absent key below the cap keeps the registry valid. |
| Player.PlayKeepsInv | server.js:158-249 | A whole `playCached` keeps the registry valid. |
| Player.SixthAdmittedSeventhBusy | server.js:182 | With 5 entries a new id is admitted and the map reaches 6. With 6, a new id is `Busy`. |
| Player.ZeroByteFileRefetched | server.js:168-177 | A zero-byte cache file below the cap is unlinked and re-created empty, and a fetch starts. |
| Player.Close | server.js:196-218 | If the chid is live, the entry is deleted, its transcoder is killed and cleared, and the cache file is unlinked only with an error argument. The files change only by that unlink and no process is started. Otherwise nothing changes. An error response is counted only when an error is passed and the request is still open, and that marks it closed. |
| Player.CloseOnce | server.js:201-212 | A second `onclose` after the first changes neither the map nor the host. |
| Player.CloseKeepsInv | server.js:201-202 | `onclose` keeps the registry valid. |
| Player.StaleCloseOrphansTranscoder | server.js:201-206 | The guard is by chid only. A late `onclose` whose transcoder is already cleared removes a newer entry for the same chid, and that entry's transcoder is left running. |
| Player.OnEvent | server.js:219-239 | Request or response `close` only marks the request closed. Download and cache-write errors are `onclose` with an error; their `close` events are `onclose` without one. The transcoder's `close` is heard by two listeners, so an audio fetch runs `onclose` twice, and the second call changes nothing in the map or the host; a video fetch has no transcoder. A transcoder error calls `onclose` without an error: no unlink and no response. Bytes written grow the cache file and change nothing else. |
| Player.OnEventKeepsInv | server.js:219-239 | Every event keeps the registry valid. |
| Player.Run | server.js:219-239 | A sequence of events handled in order, each by `OnEvent`. Its properties are the `Run…` lemmas below. |
| Player.RunErrorsOnce | server.js:213-217 | Over any sequence of events at most one error response is sent, and it marks the request closed. |
| Player.RunNoErrorAfterClose | server.js:194-195 | Once the request or the response has closed, no error response is sent. |
| Player.RunKeepsInv | server.js:219-239 | Every sequence of events keeps the registry valid. |
| Player.TranscoderErrorIsQuiet | server.js:235-238 | A transcoder error removes the entry but neither unlinks the cache file nor sends 500. |
| Player.UpstreamErrorCleansUp | server.js:219 | A download error removes the entry, unlinks the cache file and sends one error response. |
| Player.UpstreamCloseKeepsCutFile | server.js:226 | In audio mode the download's `close` removes the entry and kills the transcoder, but does not unlink the cache file. When that file has content, the next request for the id is served it as it stands. |
| Player.Grown | server.js:241-245 | Bytes piped into the cache file grow it by that many bytes. No process, kill or unlink changes. |
| Player.CleanAll | server.js:127-137 | Afterwards the map is empty. Exactly the recorded transcoders are added to the killed ones, and exactly the recorded cache files to the unlinked ones. Each of those files is no longer a regular file, every other file is unchanged, and no file appears. No process is started. |
| Player.CleanKeepsInv | server.js:136 | The cleared registry is valid. |
| Player.CleanEntry | server.js:128-135 | One turn of `forEach`: the entry's transcoder, if any, is added to the killed ones and its cache file, if non-empty, to the unlinked ones. No process is started. |
| Player.CleanStep | server.js:128-135 | One more turn of `forEach` is cleaning one more key, so the order of the turns does not matter. |
| Player.ForEachEntry | server.js:128-135 | The loop over the entries leaves the host cleaned of every entry. |
| Player.YouTubePlayer.constructor | server.js:89-98 | The folder is the option when truthy, else `path.join(programDir, "cache")`. Both category directories `path.join(folder, category)` exist and the map is empty. |
| Player.YouTubePlayer.PlayCached | server.js:158-249 | The outcome and the new state are those of `Play`, and validity is kept. A `Fetch` is returned iff a fetch started, holding the new entry. |
| Player.YouTubePlayer.Start | server.js:182-248 | The outcome and the new state are those of `Admit`, and validity is kept. |
| Player.YouTubePlayer.Clean | server.js:127-137 | The new state is `CleanAll` of the old one, and it is valid. |
| Player.Fetch.OnClose | server.js:196-218 | The player's state and the fetch's variables change as `Close` says. A valid player stays valid. |
| Player.Fetch.Handle | server.js:219-239 | The player's state and the fetch's variables change as `OnEvent` says, and the player stays valid. |
| Player.ProxyService.OnRequest | server.js:70-85 | A request without `chid` gets 500 `Missing Channel Id (chid)` and leaves the player untouched. A target without a pathname, or a missing `User-Agent` for video, ends in `Threw`, with the player as it was at the throw; the exit that follows is under "Left out". Any other request is `playCached` with the routed name, chid and audio flag. A `Fetch` is returned exactly when a fetch started. The player stays valid. |
| Player.ProxyService.Stop | server.js:60-68 | Stopping cleans the player: the state becomes `CleanAll` of the old one, and the player stays valid. |
| Text.Trim | load.js:174 | The result is no longer than the input and neither starts nor ends with white space. |
| Text.TrimSlice | load.js:174 | `trim` returns a slice of its input, and everything cut off on either side is white space. |
| Text.TrimIdempotent | load.js:174 | Trimming twice is trimming once. |
| Playlist.KeepLine | load.js:174-177 | The test on one trimmed line: non-empty, not starting with `#`, starting with `http`. |
| Playlist.KeepLineIsHttp | load.js:174-177 | A line is kept iff, trimmed, it starts with `http`. The empty and `#` tests are implied. |
| Playlist.FilterLines | load.js:173-181 | No more lines come out than went in. Each starts with `http` and is already trimmed. |
| Playlist.FilterLinesOne | load.js:174-178 | One line gives its trimmed self iff it passes the test, and nothing otherwise. |
| Playlist.FilterLinesAppend | load.js:173-181 | The filter works line by line: filtering a concatenation concatenates the results, so input order is kept. |
| Playlist.ReadM3u | load.js:173-181 | Every entry read starts with `http`, is trimmed and holds no newline. |
| Playlist.FilterLinesFiltered | load.js:173-181 | Lines that passed the filter pass it again unchanged. |
| Playlist.ReadM3uIdempotent | load.js:173-181 | Reading the `'\n'`-join of the filter's output returns that output. |
| Text.Split | load.js:173 | `split('\n')`: at least one part, and no part holds the separator. |
| Text.Join | load.js:173 | The inverse of `split`, used to state what `split` does. |
| Text.SplitJoin | load.js:173 | `split` undoes `join` for parts without the separator. |
| Text.JoinSplit | load.js:173 | `join` undoes `split`. |
| Text.LowerAscii | load.js:189 | The result has the same length, with each A-Z lowered and every other character kept. |
| Playlist.PlayVideo | load.js:189 | `['y','yes'].includes(video.toLowerCase())`. |
| Playlist.PlayVideoAnswers | load.js:189 | `Y`, `yes` and `YES` ask for video. `N`, `no` and the empty answer do not. |
| Playlist.PlayVideoLength | load.js:189 | Only answers of length 1 or 3 ask for video. |
| Text.DashSpaces | load.js:210 | The result has no white space, is no longer than the input, and is empty iff the input is. |
| Text.DashSpacesRun | load.js:210 | A maximal run of white space becomes one `-`. |
| Text.DashSpacesKeeps | load.js:210 | A character other than white space is kept. |
| Text.TrimStartRun | load.js:210 | Skipping leading white space stops at the first other character. |
| Text.DashSpacesWithoutSpace | load.js:210 | A name without white space is kept as is. |
| Playlist.DisplayName | load.js:210 | A missing or blank name falls back to the video id. Otherwise the result is the trimmed name with its white-space runs replaced by `-`, so it is non-empty, has no white space and is no longer than the cell. |
| Playlist.ExtractId | load.js:204-209 | The id of a `videoid` cell: an `https://` link gives its `v` parameter, or the path without its `/` on `youtu.be`. Anything else is the id. Stated by `WatchLinkId`, `ShortLinkId` and `PlainIdsAllKept`. |
| Text.Drop | load.js:207 | `slice(n)`, here and at load.js:267: the input without its first `n` characters, which put back in front give the input, or the empty string when it is shorter. |
| Playlist.BoolText | load.js:211 | `${playVideo}` is `true` or `false`. How the proxy reads it back is stated by `Interop.TargetRoutes`. |
| Playlist.Target | load.js:211 | `/<name>.mp3?chid=<id>&video=<flag>`. How the proxy reads it is stated by `Interop.TargetParses`. |
| Playlist.RowUrl | load.js:204-212 | A row is skipped iff its `videoid` is empty or yields no id. Otherwise the URL is `<server>/<name>.mp3?chid=<id>&video=<flag>`, which starts with `<server>/`. |
| Playlist.RowsToUrls | load.js:202-215 | There are no more URLs than rows, and each starts with `<server>/`. |
| Playlist.RowsToUrlsAppend | load.js:202-215 | The output follows row order: rows concatenated give URLs concatenated. |
| Playlist.PlainIdsAllKept | load.js:204-209 | Rows with a non-empty plain id are all kept. |
| Playlist.WatchLinkId | load.js:205-207 | `https://<host>/watch?v=<id>` on a host other than `youtu.be` gives `<id>`. |
| Playlist.WatchLinkTimeId | load.js:205-207 | `https://<host>/watch?v=<id>&t=<time>` gives `<id>` too. |
| Playlist.HttpsQueryId | load.js:205-207 | Any `https` link with a plain host other than `youtu.be`, a path and a query holding `v` gives that parameter. |
| Playlist.LinkQueryId | load.js:205-207 | An `https://` link whose parsed host is not `youtu.be` gives its `v` parameter. |
| Playlist.ShortLinkId | load.js:205-207 | `https://youtu.be/<id>` gives `<id>`, the path without its `/`. |
| Url.ParseHttpsQuery | load.js:206 | An https URL with a plain host parses to that host, its path and its query. |
| Url.QuerySingle | load.js:206 | `key=value` parses to that single pair. |
| Playlist.SheetId | load.js:288-291 | A changed result implies the link matches the prefix. The result is then the non-empty text between the prefix and the next `/`, with no `/` in it. |
| Playlist.SheetIdOfSharingLink | load.js:288-291 | `https://docs.google.com/spreadsheets/d/<id>/...` gives `<id>`. |
| Playlist.SheetPrefix | load.js:289 | The start of the pattern: each `.` matches any character but a line terminator, and every other character matches itself. |
| Playlist.SheetIdOfMatchingLink | load.js:288-291 | Any link whose first 39 characters match the pattern, followed by a non-empty id without `/` and then `/`, gives that id. |
| Playlist.SheetIdUnescapedDots | load.js:289 | The unescaped dots match any character, so `docsXgoogleYcom` links give an id too. |
| Playlist.SheetIdNeedsClosingSlash | load.js:289-290 | Without a `/` after the id, the link is returned whole. |
| Playlist.PromptAnswer | load.js:74 | The trimmed answer when it is non-empty, and the default otherwise. |
| Playlist.PromptAnswerTrimmed | load.js:74 | A non-default answer is non-empty, trimmed and no longer than what was typed. |
| Playlist.PromptText | load.js:73 | The question starts with the prompt followed by ` [`. |
| Playlist.Title | load.js:267 | There is no title exactly when the item's pathname is `null`, where `slice` throws. A title brings in no newline that the item lacks. |
| Playlist.TitleOfHttpsItem | load.js:267 | An `https` item with a plain host is titled by its path without the leading `/`. |
| Playlist.Written | load.js:265-269 | The items the loop gets through: a prefix of the items, all titled, and the next item, if any, has no title. |
| Playlist.WrittenIs | load.js:265-269 | Those three facts fix what is written. |
| Playlist.WrittenStopsAt | load.js:265-269 | An untitled item ends what is written, whatever follows it. |
| Playlist.NoPathStopsWriter | load.js:265-269 | An item whose pathname is `null` ends the file, which keeps the entries before it. |
| Playlist.ExtInf | load.js:267 | The title line starts with `#` and holds a newline iff the title does. |
| Playlist.M3uLines | load.js:256-268 | The file has two lines plus two per item. |
| Playlist.M3uText | load.js:256-268 | `#EXTM3U\n` followed by each item's title line and item line. Stated by `M3uTextIsJoin` and the round-trip lemmas. |
| Playlist.WriteEntries | load.js:256-270 | The loop with any title function: the text is the header and the entries of the items before the first untitled one, and it throws iff such an item exists. |
| Playlist.WritePlaylist | load.js:256-270 | The text written is `#EXTM3U\n` followed, for each item up to the first whose pathname is `null`, by `\n#EXTINF:-1,<title>` and `\n<item>`. It throws exactly when such an item exists. |
| Playlist.M3uTextIsJoin | load.js:256-268 | That text is the newline-join of the header, an empty line, and a title line and an item line per item. |
| Playlist.M3uLinesFiltered | load.js:256-268 | Filtering those lines gives back the items, whatever the titles. |
| Playlist.M3uLayoutRoundTrip | load.js:256-268 | Reading a written file gives the items, for any titles without a newline. |
| Playlist.M3uRoundTrip | load.js:256-268 | Reading the entries the loader writes gives back the items in order, if each starts with `http`, is trimmed and has no newline. |
| Playlist.ReadWriteReadStable | load.js:173-181 | Writing what was read and reading the file again gives what was written: the items read, up to the first without a pathname. |
| Interop.TargetParses | load.js:211 | For a name without `?` or `#` and an id without `&` or `#`, the target after the server URL parses as path `/<name>.mp3` with the query `chid=<id>`, `video=<flag>`. |
| Interop.TargetRoutes | load.js:211 | For such names and non-empty ids, the proxy dispatches a loader URL with chid = the row's id and name = `<name>.mp3` with `/` removed. Audio is on unless the playlist asked for video and the player is not Sonos. A video request without `User-Agent` throws. |
| Interop.HashInNameLosesQuery | load.js:211 | A `#` in the display name hides the whole query from the proxy, which answers 500. |
| Interop.QuestionInNameLosesChid | load.js:211 | A `?` in the display name leaves the proxy without a `chid`: it answers 500, or throws for a video request without `User-Agent`. |
| Interop.AmpersandInIdCutsChid | load.js:211 | With an `&` in the id, the proxy receives only the part before the `&` as `chid`. |
| Interop.FragmentDropsQuery | server.js:72 | A target that is a path, `#`, and anything parses to that path with an empty query. |

## Left out

- HTTP serving, `pipe`, `PassThrough`, the `setTimeout` delays and response writing are not modelled. Each request ends in an abstract outcome (`ServeCacheLater`, `ServeCache`, `Busy`, `Started`) or a `Response`.
- `playFromCache` and its read-stream errors are not modelled; serving the cache is an outcome only.
- `ytdl`, `ytdl.chooseFormat` and `fluent-ffmpeg` are foreign libraries. Their streams are the events of `FetchEvent`; the bytes they carry are not modelled.
- `getFormat` is left out: it is never called and refers to an undefined `formats`.
- `play` (server.js:250-302) is left out: `_onRequest` never calls it.
- The file system is a `Host` value held by the player, with paths as strings. Two strings name one file only when they are equal: the file system's own resolution of `..` and symbolic links is not modelled. `path.join` itself is modelled in full, and `path.resolve(__dirname)` is the `programDir` parameter.
- Player.CacheFileModesDiffer: holds only for ids and names without `/`. An id with `/` can name the other category's file, as `Player.CacheFileModesCollide` shows.
- Player.CacheFileInjective: holds only for ids and names without `/`. Ids of one length with `..` segments can share a path, as `Player.CacheFileAliases` shows.
- Player.ProxyService.OnRequest: the model stops at the `Threw` response. In the program the exception leaves the request listener uncaught (server.js:76), the process exits, and its `exit` handler calls `stop()` (server.js:313-317), which runs `clean`. That path is the same as `Player.ProxyService.Stop`, but the exit itself is not modelled.
- Player.AfterStat: the `fs.unlink` of a zero-byte file (server.js:173) is asynchronous and not awaited. The model makes it take effect at once, before `createWriteStream`. The program does not fix that order, so the new empty file may be the one unlinked.
- `mkdirSync` failing is not modelled: the constructor always records the two category directories.
- Player.Unlink: `unlinked` and `killed` are sets, so the order of `kill` and `unlink` calls, and repeated calls, are not recorded.
- Player.Play: the `await` of `stat` is modelled as sequential. The only interleaving kept is that `Start` re-checks the map, as `playCached` does after the `await`.
- Player.Close: an argument to `onclose` is either nothing or an `Error`. Other truthy values (which unlink without a 500) are not modelled, and neither is the logging.
- Url.Parse: a simplification of `url.parse`. The fragment, the query, the scheme, the `//` test and the host are cut as Node does, and a `null` pathname is modelled: `http:`, `https://`, and a host with no path under a scheme outside `http`, `https`, `ftp`, `gopher` and `file`. Not modelled: userinfo before `@`, the characters that end a host besides `/`, hostname validation and its length limit, and a leading `//` with no scheme. There is no percent-decoding and no `+` as space. A repeated query key keeps its first value here, where Node gives an array. The input is not trimmed. A `\` before the query is not turned into `/`. Characters such as `{`, `|` and `^` in the path are not percent-escaped.
- Playlist.Title: the throw of `slice` on a `null` pathname is the end of the writer loop. Sonos queueing and the `await` between entries are not modelled. The stream is `end`ed only when the loop finishes, so the model takes the text written before the throw to stay in the file.
- Playlist.M3uText: the text of the entries that are written. `WritePlaylist` writes it only for the items up to the first whose pathname is `null`, and throws there.
- Interop.TargetParses: holds only for names without `?` or `#` and ids without `&` or `#`, because the loader does not escape them. The other cases are `Interop.HashInNameLosesQuery`, `Interop.QuestionInNameLosesChid` and `Interop.AmpersandInIdCutsChid`. A `+` or a `%` escape in the id would also be decoded by Node, which the model does not do.
- Interop.TargetRoutes: holds only for the same names and ids as `Interop.TargetParses`, for the same reason. A client that fetches the URL may also percent-encode characters the loader left as they are, such as a non-ASCII `é` in the name, which reaches the proxy as `%C3%A9`. `url.parse` does not decode the pathname, so the proxy's name then holds the escapes; the model takes the target as received.
- Player.Created: a missing parent directory is not modelled. A `chid` such as `sub/x` names a file in a directory that does not exist. `createWriteStream` then fails asynchronously: the failure shows only as a later `error` event of the write stream (server.js:191, :227), which is the `CacheError` event of `OnEvent`.
- Text.LowerAscii: `toLowerCase` is modelled on ASCII letters only.
- ServerArgs.ParseArgs: `parseInt` is modelled on unbounded integers, so the precision loss of very long digit strings is not modelled. `process.exit` is the `ShowUsage` result.
- The `prompts` loops, `readline`, `getIp`, Sonos discovery/flush/queue, `GoogleSpreadsheet`, `https.get`, `syncPlaylist` and the process signal handlers are I/O and are not modelled.
- Strings are sequences of code points: JavaScript's UTF-16 code units are not modelled.
