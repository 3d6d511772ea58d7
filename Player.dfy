/**
 * The registry of running fetches in `YouTubePlayer`: the `_active` map keyed
 * by content id (`chid`), the decisions `playCached` takes against it and
 * against the cache file, the `onclose` clean-up shared by a fetch's event
 * handlers, and `clean`. Streams, processes and the file system are reduced to
 * a `Host` value: a map from path to file kind and size, the set of killed
 * transcoder processes, the set of paths an `unlink` was issued for, and a
 * counter that names new transcoder processes.
 */
module Player {
  import opened Wrappers
  import Text
  import Router
  import Paths

  // ---------------------------------------------------------------------------
  // Download options and cache paths

  datatype Quality = HighestAudio | HighestVideo

  /** The format field the `filter` callback tests for truthiness. */
  datatype FormatField = AudioBitrate | Bitrate

  datatype YtOptions = YtOptions(filter: FormatField, quality: Quality)

  /** A stream format as offered upstream; `None` or `0` is falsy. */
  datatype Format = Format(bitrate: Option<nat>, audioBitrate: Option<nat>)

  /** `_buildOptions(audio)` */
  function BuildOptions(audio: bool): (o: YtOptions)
    ensures o.filter == AudioBitrate <==> audio
    ensures o.quality == HighestAudio <==> audio
  {
    if audio then YtOptions(AudioBitrate, HighestAudio) else YtOptions(Bitrate, HighestVideo)
  }

  predicate PositiveField(v: Option<nat>) {
    v.Some? && v.value > 0
  }

  /** The `filter` callback applied to a format. */
  predicate Accepts(filter: FormatField, f: Format) {
    match filter
    case AudioBitrate => PositiveField(f.audioBitrate)
    case Bitrate => PositiveField(f.bitrate)
  }

  /** An audio fetch takes any format that carries audio, a video fetch any format with a bitrate. */
  lemma FilterOfMode(audio: bool, f: Format)
    ensures Accepts(BuildOptions(audio).filter, f) <==> if audio then PositiveField(f.audioBitrate) else PositiveField(f.bitrate)
  {
  }

  function Category(audio: bool): (r: string)
    ensures r == "audio" || r == "video"
    ensures r == "audio" <==> audio
  {
    if audio then "audio" else "video"
  }

  /** The directory of one category of cache files: `path.join(folder, category)`. */
  function CacheDir(folder: string, audio: bool): string {
    Paths.PathJoin([folder, Category(audio)])
  }

  /** `_getMp3FCacheFilePath(name, chid, { audio })`: `path.join(folder, category, chid + "_" + name)`. */
  function CacheFilePath(folder: string, name: string, chid: string, audio: bool): string {
    Paths.PathJoin([folder, Category(audio), chid + "_" + name])
  }

  /** The flag alone picks the category, the quality and the filter, consistently. */
  lemma OptionsAgree(audio: bool)
    ensures Category(audio) == "audio" <==> BuildOptions(audio).quality == HighestAudio
    ensures BuildOptions(audio).filter == AudioBitrate <==> BuildOptions(audio).quality == HighestAudio
  {
  }

  /** The file segment of a cache path; plain when neither the id nor the name holds a `/`. */
  lemma FileSegmentPlain(name: string, chid: string)
    requires '/' !in chid && '/' !in name
    ensures Paths.Plain(chid + "_" + name)
  {
    var seg := chid + "_" + name;
    assert seg[|chid|] == '_';
    assert forall c | c in seg :: c in chid || c == '_' || c in name;
  }

  /** With no `/` in the id or the name, the cache file sits directly in its category's directory. */
  lemma CacheFileInDir(folder: string, name: string, chid: string, audio: bool)
    requires '/' !in chid && '/' !in name
    ensures CacheFilePath(folder, name, chid, audio) == CacheDir(folder, audio) + "/" + chid + "_" + name
  {
    FileSegmentPlain(name, chid);
    Paths.JoinPlainSnoc(folder, Category(audio), chid + "_" + name);
  }

  /** With no `/` in ids or names, the audio and the video cache file never coincide. */
  lemma CacheFileModesDiffer(folder: string, name1: string, name2: string, chid1: string, chid2: string)
    requires '/' !in chid1 && '/' !in name1 && '/' !in chid2 && '/' !in name2
    ensures CacheFilePath(folder, name1, chid1, true) != CacheFilePath(folder, name2, chid2, false)
  {
    FileSegmentPlain(name1, chid1);
    FileSegmentPlain(name2, chid2);
    if CacheFilePath(folder, name1, chid1, true) == CacheFilePath(folder, name2, chid2, false) {
      Paths.JoinPlainInjective(folder, "audio", chid1 + "_" + name1, "video", chid2 + "_" + name2);
    }
  }

  /** With no `/` in ids or names, ids of one length never collide. */
  lemma CacheFileInjective(folder: string, name1: string, name2: string, chid1: string, chid2: string, audio: bool)
    requires '/' !in chid1 && '/' !in name1 && '/' !in chid2 && '/' !in name2
    requires |chid1| == |chid2|
    requires CacheFilePath(folder, name1, chid1, audio) == CacheFilePath(folder, name2, chid2, audio)
    ensures chid1 == chid2 && name1 == name2
  {
    var s1, s2 := chid1 + "_" + name1, chid2 + "_" + name2;
    FileSegmentPlain(name1, chid1);
    FileSegmentPlain(name2, chid2);
    Paths.JoinPlainInjective(folder, Category(audio), s1, Category(audio), s2);
    assert chid1 == s1[..|chid1|] && chid2 == s2[..|chid2|];
    assert name1 == s1[|chid1| + 1..] && name2 == s2[|chid2| + 1..];
  }

  /** Ids of different lengths can collide: `a_b` with name `c` and `a` with name `b_c` share a path. */
  lemma CacheFileCollision(folder: string, audio: bool)
    ensures CacheFilePath(folder, "c", "a_b", audio) == CacheFilePath(folder, "b_c", "a", audio)
  {
    assert "a_b" + "_" + "c" == "a" + "_" + "b_c";
  }

  /** An id that climbs out of the audio directory into the video one names a video cache file. */
  lemma CacheFileModesCollide(folder: string, name: string, chid: string)
    requires '/' !in chid && '/' !in name
    ensures CacheFilePath(folder, name, "../video/" + chid, true) == CacheFilePath(folder, name, chid, false)
  {
    FileSegmentPlain(name, chid);
    assert ("../video/" + chid) + "_" + name == ".." + "/" + "video" + "/" + (chid + "_" + name) by {
      assert "../video/" == ".." + "/" + "video" + "/";
    }
    Paths.JoinClimbs(folder, "audio", "video", chid + "_" + name);
  }

  /** An id starting `../../` names a file beside the cache folder, outside it. */
  lemma CacheFileEscapes(folder: string, name: string, rest: string, audio: bool)
    requires '/' !in rest && '/' !in name
    ensures CacheFilePath(folder, name, "../../" + rest, audio) == Paths.PathJoin([folder, "..", rest + "_" + name])
  {
    FileSegmentPlain(name, rest);
    assert ("../../" + rest) + "_" + name == ".." + "/" + ".." + "/" + (rest + "_" + name) by {
      assert "../../" == ".." + "/" + ".." + "/";
    }
    Paths.JoinClimbs(folder, Category(audio), "..", rest + "_" + name);
  }

  /** Ids of one length can collide: `<sub>/../<chid>` names the cache file of `<chid>`, so `a/../b` and `c/../b` share a path. */
  lemma CacheFileAliases(folder: string, name: string, sub: string, chid: string, audio: bool)
    requires Paths.Plain(sub) && '/' !in chid && '/' !in name
    ensures CacheFilePath(folder, name, sub + "/../" + chid, audio) == CacheFilePath(folder, name, chid, audio)
  {
    FileSegmentPlain(name, chid);
    assert (sub + "/../" + chid) + "_" + name == sub + "/" + ".." + "/" + (chid + "_" + name) by {
      assert "/../" == "/" + ".." + "/";
    }
    Paths.JoinDetour(folder, Category(audio), sub, chid + "_" + name);
  }

  /** With a cache folder `/<dir>/<sub>`, such as `/app/cache`, the id `../../x` names the file `x_<name>` in `/<dir>`. */
  lemma CacheFileOutsideFolder(dir: string, sub: string, name: string, rest: string, audio: bool)
    requires Paths.Plain(dir) && Paths.Plain(sub) && '/' !in rest && '/' !in name
    ensures CacheFilePath("/" + dir + "/" + sub, name, "../../" + rest, audio) == "/" + dir + "/" + (rest + "_" + name)
  {
    CacheFileEscapes("/" + dir + "/" + sub, name, rest, audio);
    FileSegmentPlain(name, rest);
    Paths.ClimbFromAbsolute(dir, sub, rest + "_" + name);
  }

  // ---------------------------------------------------------------------------
  // The state the player works on

  /** A transcoder process, named by the order in which it was started. */
  type ProcId = nat

  /** The `{ ffmpeg, cacheFile }` value stored in `_active`. */
  datatype Entry = Entry(ffmpeg: Option<ProcId>, cacheFile: string)

  /** What `stat` finds at a path: a regular file and its size, or anything else. */
  datatype FileStat = RegularFile(size: nat) | NotAFile

  /**
   * The world outside the process: `files` is what `stat` sees (an absent path
   * makes it throw), `killed` the transcoders `kill` was called on, `unlinked`
   * the paths an `unlink` was issued for, `nextProc` the name of the next
   * transcoder.
   */
  datatype Host = Host(files: map<string, FileStat>, killed: set<ProcId>, unlinked: set<string>, nextProc: ProcId)

  datatype State = State(active: map<string, Entry>, host: Host)

  /** `_active.size > 5` is the cap test, so the map can reach six entries. */
  const BusyAbove := 5
  const MaxActive := 6

  /** `unlink` of each path: a regular file disappears; any other kind of entry makes `unlink` fail and stays. */
  function Unlink(h: Host, paths: set<string>): (r: Host)
    ensures r.killed == h.killed && r.nextProc == h.nextProc && r.unlinked == h.unlinked + paths
    ensures forall f | f in h.files :: (f in r.files <==> !(f in paths && h.files[f].RegularFile?))
    ensures forall f | f in r.files :: f in h.files && r.files[f] == h.files[f]
  {
    h.(files := map f | f in h.files && !(f in paths && h.files[f].RegularFile?) :: h.files[f],
       unlinked := h.unlinked + paths)
  }

  function Kill(h: Host, procs: set<ProcId>): (r: Host)
    ensures r.killed == h.killed + procs
    ensures r.files == h.files && r.unlinked == h.unlinked && r.nextProc == h.nextProc
  {
    h.(killed := h.killed + procs)
  }

  /** `createWriteStream(path, {flags: 'w'})`: an empty regular file, unless the path is taken by something else. */
  function Created(files: map<string, FileStat>, path: string): (r: map<string, FileStat>)
    ensures path in r
    ensures path in files && files[path].NotAFile? ==> r == files
    ensures !(path in files && files[path].NotAFile?) ==> r[path] == RegularFile(0)
  {
    if path in files && files[path].NotAFile? then files else files[path := RegularFile(0)]
  }

  /** Each cache file is the cache path of its key, for some name, in its entry's category. */
  ghost predicate Named(folder: string, active: map<string, Entry>) {
    forall c | c in active :: exists name :: active[c].cacheFile == CacheFilePath(folder, name, c, active[c].ffmpeg.Some?)
  }

  /** Every recorded transcoder was started before `next`. */
  predicate StartedBefore(active: map<string, Entry>, next: ProcId) {
    forall c | c in active && active[c].ffmpeg.Some? :: active[c].ffmpeg.value < next
  }

  /** No transcoder is recorded under two keys. */
  predicate DistinctTranscoders(active: map<string, Entry>) {
    forall c, d | c in active && d in active && c != d && active[c].ffmpeg.Some? && active[d].ffmpeg.Some? ::
      active[c].ffmpeg.value != active[d].ffmpeg.value
  }

  /** Valid registries: at most six entries, each cache file in its entry's category and named after its key, distinct live transcoders. */
  ghost predicate Inv(folder: string, s: State) {
    && |s.active| <= MaxActive
    && Named(folder, s.active)
    && StartedBefore(s.active, s.host.nextProc)
    && DistinctTranscoders(s.active)
  }

  // ---------------------------------------------------------------------------
  // playCached

  /**
   * How a request for a content id ends: sent the cache file after a delay
   * (a fetch for it is running), sent the cache file now, refused with 500
   * `Busy` after a delay, or answered by a new fetch.
   */
  datatype Outcome = ServeCacheLater | ServeCache | Busy | Started(entry: Entry)

  datatype Step = Step(outcome: Outcome, state: State)

  /** `stat` finds a regular file with content. */
  predicate Cached(h: Host, path: string) {
    path in h.files && h.files[path].RegularFile? && h.files[path].size > 0
  }

  predicate ZeroBytes(h: Host, path: string) {
    path in h.files && h.files[path] == RegularFile(0)
  }

  /**
   * After the `await`: the admission test, then the fetch. The test looks at
   * the map as it is now, so a request for a content id whose fetch began
   * while this one waited is refused like any other duplicate.
   */
  function Admit(s: State, chid: string, cacheFile: string, audio: bool): (r: Step)
    ensures r.outcome.Busy? <==> chid in s.active || |s.active| > BusyAbove
    ensures r.outcome.Busy? || r.outcome.Started?
    ensures r.outcome.Busy? ==> r.state == s
    ensures r.outcome.Started? ==>
      && r.state.active == s.active[chid := r.outcome.entry]
      && r.outcome.entry.cacheFile == cacheFile
      && (r.outcome.entry.ffmpeg.Some? <==> audio)
      && (audio ==> r.outcome.entry.ffmpeg == Some(s.host.nextProc))
      && r.state.host.files == Created(s.host.files, cacheFile)
      && r.state.host.killed == s.host.killed && r.state.host.unlinked == s.host.unlinked
      && r.state.host.nextProc == s.host.nextProc + (if audio then 1 else 0)
  {
    if chid in s.active || |s.active| > BusyAbove then Step(Busy, s)
    else
      var ffmpeg := if audio then Some(s.host.nextProc) else None;
      var host := s.host.(files := Created(s.host.files, cacheFile), nextProc := if audio then s.host.nextProc + 1 else s.host.nextProc);
      var entry := Entry(ffmpeg, cacheFile);
      Step(Started(entry), State(s.active[chid := entry], host))
  }

  /** The `stat` of the cache file: a zero-byte regular file is unlinked, anything else is left as is. */
  function AfterStat(s: State, cacheFile: string): (r: State)
    ensures r.active == s.active
    ensures ZeroBytes(s.host, cacheFile) ==> r.host == Unlink(s.host, {cacheFile})
    ensures !ZeroBytes(s.host, cacheFile) ==> r == s
  {
    if ZeroBytes(s.host, cacheFile) then s.(host := Unlink(s.host, {cacheFile})) else s
  }

  /** `playCached(req, res, name, chid, { audio })` run without interruption at the `await`. */
  function Play(s: State, folder: string, name: string, chid: string, audio: bool): (r: Step)
    ensures chid in s.active ==> r == Step(ServeCacheLater, s)
    ensures r.outcome.ServeCacheLater? <==> chid in s.active
    ensures r.outcome.ServeCache? <==> chid !in s.active && Cached(s.host, CacheFilePath(folder, name, chid, audio))
    ensures r.outcome.ServeCache? ==> r.state == s
    ensures r.outcome.Busy? <==>
      chid !in s.active && |s.active| > BusyAbove && !Cached(s.host, CacheFilePath(folder, name, chid, audio))
    ensures r.outcome.Busy? ==> r.state.active == s.active
    ensures r.outcome.Started? <==>
      chid !in s.active && |s.active| <= BusyAbove && !Cached(s.host, CacheFilePath(folder, name, chid, audio))
    ensures r.outcome.Started? ==>
      && r.state.active == s.active[chid := r.outcome.entry]
      && r.outcome.entry.cacheFile == CacheFilePath(folder, name, chid, audio)
      && (r.outcome.entry.ffmpeg.Some? <==> audio)
    ensures r.outcome.Busy? ==> r.state == AfterStat(s, CacheFilePath(folder, name, chid, audio))
    ensures r.outcome.Started? ==>
      var stat := AfterStat(s, CacheFilePath(folder, name, chid, audio)).host;
      && r.state.host.files == Created(stat.files, CacheFilePath(folder, name, chid, audio))
      && r.state.host.killed == stat.killed && r.state.host.unlinked == stat.unlinked
      && r.state.host.nextProc == s.host.nextProc + (if audio then 1 else 0)
      && (audio ==> r.outcome.entry.ffmpeg == Some(s.host.nextProc))
  {
    var cacheFile := CacheFilePath(folder, name, chid, audio);
    if chid in s.active then Step(ServeCacheLater, s)
    else if Cached(s.host, cacheFile) then Step(ServeCache, s)
    else Admit(AfterStat(s, cacheFile), chid, cacheFile, audio)
  }

  /** Admission keeps the registry valid: in particular it never holds more than six entries. */
  lemma AdmitKeepsInv(folder: string, s: State, name: string, chid: string, audio: bool)
    requires Inv(folder, s)
    ensures Inv(folder, Admit(s, chid, CacheFilePath(folder, name, chid, audio), audio).state)
  {
    var r := Admit(s, chid, CacheFilePath(folder, name, chid, audio), audio);
    if r.outcome.Started? {
      AddKeepsInv(folder, s, name, chid, r.outcome.entry, r.state.host);
    }
  }

  /** A new entry for an absent key, below the cap, with a fresh transcoder, keeps the registry valid. */
  lemma AddKeepsInv(folder: string, s: State, name: string, chid: string, e: Entry, host: Host)
    requires Inv(folder, s)
    requires chid !in s.active && |s.active| <= BusyAbove
    requires e.cacheFile == CacheFilePath(folder, name, chid, e.ffmpeg.Some?)
    requires e.ffmpeg.Some? ==> e.ffmpeg.value == s.host.nextProc && host.nextProc > s.host.nextProc
    requires host.nextProc >= s.host.nextProc
    ensures Inv(folder, State(s.active[chid := e], host))
  {
    var a := s.active[chid := e];
    assert a.Keys == s.active.Keys + {chid};
    assert |a| == |s.active| + 1;
    AddNamed(folder, s.active, name, chid, e);
    AddStartedBefore(s.active, chid, e, s.host.nextProc, host.nextProc);
    AddDistinct(s.active, chid, e, s.host.nextProc);
  }

  lemma AddNamed(folder: string, active: map<string, Entry>, name: string, chid: string, e: Entry)
    requires Named(folder, active)
    requires e.cacheFile == CacheFilePath(folder, name, chid, e.ffmpeg.Some?)
    ensures Named(folder, active[chid := e])
  {
    var a := active[chid := e];
    forall c | c in a
      ensures exists n :: a[c].cacheFile == CacheFilePath(folder, n, c, a[c].ffmpeg.Some?)
    {
      if c != chid {
        assert a[c] == active[c];
      } else {
        assert a[c].cacheFile == CacheFilePath(folder, name, c, a[c].ffmpeg.Some?);
      }
    }
  }

  lemma AddStartedBefore(active: map<string, Entry>, chid: string, e: Entry, next: ProcId, next': ProcId)
    requires StartedBefore(active, next) && next <= next'
    requires e.ffmpeg.Some? ==> e.ffmpeg.value < next'
    ensures StartedBefore(active[chid := e], next')
  {
    var a := active[chid := e];
    forall c | c in a && a[c].ffmpeg.Some?
      ensures a[c].ffmpeg.value < next'
    {
      if c != chid {
        assert a[c] == active[c];
      }
    }
  }

  lemma AddDistinct(active: map<string, Entry>, chid: string, e: Entry, next: ProcId)
    requires DistinctTranscoders(active) && StartedBefore(active, next)
    requires chid !in active
    requires e.ffmpeg.Some? ==> e.ffmpeg.value == next
    ensures DistinctTranscoders(active[chid := e])
  {
    var a := active[chid := e];
    forall c, d | c in a && d in a && c != d && a[c].ffmpeg.Some? && a[d].ffmpeg.Some?
      ensures a[c].ffmpeg.value != a[d].ffmpeg.value
    {
      if c == chid {
        assert a[d] == active[d];
      } else if d == chid {
        assert a[c] == active[c];
      } else {
        assert a[c] == active[c] && a[d] == active[d];
      }
    }
  }

  lemma PlayKeepsInv(folder: string, s: State, name: string, chid: string, audio: bool)
    requires Inv(folder, s)
    ensures Inv(folder, Play(s, folder, name, chid, audio).state)
  {
    var cacheFile := CacheFilePath(folder, name, chid, audio);
    if chid !in s.active && !Cached(s.host, cacheFile) {
      AdmitKeepsInv(folder, AfterStat(s, cacheFile), name, chid, audio);
    }
  }

  /** With five fetches running a sixth starts; with six, every new content id is refused. */
  lemma SixthAdmittedSeventhBusy(s: State, chid: string, cacheFile: string, audio: bool)
    requires chid !in s.active
    ensures |s.active| == 5 ==> Admit(s, chid, cacheFile, audio).outcome.Started?
    ensures |s.active| == 5 ==> |Admit(s, chid, cacheFile, audio).state.active| == 6
    ensures |s.active| == 6 ==> Admit(s, chid, cacheFile, audio).outcome.Busy?
  {
    if |s.active| == 5 {
      assert Admit(s, chid, cacheFile, audio).state.active.Keys == s.active.Keys + {chid};
    }
  }

  /** With a cache folder `/<dir>/<sub>`, a request for the id `../../x` is answered with `/<dir>/x_<name>` when that file has content. */
  lemma OutsideFileServed(s: State, dir: string, sub: string, name: string, rest: string, audio: bool)
    requires Paths.Plain(dir) && Paths.Plain(sub) && '/' !in rest && '/' !in name
    requires "../../" + rest !in s.active
    requires Cached(s.host, "/" + dir + "/" + (rest + "_" + name))
    ensures Play(s, "/" + dir + "/" + sub, name, "../../" + rest, audio) == Step(ServeCache, s)
  {
    CacheFileOutsideFolder(dir, sub, name, rest, audio);
  }

  /** A zero-byte cache file is unlinked and a new fetch writes a fresh, empty one. */
  lemma ZeroByteFileRefetched(s: State, folder: string, name: string, chid: string, audio: bool)
    requires chid !in s.active && |s.active| <= BusyAbove
    requires ZeroBytes(s.host, CacheFilePath(folder, name, chid, audio))
    ensures var r := Play(s, folder, name, chid, audio);
      && r.outcome.Started?
      && CacheFilePath(folder, name, chid, audio) in r.state.host.unlinked
      && r.state.host.files[CacheFilePath(folder, name, chid, audio)] == RegularFile(0)
  {
  }

  // ---------------------------------------------------------------------------
  // onclose

  /**
   * The variables `onclose` closes over: the content id and cache file, the
   * `ffmpeg` handle (cleared once killed), `reqclosed`, and the number of
   * error responses sent so far.
   */
  datatype Closure = Closure(chid: string, cacheFile: string, ffmpeg: Option<ProcId>, reqClosed: bool, errorsSent: nat)

  /** The argument after `source`: nothing, or an `Error`. */
  datatype CloseArg = NoArg | ErrorArg

  datatype After = After(state: State, closure: Closure)

  /** The closure of a fetch that has just started. */
  function Opened(chid: string, e: Entry): Closure {
    Closure(chid, e.cacheFile, e.ffmpeg, false, 0)
  }

  /** `onclose(source, err)` */
  function Close(s: State, f: Closure, arg: CloseArg): (r: After)
    ensures f.chid in s.active ==>
      && r.state.active == s.active - {f.chid}
      && r.state.host.killed == s.host.killed + (if f.ffmpeg.Some? then {f.ffmpeg.value} else {})
      && r.state.host.unlinked == s.host.unlinked + (if arg.ErrorArg? then {f.cacheFile} else {})
      && r.state.host.files == (if arg.ErrorArg? then Unlink(s.host, {f.cacheFile}).files else s.host.files)
      && r.state.host.nextProc == s.host.nextProc
      && r.closure.ffmpeg.None?
    ensures f.chid !in s.active ==> r.state == s && r.closure.ffmpeg == f.ffmpeg
    ensures r.closure.errorsSent == f.errorsSent + (if !f.reqClosed && arg.ErrorArg? then 1 else 0)
    ensures r.closure.reqClosed == (f.reqClosed || arg.ErrorArg?)
    ensures r.closure.chid == f.chid && r.closure.cacheFile == f.cacheFile
  {
    var (s1, f1) :=
      if f.chid in s.active then
        var killed := if f.ffmpeg.Some? then Kill(s.host, {f.ffmpeg.value}) else s.host;
        var host := if arg.ErrorArg? then Unlink(killed, {f.cacheFile}) else killed;
        (State(s.active - {f.chid}, host), f.(ffmpeg := None))
      else (s, f);
    if f1.reqClosed then After(s1, f1)
    else if arg.ErrorArg? then After(s1, f1.(reqClosed := true, errorsSent := f1.errorsSent + 1))
    else After(s1, f1)
  }

  /** Only the first call finds the entry: a second call right after it changes nothing in the registry or the host. */
  lemma CloseOnce(s: State, f: Closure, a: CloseArg, b: CloseArg)
    ensures var r := Close(s, f, a); Close(r.state, r.closure, b).state == r.state
  {
  }

  /** Removing entries keeps the registry valid. */
  lemma CloseKeepsInv(folder: string, s: State, f: Closure, arg: CloseArg)
    requires Inv(folder, s)
    ensures Inv(folder, Close(s, f, arg).state)
  {
    var r := Close(s, f, arg);
    if f.chid in s.active {
      assert r.state.active.Keys == s.active.Keys - {f.chid};
      assert |r.state.active| <= |s.active|;
    }
  }

  /**
   * The guard is by content id only: a late `close` from an earlier fetch
   * whose transcoder was already cleared removes the entry of a newer fetch
   * for the same content id, and leaves that fetch's transcoder running.
   */
  lemma StaleCloseOrphansTranscoder(s: State, f: Closure, arg: CloseArg)
    requires f.chid in s.active && f.ffmpeg.None?
    requires s.active[f.chid].ffmpeg.Some? && s.active[f.chid].ffmpeg.value !in s.host.killed
    ensures var r := Close(s, f, arg).state;
      f.chid !in r.active && s.active[f.chid].ffmpeg.value !in r.host.killed
  {
  }

  // ---------------------------------------------------------------------------
  // The events a fetch reacts to

  datatype FetchEvent =
    | UpstreamError     // the download stream's `error`, with an `Error`
    | UpstreamClose
    | CacheError        // the cache write stream's `error`
    | CacheClose
    | TranscoderClose   // heard by two listeners
    | TranscoderError   // its handler calls `onclose` with no error
    | RequestClose
    | ResponseClose
    | CacheWritten(bytes: nat)

  /** The cache file grows by what the write stream wrote to it. */
  function Grown(h: Host, path: string, n: nat): (r: Host)
    ensures r.killed == h.killed && r.unlinked == h.unlinked && r.nextProc == h.nextProc
    ensures path in h.files && h.files[path].RegularFile? ==> r.files == h.files[path := RegularFile(h.files[path].size + n)]
  {
    if path in h.files && h.files[path].RegularFile? then h.(files := h.files[path := RegularFile(h.files[path].size + n)]) else h
  }

  /** One event of a fetch; transcoder events only exist for audio fetches. */
  function OnEvent(s: State, f: Closure, audio: bool, ev: FetchEvent): (r: After)
    ensures ev.RequestClose? || ev.ResponseClose? ==> r == After(s, f.(reqClosed := true))
    ensures ev.TranscoderError? ==> r.closure.errorsSent == f.errorsSent && r.state.host.unlinked == s.host.unlinked
    ensures ev.UpstreamError? || ev.CacheError? ==> r == Close(s, f, ErrorArg)
    ensures ev.UpstreamClose? || ev.CacheClose? ==> r == Close(s, f, NoArg)
    ensures ev.TranscoderClose? && audio ==>
      r == Close(Close(s, f, NoArg).state, Close(s, f, NoArg).closure, NoArg)
    ensures ev.TranscoderClose? && audio ==> r.state == Close(s, f, NoArg).state
    ensures ev.TranscoderClose? && !audio ==> r == After(s, f)
    ensures ev.TranscoderError? ==> r == if audio then Close(s, f, NoArg) else After(s, f)
    ensures ev.CacheWritten? ==>
      && r.closure == f && r.state.active == s.active
      && r.state.host == Grown(s.host, f.cacheFile, ev.bytes)
  {
    match ev
    case UpstreamError => Close(s, f, ErrorArg)
    case UpstreamClose => Close(s, f, NoArg)
    case CacheError => Close(s, f, ErrorArg)
    case CacheClose => Close(s, f, NoArg)
    case TranscoderClose =>
      if audio then
        var r := Close(s, f, NoArg);
        Close(r.state, r.closure, NoArg)
      else After(s, f)
    case TranscoderError => if audio then Close(s, f, NoArg) else After(s, f)
    case RequestClose => After(s, f.(reqClosed := true))
    case ResponseClose => After(s, f.(reqClosed := true))
    case CacheWritten(n) => After(s.(host := Grown(s.host, f.cacheFile, n)), f)
  }

  /** A run of events, in order. */
  function Run(s: State, f: Closure, audio: bool, evs: seq<FetchEvent>): After
    decreases |evs|
  {
    if |evs| == 0 then After(s, f)
    else
      var r := OnEvent(s, f, audio, evs[0]);
      Run(r.state, r.closure, audio, evs[1..])
  }

  /** At most one error response, and only while the request is open. */
  predicate ErrorsOnce(f: Closure) {
    f.errorsSent <= 1 && (f.errorsSent == 1 ==> f.reqClosed)
  }

  lemma {:induction false} RunErrorsOnce(s: State, f: Closure, audio: bool, evs: seq<FetchEvent>)
    requires ErrorsOnce(f)
    ensures ErrorsOnce(Run(s, f, audio, evs).closure)
    decreases |evs|
  {
    if |evs| > 0 {
      var r := OnEvent(s, f, audio, evs[0]);
      RunErrorsOnce(r.state, r.closure, audio, evs[1..]);
    }
  }

  /** Once the request or the response has closed, no error response is sent. */
  lemma {:induction false} RunNoErrorAfterClose(s: State, f: Closure, audio: bool, evs: seq<FetchEvent>)
    requires f.reqClosed
    ensures Run(s, f, audio, evs).closure.errorsSent == f.errorsSent
    decreases |evs|
  {
    if |evs| > 0 {
      var r := OnEvent(s, f, audio, evs[0]);
      RunNoErrorAfterClose(r.state, r.closure, audio, evs[1..]);
    }
  }

  lemma OnEventKeepsInv(folder: string, s: State, f: Closure, audio: bool, ev: FetchEvent)
    requires Inv(folder, s)
    ensures Inv(folder, OnEvent(s, f, audio, ev).state)
  {
    match ev
    case TranscoderClose =>
      if audio {
        var r1 := Close(s, f, NoArg);
        CloseKeepsInv(folder, s, f, NoArg);
        CloseKeepsInv(folder, r1.state, r1.closure, NoArg);
      }
    case CacheWritten(n) =>
    case RequestClose =>
    case ResponseClose =>
    case UpstreamError => CloseKeepsInv(folder, s, f, ErrorArg);
    case CacheError => CloseKeepsInv(folder, s, f, ErrorArg);
    case _ => CloseKeepsInv(folder, s, f, NoArg);
  }

  /** Every event keeps the registry valid. */
  lemma {:induction false} RunKeepsInv(folder: string, s: State, f: Closure, audio: bool, evs: seq<FetchEvent>)
    requires Inv(folder, s)
    ensures Inv(folder, Run(s, f, audio, evs).state)
    decreases |evs|
  {
    if |evs| > 0 {
      var r := OnEvent(s, f, audio, evs[0]);
      OnEventKeepsInv(folder, s, f, audio, evs[0]);
      RunKeepsInv(folder, r.state, r.closure, audio, evs[1..]);
    }
  }

  /** A transcoder failure removes the entry, but neither unlinks the cache file nor answers 500. */
  lemma TranscoderErrorIsQuiet(s: State, f: Closure)
    requires f.chid in s.active && !f.reqClosed
    ensures var r := OnEvent(s, f, true, TranscoderError);
      && f.chid !in r.state.active
      && r.state.host.unlinked == s.host.unlinked
      && r.closure.errorsSent == f.errorsSent
  {
  }

  /** A download error removes the entry, unlinks the partial cache file and answers 500 once. */
  lemma UpstreamErrorCleansUp(s: State, f: Closure, audio: bool)
    requires f.chid in s.active && !f.reqClosed
    ensures var r := OnEvent(s, f, audio, UpstreamError);
      && f.chid !in r.state.active
      && f.cacheFile in r.state.host.unlinked
      && r.closure.errorsSent == f.errorsSent + 1
  {
  }

  /**
   * In audio mode the download's `close` ends the fetch while the transcoder
   * may still be writing: the transcoder is killed, but with no error the
   * cache file is not unlinked, and once it has any bytes in it the next
   * request for the same content id is answered with it as it stands.
   */
  lemma UpstreamCloseKeepsCutFile(s: State, f: Closure, folder: string, name: string)
    requires f.chid in s.active && f.ffmpeg.Some?
    requires f.cacheFile == CacheFilePath(folder, name, f.chid, true)
    requires Cached(s.host, f.cacheFile)
    ensures var r := OnEvent(s, f, true, UpstreamClose).state;
      && f.chid !in r.active
      && f.ffmpeg.value in r.host.killed
      && f.cacheFile !in r.host.unlinked - s.host.unlinked
      && Play(r, folder, name, f.chid, true) == Step(ServeCache, r)
  {
    var r := OnEvent(s, f, true, UpstreamClose).state;
    assert r.host.files == s.host.files;
  }

  // ---------------------------------------------------------------------------
  // clean

  /** The transcoders recorded under the given keys. */
  function Transcoders(active: map<string, Entry>, keys: set<string>): set<ProcId> {
    set c | c in keys && c in active && active[c].ffmpeg.Some? :: active[c].ffmpeg.value
  }

  /** The non-empty cache file paths recorded under the given keys. */
  function CacheFiles(active: map<string, Entry>, keys: set<string>): set<string> {
    set c | c in keys && c in active && active[c].cacheFile != "" :: active[c].cacheFile
  }

  /** `clean()`: kill every recorded transcoder, unlink every recorded cache file, empty the map. */
  function CleanAll(s: State): (r: State)
    ensures r.active == map[]
    ensures forall c | c in s.active && s.active[c].ffmpeg.Some? :: s.active[c].ffmpeg.value in r.host.killed
    ensures forall c | c in s.active && s.active[c].cacheFile != "" ::
      s.active[c].cacheFile in r.host.unlinked
      && !(s.active[c].cacheFile in r.host.files && r.host.files[s.active[c].cacheFile].RegularFile?)
    ensures r.host.killed == s.host.killed + Transcoders(s.active, s.active.Keys)
    ensures r.host.unlinked == s.host.unlinked + CacheFiles(s.active, s.active.Keys)
    ensures forall f | f in s.host.files && f !in CacheFiles(s.active, s.active.Keys) ::
      f in r.host.files && r.host.files[f] == s.host.files[f]
    ensures forall f | f in r.host.files :: f in s.host.files && r.host.files[f] == s.host.files[f]
    ensures r.host.nextProc == s.host.nextProc
  {
    State(map[], CleanedHost(s.host, s.active, s.active.Keys))
  }

  lemma CleanKeepsInv(folder: string, s: State)
    ensures Inv(folder, CleanAll(s))
  {
  }

  /** Unlinking in two rounds is unlinking everything at once. */
  lemma UnlinkTwice(h: Host, a: set<string>, b: set<string>)
    ensures Unlink(Unlink(h, a), b) == Unlink(h, a + b)
  {
    var r1 := Unlink(Unlink(h, a), b);
    var r2 := Unlink(h, a + b);
    assert r1.files.Keys == r2.files.Keys;
    assert r1.files == r2.files;
  }

  // ---------------------------------------------------------------------------
  // The objects

  /** The player: its cache folder, its `_active` map, and the host it acts on. */
  class YouTubePlayer {
    const cacheFolder: string
    var active: map<string, Entry>
    var host: Host

    function Snapshot(): State
      reads this
    {
      State(active, host)
    }

    ghost predicate Valid()
      reads this
    {
      Inv(cacheFolder, Snapshot())
    }

    /** The folder option, or `cache` next to the program; both category directories are made. */
    constructor(cacheFolderOption: Option<string>, programDir: string, host0: Host)
      ensures cacheFolder == if Text.Truthy(cacheFolderOption) then cacheFolderOption.value else Paths.PathJoin([programDir, "cache"])
      ensures active == map[]
      ensures host == host0.(files := host0.files[CacheDir(cacheFolder, true) := NotAFile][CacheDir(cacheFolder, false) := NotAFile])
      ensures Valid()
    {
      var folder := if Text.Truthy(cacheFolderOption) then cacheFolderOption.value else Paths.PathJoin([programDir, "cache"]);
      cacheFolder := folder;
      active := map[];
      host := host0.(files := host0.files[CacheDir(folder, true) := NotAFile][CacheDir(folder, false) := NotAFile]);
    }

    method PlayCached(name: string, chid: string, audio: bool) returns (outcome: Outcome, fetch: Fetch?)
      requires Valid()
      modifies this
      ensures Valid()
      ensures Step(outcome, Snapshot()) == Play(old(Snapshot()), cacheFolder, name, chid, audio)
      ensures fetch != null <==> outcome.Started?
      ensures fetch != null ==>
        && fresh(fetch) && fetch.player == this && fetch.audio == audio
        && fetch.Snapshot() == Opened(chid, outcome.entry)
    {
      ghost var r := Play(Snapshot(), cacheFolder, name, chid, audio);
      PlayKeepsInv(cacheFolder, Snapshot(), name, chid, audio);
      var cacheFile := CacheFilePath(cacheFolder, name, chid, audio);
      if chid in active {
        outcome, fetch := ServeCacheLater, null;
      } else if cacheFile in host.files && host.files[cacheFile].RegularFile? && host.files[cacheFile].size > 0 {
        outcome, fetch := ServeCache, null;
      } else {
        if cacheFile in host.files && host.files[cacheFile].RegularFile? {
          host := Unlink(host, {cacheFile});
        }
        outcome, fetch := Start(chid, cacheFile, audio, name);
      }
      assert Snapshot() == r.state;
    }

    /** What follows the `await`: the admission test, then the new fetch and its entry. */
    method Start(chid: string, cacheFile: string, audio: bool, ghost name: string) returns (outcome: Outcome, fetch: Fetch?)
      requires Valid()
      requires cacheFile == CacheFilePath(cacheFolder, name, chid, audio)
      modifies this
      ensures Valid()
      ensures Step(outcome, Snapshot()) == Admit(old(Snapshot()), chid, cacheFile, audio)
      ensures fetch != null <==> outcome.Started?
      ensures fetch != null ==>
        && fresh(fetch) && fetch.player == this && fetch.audio == audio
        && fetch.Snapshot() == Opened(chid, outcome.entry)
    {
      AdmitKeepsInv(cacheFolder, Snapshot(), name, chid, audio);
      if chid in active || |active| > BusyAbove {
        return Busy, null;
      }
      var ffmpeg := None;
      if audio {
        ffmpeg := Some(host.nextProc);
        host := host.(nextProc := host.nextProc + 1);
      }
      host := host.(files := Created(host.files, cacheFile));
      var entry := Entry(ffmpeg, cacheFile);
      active := active[chid := entry];
      outcome := Started(entry);
      fetch := new Fetch(this, chid, entry, audio);
    }

    /** `clean()` */
    method Clean()
      requires Valid()
      modifies this
      ensures Snapshot() == CleanAll(old(Snapshot()))
      ensures Valid()
    {
      CleanKeepsInv(cacheFolder, Snapshot());
      host := ForEachEntry(host, active);
      active := map[];
    }
  }

  /** The `forEach` of `clean`: the entries are visited one at a time, in an order the result does not depend on. */
  method ForEachEntry(h0: Host, entries: map<string, Entry>) returns (h: Host)
    ensures h == CleanedHost(h0, entries, entries.Keys)
  {
    h := h0;
    var pending := entries.Keys;
    ghost var done: set<string> := {};
    CleanedNothing(h0, entries);
    while pending != {}
      invariant pending <= entries.Keys && done == entries.Keys - pending
      invariant h == CleanedHost(h0, entries, done)
      decreases |pending|
    {
      var c :| c in pending;
      var e := entries[c];
      ghost var before := h;
      if e.ffmpeg.Some? {
        h := Kill(h, {e.ffmpeg.value});
      }
      if e.cacheFile != "" {
        h := Unlink(h, {e.cacheFile});
      }
      assert h == CleanEntry(before, e);
      CleanStep(h0, entries, done, c);
      pending := pending - {c};
      done := done + {c};
    }
    assert done == entries.Keys;
  }

  lemma CleanedNothing(h0: Host, entries: map<string, Entry>)
    ensures CleanedHost(h0, entries, {}) == h0
  {
    var h := CleanedHost(h0, entries, {});
    assert h.files == h0.files;
  }

  /** The host once the entries under `keys` have been cleaned. */
  function CleanedHost(h0: Host, entries: map<string, Entry>, keys: set<string>): Host {
    Unlink(Kill(h0, Transcoders(entries, keys)), CacheFiles(entries, keys))
  }

  /** One turn of the `forEach` in `clean`. */
  function CleanEntry(h: Host, e: Entry): (r: Host)
    ensures r.killed == h.killed + (if e.ffmpeg.Some? then {e.ffmpeg.value} else {})
    ensures r.unlinked == h.unlinked + (if e.cacheFile != "" then {e.cacheFile} else {})
    ensures r.nextProc == h.nextProc
  {
    var h1 := if e.ffmpeg.Some? then Kill(h, {e.ffmpeg.value}) else h;
    if e.cacheFile != "" then Unlink(h1, {e.cacheFile}) else h1
  }

  lemma CleanStep(h0: Host, entries: map<string, Entry>, done: set<string>, c: string)
    requires c in entries && c !in done
    ensures CleanEntry(CleanedHost(h0, entries, done), entries[c]) == CleanedHost(h0, entries, done + {c})
  {
    var e := entries[c];
    var t := Transcoders(entries, done);
    var f := CacheFiles(entries, done);
    var t' := Transcoders(entries, done + {c});
    assert t' == t + (if e.ffmpeg.Some? then {e.ffmpeg.value} else {});
    assert CacheFiles(entries, done + {c}) == f + (if e.cacheFile != "" then {e.cacheFile} else {});
    var h1 := if e.ffmpeg.Some? then Kill(Unlink(Kill(h0, t), f), {e.ffmpeg.value}) else Unlink(Kill(h0, t), f);
    if e.ffmpeg.Some? {
      KillUnlink(Kill(h0, t), f, {e.ffmpeg.value});
      assert Kill(Kill(h0, t), {e.ffmpeg.value}) == Kill(h0, t');
    }
    assert h1 == Unlink(Kill(h0, t'), f);
    if e.cacheFile != "" {
      UnlinkTwice(Kill(h0, t'), f, {e.cacheFile});
    } else {
      assert f + {} == f;
    }
  }

  /** Killing a process and unlinking files are independent of each other. */
  lemma KillUnlink(h: Host, paths: set<string>, procs: set<ProcId>)
    ensures Kill(Unlink(h, paths), procs) == Unlink(Kill(h, procs), paths)
  {
    assert Kill(Unlink(h, paths), procs).files == Unlink(Kill(h, procs), paths).files;
  }

  /** The variables one call of `playCached` shares with its `onclose`. */
  class Fetch {
    const player: YouTubePlayer
    const chid: string
    const cacheFile: string
    const audio: bool
    var ffmpeg: Option<ProcId>
    var reqClosed: bool
    var errorsSent: nat

    function Snapshot(): Closure
      reads this
    {
      Closure(chid, cacheFile, ffmpeg, reqClosed, errorsSent)
    }

    constructor(player: YouTubePlayer, chid: string, entry: Entry, audio: bool)
      ensures this.player == player && this.audio == audio
      ensures Snapshot() == Opened(chid, entry)
    {
      this.player := player;
      this.chid := chid;
      this.cacheFile := entry.cacheFile;
      this.audio := audio;
      this.ffmpeg := entry.ffmpeg;
      this.reqClosed := false;
      this.errorsSent := 0;
    }

    /** `onclose(source, err)` */
    method OnClose(arg: CloseArg)
      modifies this, player
      ensures old(player.Valid()) ==> player.Valid()
      ensures After(player.Snapshot(), Snapshot()) == Close(old(player.Snapshot()), old(Snapshot()), arg)
    {
      ghost var s0, f0 := player.Snapshot(), Snapshot();
      if chid in player.active {
        player.active := player.active - {chid};
        if ffmpeg.Some? {
          player.host := Kill(player.host, {ffmpeg.value});
          ffmpeg := None;
        }
        if arg.ErrorArg? {
          player.host := Unlink(player.host, {cacheFile});
        }
      }
      if !reqClosed && arg.ErrorArg? {
        reqClosed := true;
        errorsSent := errorsSent + 1;
      }
      assert After(player.Snapshot(), Snapshot()) == Close(s0, f0, arg);
      if old(player.Valid()) {
        CloseKeepsInv(player.cacheFolder, s0, f0, arg);
      }
    }

    /** The handlers registered for this fetch. */
    method Handle(ev: FetchEvent)
      requires player.Valid()
      modifies this, player
      ensures player.Valid()
      ensures After(player.Snapshot(), Snapshot()) == OnEvent(old(player.Snapshot()), old(Snapshot()), audio, ev)
    {
      OnEventKeepsInv(player.cacheFolder, player.Snapshot(), Snapshot(), audio, ev);
      match ev
      case UpstreamError => OnClose(ErrorArg);
      case UpstreamClose => OnClose(NoArg);
      case CacheError => OnClose(ErrorArg);
      case CacheClose => OnClose(NoArg);
      case TranscoderClose =>
        if audio {
          OnClose(NoArg);
          OnClose(NoArg);
        }
      case TranscoderError =>
        if audio {
          OnClose(NoArg);
        }
      case RequestClose => reqClosed := true;
      case ResponseClose => reqClosed := true;
      case CacheWritten(n) => player.host := Grown(player.host, cacheFile, n);
    }
  }

  // ---------------------------------------------------------------------------
  // The request handler

  /** How `_onRequest` answers. */
  datatype Response =
    | Rejected(status: nat, reason: string)
    | Threw
    | Handled(outcome: Outcome)

  const MissingChidReason := "Missing Channel Id (chid)"

  class ProxyService {
    const player: YouTubePlayer

    constructor(cacheFolderOption: Option<string>, programDir: string, host0: Host)
      ensures fresh(player) && player.Valid() && player.active == map[]
    {
      player := new YouTubePlayer(cacheFolderOption, programDir, host0);
    }

    /** `_onRequest(req, res)` for a request target and its `User-Agent` header. */
    method OnRequest(target: string, userAgent: Option<string>) returns (response: Response, fetch: Fetch?)
      requires player.Valid()
      modifies player
      ensures player.Valid()
      ensures match Router.Route(target, userAgent)
        case MissingChid => response == Rejected(500, MissingChidReason) && player.Snapshot() == old(player.Snapshot())
        case NoUserAgent | NoPathname => response == Threw && player.Snapshot() == old(player.Snapshot())
        case Dispatch(q) =>
          && response.Handled?
          && Step(response.outcome, player.Snapshot()) == Play(old(player.Snapshot()), player.cacheFolder, q.name, q.chid, q.audio)
      ensures fetch != null <==> response.Handled? && response.outcome.Started?
      ensures fetch != null ==> fresh(fetch) && fetch.player == player
    {
      match Router.Route(target, userAgent)
      case MissingChid =>
        return Rejected(500, MissingChidReason), null;
      case NoUserAgent | NoPathname =>
        return Threw, null;
      case Dispatch(q) =>
        var outcome;
        outcome, fetch := player.PlayCached(q.name, q.chid, q.audio);
        response := Handled(outcome);
    }

    /** `stop()` as far as the player is concerned. */
    method Stop()
      requires player.Valid()
      modifies player
      ensures player.Snapshot() == CleanAll(old(player.Snapshot()))
      ensures player.Valid()
    {
      player.Clean();
    }
  }
}
