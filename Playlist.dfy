/**
 * The text processing of the playlist loader: the M3U line filter, the
 * conversion of spreadsheet rows to proxy URLs, the spreadsheet id taken from
 * a sharing link, the default answer of a prompt, and the M3U file written at
 * the end.
 */
module Playlist {
  import opened Wrappers
  import Text
  import Url

  // ---------------------------------------------------------------------------
  // Reading an M3U playlist

  /** The test the `reduce` callback applies to each line. */
  predicate KeepLine(line: string) {
    var t := Text.Trim(line);
    |t| > 0 && !Text.StartsWith(t, "#") && Text.StartsWith(t, "http")
  }

  /** The first two tests are implied by the third: a line is kept when, trimmed, it starts with `http`. */
  lemma KeepLineIsHttp(line: string)
    ensures KeepLine(line) <==> Text.StartsWith(Text.Trim(line), "http")
  {
    var t := Text.Trim(line);
    if Text.StartsWith(t, "http") {
      assert t[0] == 'h';
    }
  }

  /** The kept lines, trimmed, in input order. */
  function FilterLines(lines: seq<string>): (r: seq<string>)
    ensures |r| <= |lines|
    ensures forall k | 0 <= k < |r| :: Text.StartsWith(r[k], "http") && Text.Trim(r[k]) == r[k]
  {
    if |lines| == 0 then []
    else
      var rest := FilterLines(lines[1..]);
      if KeepLine(lines[0]) then
        Text.TrimIdempotent(lines[0]);
        [Text.Trim(lines[0])] + rest
      else rest
  }

  /** The lines of the downloaded text, filtered. */
  function ReadM3u(data: string): (r: seq<string>)
    ensures forall k | 0 <= k < |r| :: Text.StartsWith(r[k], "http") && Text.Trim(r[k]) == r[k] && '\n' !in r[k]
  {
    var lines := Text.Split(data, '\n');
    FilterNoNewline(lines);
    FilterLines(lines)
  }

  lemma {:induction false} FilterNoNewline(lines: seq<string>)
    requires forall k | 0 <= k < |lines| :: '\n' !in lines[k]
    ensures forall k | 0 <= k < |FilterLines(lines)| :: '\n' !in FilterLines(lines)[k]
  {
    if |lines| > 0 {
      FilterNoNewline(lines[1..]);
      Text.TrimKeepsAbsent(lines[0], '\n');
    }
  }

  /** The filter works line by line: filtering a concatenation concatenates the results. */
  lemma {:induction false} FilterLinesAppend(a: seq<string>, b: seq<string>)
    ensures FilterLines(a + b) == FilterLines(a) + FilterLines(b)
  {
    if |a| > 0 {
      assert (a + b)[1..] == a[1..] + b;
      FilterLinesAppend(a[1..], b);
    } else {
      assert a + b == b;
    }
  }

  /** One line is kept, trimmed, exactly when it passes the test. */
  lemma FilterLinesOne(line: string)
    ensures FilterLines([line]) == if KeepLine(line) then [Text.Trim(line)] else []
  {
  }

  /** Lines that already passed the filter pass it again unchanged. */
  lemma {:induction false} FilterLinesFiltered(lines: seq<string>)
    requires forall k | 0 <= k < |lines| :: Text.StartsWith(lines[k], "http") && Text.Trim(lines[k]) == lines[k]
    ensures FilterLines(lines) == lines
  {
    if |lines| > 0 {
      FilterLinesFiltered(lines[1..]);
      assert Text.StartsWith(Text.Trim(lines[0]), "http");
      KeepLineIsHttp(lines[0]);
    }
  }

  /** Reading the lines the filter returned, joined back with newlines, gives them again. */
  lemma ReadM3uIdempotent(data: string)
    ensures ReadM3u(Text.Join(ReadM3u(data), '\n')) == ReadM3u(data)
  {
    var out := ReadM3u(data);
    if |out| == 0 {
      assert Text.Join(out, '\n') == "";
      assert Text.Split("", '\n') == [""];
    } else {
      Text.SplitJoin(out, '\n');
      FilterLinesFiltered(out);
    }
  }

  // ---------------------------------------------------------------------------
  // Spreadsheet rows to proxy URLs

  /** A sheet row: the `name` and `videoid` cells, either of which may be missing. */
  datatype Row = Row(name: Option<string>, videoid: Option<string>)

  /** `['y','yes'].includes(video.toLowerCase())` */
  predicate PlayVideo(video: string) {
    var v := Text.LowerAscii(video);
    v == "y" || v == "yes"
  }

  lemma PlayVideoAnswers()
    ensures PlayVideo("Y") && PlayVideo("yes") && PlayVideo("YES")
    ensures !PlayVideo("N") && !PlayVideo("no") && !PlayVideo("")
  {
    assert Text.LowerAscii("Y") == "y";
    assert Text.LowerAscii("yes") == "yes";
    assert Text.LowerAscii("YES") == "yes";
    assert Text.LowerAscii("N") == "n";
  }

  /** Only one- and three-letter answers can ask for video. */
  lemma PlayVideoLength(video: string)
    requires PlayVideo(video)
    ensures |video| == 1 || |video| == 3
  {
    assert |Text.LowerAscii(video)| == |video|;
  }

  /**
   * The id carried by a `videoid` cell. A `https://` link gives its `v` query
   * parameter, or, on host `youtu.be`, its path without the leading `/`; any
   * other text is the id itself. `None` is `undefined` (no `v` parameter).
   */
  function ExtractId(videoid: string): Option<string> {
    if Text.StartsWith(videoid, "https://") then
      var u := Url.Parse(videoid);
      if u.hostname != "youtu.be" then (if "v" in u.query then Some(u.query["v"]) else None)
      else
        Url.HttpsHasPath(videoid);
        Some(Text.Drop(u.pathname.value, 1))
    else Some(videoid)
  }

  /** `name && name.trim().replace(/\s+/g,'-') || videoid` */
  function DisplayName(name: Option<string>, videoid: string): (r: string)
    ensures name.None? || Text.Trim(name.value) == "" ==> r == videoid
    ensures name.Some? && Text.Trim(name.value) != "" ==>
      r != "" && Text.NoSpace(r) && |r| <= |name.value| && r == Text.DashSpaces(Text.Trim(name.value))
  {
    if Text.Truthy(name) && Text.DashSpaces(Text.Trim(name.value)) != "" then Text.DashSpaces(Text.Trim(name.value))
    else videoid
  }

  /** A JavaScript boolean in a template literal. */
  function BoolText(b: bool): string {
    if b then "true" else "false"
  }

  /** The request target after the server URL: `/<name>.mp3?chid=<id>&video=<flag>`. */
  function Target(name: string, id: string, playVideo: bool): string {
    "/" + name + ".mp3?chid=" + id + "&video=" + BoolText(playVideo)
  }

  /** The URL a row turns into, or `None` when the row is skipped. */
  function RowUrl(serverUrl: string, playVideo: bool, row: Row): (r: Option<string>)
    ensures r.None? <==> !Text.Truthy(row.videoid) || !Text.Truthy(ExtractId(row.videoid.value))
    ensures r.Some? ==> var id := ExtractId(row.videoid.value).value;
      r.value == serverUrl + Target(DisplayName(row.name, id), id, playVideo)
    ensures r.Some? ==> Text.StartsWith(r.value, serverUrl + "/")
  {
    if !Text.Truthy(row.videoid) then None
    else
      var id := ExtractId(row.videoid.value);
      if !Text.Truthy(id) then None
      else Some(serverUrl + Target(DisplayName(row.name, id.value), id.value, playVideo))
  }

  /** The `reduce` over the sheet's rows: skipped rows leave no trace, the others keep their order. */
  function RowsToUrls(serverUrl: string, playVideo: bool, rows: seq<Row>): (r: seq<string>)
    ensures |r| <= |rows|
    ensures forall k | 0 <= k < |r| :: Text.StartsWith(r[k], serverUrl + "/")
  {
    if |rows| == 0 then []
    else
      var rest := RowsToUrls(serverUrl, playVideo, rows[1..]);
      match RowUrl(serverUrl, playVideo, rows[0])
      case Some(u) => [u] + rest
      case None => rest
  }

  lemma {:induction false} RowsToUrlsAppend(serverUrl: string, playVideo: bool, a: seq<Row>, b: seq<Row>)
    ensures RowsToUrls(serverUrl, playVideo, a + b) == RowsToUrls(serverUrl, playVideo, a) + RowsToUrls(serverUrl, playVideo, b)
  {
    if |a| > 0 {
      assert (a + b)[1..] == a[1..] + b;
      RowsToUrlsAppend(serverUrl, playVideo, a[1..], b);
    } else {
      assert a + b == b;
    }
  }

  /** Every row with a plain, non-empty id is kept, so the output is as long as the input. */
  lemma {:induction false} PlainIdsAllKept(serverUrl: string, playVideo: bool, rows: seq<Row>)
    requires forall k | 0 <= k < |rows| :: Text.Truthy(rows[k].videoid) && !Text.StartsWith(rows[k].videoid.value, "https://")
    ensures |RowsToUrls(serverUrl, playVideo, rows)| == |rows|
  {
    if |rows| > 0 {
      PlainIdsAllKept(serverUrl, playVideo, rows[1..]);
    }
  }

  /** A watch link `https://<host>/watch?v=<id>` gives its `v` parameter. */
  lemma WatchLinkId(host: string, id: string)
    requires Url.PlainHost(host) && host != "youtu.be"
    requires '#' !in id && '&' !in id
    ensures ExtractId("https://" + host + "/watch" + "?" + ("v=" + id)) == Some(id)
  {
    WatchQuery(id);
    HttpsQueryId("https://" + host + "/watch" + "?" + ("v=" + id), host, "/watch", "v=" + id, id);
  }

  lemma WatchQuery(id: string)
    requires '#' !in id && '&' !in id
    ensures '#' !in "v=" + id
    ensures Url.ParseQuery("v=" + id) == map["v" := id]
  {
    Url.QuerySingle("v", id);
    assert "v" + "=" + id == "v=" + id;
  }

  /** A watch link with a start time, `https://<host>/watch?v=<id>&t=<time>`, gives its `v` parameter too. */
  lemma WatchLinkTimeId(host: string, id: string, time: string)
    requires Url.PlainHost(host) && host != "youtu.be"
    requires '#' !in id && '&' !in id && '#' !in time && '&' !in time
    ensures ExtractId("https://" + host + "/watch" + "?" + ("v=" + id + "&" + "t=" + time)) == Some(id)
  {
    var search := "v=" + id + "&" + "t=" + time;
    WatchTimeQuery(id, time);
    HttpsQueryId("https://" + host + "/watch" + "?" + search, host, "/watch", search, id);
  }

  lemma WatchTimeQuery(id: string, time: string)
    requires '#' !in id && '&' !in id && '#' !in time && '&' !in time
    ensures '#' !in "v=" + id + "&" + "t=" + time
    ensures Url.ParseQuery("v=" + id + "&" + "t=" + time) == map["t" := time]["v" := id]
  {
    Url.QueryTwo("v", id, "t", time);
    assert "v=" + id + "&" + "t=" + time == "v" + "=" + id + "&" + ("t" + "=" + time);
  }

  /** An `https` link with a plain host other than `youtu.be`, a path and a query with a `v` parameter. */
  lemma HttpsQueryId(link: string, host: string, path: string, search: string, id: string)
    requires link == "https://" + host + path + "?" + search
    requires Url.PlainHost(host) && host != "youtu.be"
    requires path != [] && path[0] == '/' && '?' !in path && '#' !in path && '#' !in search
    requires "v" in Url.ParseQuery(search) && Url.ParseQuery(search)["v"] == id
    ensures ExtractId(link) == Some(id)
  {
    assert Text.StartsWith(link, "https://") by {
      assert link == "https://" + (host + path + "?" + search);
      Text.StartsWithPrefix("https://", host + path + "?" + search);
    }
    assert Url.Parse(link) == Url.Url(host, Some(path), Url.ParseQuery(search)) by {
      Url.ParseHttpsQuery(host, path, search);
    }
    LinkQueryId(link, id);
  }

  /** An `https` link whose host is not `youtu.be` gives its `v` parameter. */
  lemma LinkQueryId(link: string, id: string)
    requires Text.StartsWith(link, "https://")
    requires Url.Parse(link).hostname != "youtu.be"
    requires "v" in Url.Parse(link).query && Url.Parse(link).query["v"] == id
    ensures ExtractId(link) == Some(id)
  {
  }

  /** A short `youtu.be` link gives its path. */
  lemma ShortLinkId(id: string)
    requires '?' !in id && '#' !in id
    ensures ExtractId("https://youtu.be/" + id) == Some(id)
  {
    var link := "https://youtu.be/" + id;
    assert link == "https://" + "youtu.be" + ("/" + id);
    assert link[..8] == "https://";
    assert Url.PlainHost("youtu.be");
    Url.ParseHttps("youtu.be", "/" + id);
    assert Text.Drop("/" + id, 1) == id;
  }

  // ---------------------------------------------------------------------------
  // The spreadsheet id in a sharing link

  /** The pattern's literal prefix, with its two unescaped dots at positions 12 and 19. */
  const SheetPattern := "https://docs.google.com/spreadsheets/d/"

  /** A `.` in the pattern matches any character but a line terminator; every other character matches itself. */
  predicate SheetPrefix(link: string) {
    && |link| >= |SheetPattern|
    && forall k | 0 <= k < |SheetPattern| ::
      if SheetPattern[k] == '.' then !Text.IsLineTerminator(link[k]) else link[k] == SheetPattern[k]
  }

  /**
   * `/^https:\/\/docs.google.com\/spreadsheets\/d\/([^\/]+)\//`: the text
   * between the prefix and the next `/`, when it is not empty and that `/`
   * exists; the link itself otherwise.
   */
  function SheetId(link: string): (r: string)
    ensures r != link ==>
      && SheetPrefix(link) && r != "" && '/' !in r
      && 39 + |r| < |link| && link[39..39 + |r|] == r && link[39 + |r|] == '/'
  {
    if SheetPrefix(link) then
      var rest := link[39..];
      var i := Text.IndexOf(rest, '/');
      if 0 < i < |rest| then
        assert '/' !in rest[..i];
        rest[..i]
      else link
    else link
  }

  /** Any link whose first 39 characters match the pattern gives the text up to the next `/`. */
  lemma SheetIdOfMatchingLink(prefix: string, id: string, tail: string)
    requires |prefix| == |SheetPattern| && SheetPrefix(prefix)
    requires id != "" && '/' !in id
    ensures SheetId(prefix + id + "/" + tail) == id
  {
    var link := prefix + id + "/" + tail;
    assert forall k | 0 <= k < |prefix| :: link[k] == prefix[k];
    assert SheetPrefix(link);
    assert link[39..] == id + "/" + tail;
    Text.IndexOfFirst(id, '/', tail);
    assert (id + "/" + tail)[..|id|] == id;
  }

  /** The id of an ordinary sharing link. */
  lemma SheetIdOfSharingLink(id: string, tail: string)
    requires id != "" && '/' !in id
    ensures SheetId("https://docs.google.com/spreadsheets/d/" + id + "/" + tail) == id
  {
    var link := "https://docs.google.com/spreadsheets/d/" + id + "/" + tail;
    assert link[..39] == SheetPattern;
    assert SheetPrefix(link);
    assert link[39..] == id + "/" + tail;
    Text.IndexOfFirst(id, '/', tail);
    assert (id + "/" + tail)[..|id|] == id;
  }

  lemma OtherHostMatches()
    ensures SheetPrefix("https://docsXgoogleYcom/spreadsheets/d/")
  {
  }

  /** The unescaped dots let other hosts through. */
  lemma SheetIdUnescapedDots(id: string)
    requires id != "" && '/' !in id
    ensures SheetId("https://docsXgoogleYcom/spreadsheets/d/" + id + "/") == id
  {
    var link := "https://docsXgoogleYcom/spreadsheets/d/" + id + "/";
    OtherHostMatches();
    assert link[..39] == "https://docsXgoogleYcom/spreadsheets/d/";
    assert SheetPrefix(link);
    assert link[39..] == id + "/" + "";
    Text.IndexOfFirst(id, '/', "");
    assert (id + "/")[..|id|] == id;
  }

  /** A link with no `/` after the id is not a match, and is kept whole. */
  lemma SheetIdNeedsClosingSlash(id: string)
    requires '/' !in id
    ensures SheetId("https://docs.google.com/spreadsheets/d/" + id) == "https://docs.google.com/spreadsheets/d/" + id
  {
    var link := "https://docs.google.com/spreadsheets/d/" + id;
    assert link[39..] == id;
    Text.IndexOfAbsent(id, '/');
  }

  // ---------------------------------------------------------------------------
  // Prompts

  /** `answer && answer.trim() || qs.default` */
  function PromptAnswer(answer: string, default: Option<string>): (r: Option<string>)
    ensures Text.Trim(answer) != "" ==> r == Some(Text.Trim(answer))
    ensures Text.Trim(answer) == "" ==> r == default
  {
    if answer != "" && Text.Trim(answer) != "" then Some(Text.Trim(answer)) else default
  }

  /** What a prompt answers is never padded with white space, unless it is the default. */
  lemma PromptAnswerTrimmed(answer: string, default: Option<string>)
    requires PromptAnswer(answer, default) != default
    ensures var r := PromptAnswer(answer, default).value;
      r != "" && Text.Trim(r) == r && |r| <= |answer|
  {
    Text.TrimIdempotent(answer);
  }

  /** `${qs.prompt} [${qs.default||''}]:` */
  function PromptText(prompt: string, default: Option<string>): (r: string)
    ensures Text.StartsWith(r, prompt + " [")
  {
    prompt + " [" + (if Text.Truthy(default) then default.value else "") + "]:"
  }

  // ---------------------------------------------------------------------------
  // Writing the M3U file

  /**
   * The title of an entry: the item's path without its leading `/`. `None`
   * where the path is `null` and `slice` throws.
   */
  function Title(item: string): (r: Option<string>)
    ensures r.None? <==> Url.Parse(item).pathname.None?
    ensures r.Some? && '\n' in r.value ==> '\n' in item
  {
    match Url.Parse(item).pathname
    case None => None
    case Some(path) =>
      assert forall c | c in Text.Drop(path, 1) :: c in path;
      Some(Text.Drop(path, 1))
  }

  /** An `https` item with a plain host is titled by its path. */
  lemma TitleOfHttpsItem(host: string, path: string)
    requires Url.PlainHost(host)
    requires path != [] && path[0] == '/' && '?' !in path && '#' !in path
    ensures Title("https://" + host + path) == Some(path[1..])
  {
    Url.ParseHttps(host, path);
  }

  /** The text of a title; the loop never writes an entry without one. */
  function TitleLine(title: Option<string>): string {
    if title.Some? then title.value else ""
  }

  /**
   * The items the loop gets through: those before the first one that `title`
   * has no title for, where `load` throws.
   */
  function Written(items: seq<string>, title: string -> Option<string>): (r: seq<string>)
    ensures |r| <= |items| && r == items[..|r|]
    ensures forall k | 0 <= k < |r| :: title(items[k]).Some?
    ensures |r| < |items| ==> title(items[|r|]).None?
  {
    if |items| == 0 || title(items[0]).None? then []
    else
      var rest := Written(items[1..], title);
      assert forall k | 1 <= k < 1 + |rest| :: items[k] == items[1..][k - 1];
      [items[0]] + rest
  }

  /** What is written is fixed by the three facts `Written` ensures. */
  lemma WrittenIs(items: seq<string>, title: string -> Option<string>, n: nat)
    requires n <= |items|
    requires forall k | 0 <= k < n :: title(items[k]).Some?
    requires n < |items| ==> title(items[n]).None?
    ensures Written(items, title) == items[..n]
  {
    var w := Written(items, title);
    assert |w| == n;
  }

  /** An untitled item ends what is written, whatever follows it. */
  lemma WrittenStopsAt(before: seq<string>, item: string, after: seq<string>, title: string -> Option<string>)
    requires forall k | 0 <= k < |before| :: title(before[k]).Some?
    requires title(item).None?
    ensures Written(before + [item] + after, title) == before
  {
    var items := before + [item] + after;
    assert forall k | 0 <= k < |before| :: items[k] == before[k];
    assert items[|before|] == item;
    WrittenIs(items, title, |before|);
    assert items[..|before|] == before;
  }

  /** An item without a path, such as `http:` or `https://`, ends the file `load` writes. */
  lemma NoPathStopsWriter(before: seq<string>, item: string, after: seq<string>)
    requires forall k | 0 <= k < |before| :: Title(before[k]).Some?
    requires Url.Parse(item).pathname.None?
    ensures Written(before + [item] + after, Title) == before
  {
    WrittenStopsAt(before, item, after, Title);
  }

  function ExtInf(title: string): (r: string)
    ensures r != [] && r[0] == '#'
    ensures '\n' in r <==> '\n' in title
  {
    "#EXTINF:-1," + title
  }

  /**
   * The two writes of the loop for one item: its title line, then the item
   * itself. The file's layout does not depend on how titles are computed, so
   * the layout functions take the title function as a parameter.
   */
  function EntryText(item: string, title: string -> Option<string>): string {
    "\n" + ExtInf(TitleLine(title(item))) + ("\n" + item)
  }

  function Entries(items: seq<string>, title: string -> Option<string>): string {
    if |items| == 0 then "" else Entries(items[..|items| - 1], title) + EntryText(items[|items| - 1], title)
  }

  const Header := "#EXTM3U"

  /** The whole file: the header, then one entry per item. */
  function M3uText(items: seq<string>, title: string -> Option<string>): string {
    Header + "\n" + Entries(items, title)
  }

  /** The lines of the file: the header, an empty line, then a title line and an item line per item. */
  function M3uLines(items: seq<string>, title: string -> Option<string>): (r: seq<string>)
    ensures |r| == 2 + 2 * |items|
  {
    if |items| == 0 then [Header, ""]
    else M3uLines(items[..|items| - 1], title) + [ExtInf(TitleLine(title(items[|items| - 1]))), items[|items| - 1]]
  }

  /**
   * The loop of `load`, writing to the stream in order, for a way of computing
   * titles. It stops, with `threw`, at an item without a title; what was
   * written stays in the file.
   */
  method WriteEntries(items: seq<string>, title: string -> Option<string>) returns (text: string, threw: bool)
    ensures text == M3uText(Written(items, title), title)
    ensures threw <==> |Written(items, title)| < |items|
  {
    text := Header + "\n";
    threw := false;
    var i := 0;
    while i < |items| && !threw
      invariant i <= |items|
      invariant forall k | 0 <= k < i :: title(items[k]).Some?
      invariant threw ==> i < |items| && title(items[i]).None?
      invariant text == M3uText(items[..i], title)
      decreases |items| - i, !threw
    {
      var t := title(items[i]);
      if t.None? {
        threw := true;
      } else {
        ghost var before := text;
        text := text + ("\n" + ExtInf(t.value));
        text := text + ("\n" + items[i]);
        WriteStep(items, i, before, title);
        i := i + 1;
      }
    }
    WrittenIs(items, title, i);
  }

  /** The loop of `load` with its titles: it throws at the first item whose `pathname` is `null`. */
  method WritePlaylist(items: seq<string>) returns (text: string, threw: bool)
    ensures text == M3uText(Written(items, Title), Title)
    ensures threw <==> |Written(items, Title)| < |items|
  {
    text, threw := WriteEntries(items, Title);
  }

  lemma WriteStep(items: seq<string>, i: nat, text: string, title: string -> Option<string>)
    requires i < |items| && text == M3uText(items[..i], title)
    ensures text + ("\n" + ExtInf(TitleLine(title(items[i])))) + ("\n" + items[i]) == M3uText(items[..i + 1], title)
  {
    var done := items[..i + 1];
    assert done[..i] == items[..i] && done[i] == items[i];
    assert Entries(done, title) == Entries(items[..i], title) + EntryText(items[i], title);
    var a, b := "\n" + ExtInf(TitleLine(title(items[i]))), "\n" + items[i];
    assert Header + "\n" + Entries(items[..i], title) + a + b == Header + "\n" + (Entries(items[..i], title) + (a + b));
  }

  lemma {:induction false} M3uTextIsJoin(items: seq<string>, title: string -> Option<string>)
    ensures M3uText(items, title) == Text.Join(M3uLines(items, title), '\n')
  {
    if |items| > 0 {
      var init := items[..|items| - 1];
      var x := items[|items| - 1];
      M3uTextIsJoin(init, title);
      var lines := M3uLines(init, title);
      var line := ExtInf(TitleLine(title(x)));
      assert M3uLines(items, title) == lines + [line, x];
      JoinEntryLines(lines, line, x);
      M3uTextSnoc(items, title);
    } else {
      assert Text.Join([Header, ""], '\n') == Header + "\n" + "";
    }
  }

  /** Writing one more item appends its entry to the file. */
  lemma M3uTextSnoc(items: seq<string>, title: string -> Option<string>)
    requires items != []
    ensures M3uText(items, title) == M3uText(items[..|items| - 1], title) + EntryText(items[|items| - 1], title)
  {
  }

  /** Joining two more lines appends them, each after a line break. */
  lemma JoinEntryLines(lines: seq<string>, line: string, item: string)
    requires |lines| >= 1
    ensures Text.Join(lines + [line, item], '\n') == Text.Join(lines, '\n') + ("\n" + line + ("\n" + item))
  {
    Text.JoinSnoc(lines, line, '\n');
    Text.JoinSnoc(lines + [line], item, '\n');
    assert lines + [line] + [item] == lines + [line, item];
    JoinEntry(Text.Join(lines, '\n'), line, item);
  }

  /** The two appended lines, regrouped. */
  lemma JoinEntry(joined: string, line: string, item: string)
    ensures joined + ['\n'] + line + ['\n'] + item == joined + ("\n" + line + ("\n" + item))
  {
  }

  /** An item fit for the file: what the line filter itself returns. */
  predicate PlainItem(item: string) {
    Text.StartsWith(item, "http") && Text.Trim(item) == item && '\n' !in item
  }

  lemma {:induction false} M3uLinesNoNewline(items: seq<string>, title: string -> Option<string>)
    requires forall k | 0 <= k < |items| :: '\n' !in items[k] && '\n' !in TitleLine(title(items[k]))
    ensures forall k | 0 <= k < |M3uLines(items, title)| :: '\n' !in M3uLines(items, title)[k]
  {
    if |items| > 0 {
      M3uLinesNoNewline(items[..|items| - 1], title);
    } else {
      assert '\n' !in Header;
    }
  }

  /** The title line is dropped by the filter, the item kept. */
  lemma FilterEntry(line: string, item: string)
    requires line != [] && line[0] == '#'
    requires PlainItem(item)
    ensures FilterLines([line, item]) == [item]
  {
    CommentDropped(line);
    KeepLineIsHttp(item);
    assert Text.Trim(item) == item;
    FilterLinesOne(line);
    FilterLinesOne(item);
    FilterLinesAppend([line], [item]);
    assert [line, item] == [line] + [item];
  }

  /** A line starting with `#` is a comment or a directive, never an entry. */
  lemma CommentDropped(line: string)
    requires line != [] && line[0] == '#'
    ensures !KeepLine(line)
  {
    Text.TrimKeepsHead(line);
    var t := Text.Trim(line);
    assert t[0] == '#';
    assert !Text.StartsWith(t, "http") by {
      if |t| >= 4 {
        assert t[..4][0] == '#';
      }
    }
  }

  /** The header and the empty line after it are not playlist entries. */
  lemma HeaderDropped()
    ensures FilterLines([Header, ""]) == []
  {
    CommentDropped(Header);
    assert !KeepLine("");
    assert [Header, ""][1..] == [""];
  }

  lemma {:induction false} M3uLinesFiltered(items: seq<string>, title: string -> Option<string>)
    requires forall k | 0 <= k < |items| :: PlainItem(items[k])
    ensures FilterLines(M3uLines(items, title)) == items
  {
    if |items| == 0 {
      HeaderDropped();
    } else {
      var init := items[..|items| - 1];
      var x := items[|items| - 1];
      assert items == init + [x];
      assert forall k | 0 <= k < |init| :: init[k] == items[k];
      M3uLinesFiltered(init, title);
      FilterNextEntry(M3uLines(init, title), ExtInf(TitleLine(title(x))), init, x);
    }
  }

  lemma FilterNextEntry(lines: seq<string>, line: string, init: seq<string>, x: string)
    requires FilterLines(lines) == init
    requires line != [] && line[0] == '#'
    requires PlainItem(x)
    ensures FilterLines(lines + [line, x]) == init + [x]
  {
    FilterLinesAppend(lines, [line, x]);
    FilterEntry(line, x);
  }

  /** Reading back a written file gives the items, in order, whatever the titles are, as long as they fit on one line. */
  lemma M3uLayoutRoundTrip(items: seq<string>, title: string -> Option<string>)
    requires forall k | 0 <= k < |items| :: PlainItem(items[k]) && '\n' !in TitleLine(title(items[k]))
    ensures ReadM3u(M3uText(items, title)) == items
  {
    M3uTextIsJoin(items, title);
    M3uLinesNoNewline(items, title);
    Text.SplitJoin(M3uLines(items, title), '\n');
    M3uLinesFiltered(items, title);
  }

  /** Reading back the entries of a file `load` writes gives the items, in order. */
  lemma M3uRoundTrip(items: seq<string>)
    requires forall k | 0 <= k < |items| :: PlainItem(items[k])
    ensures ReadM3u(M3uText(items, Title)) == items
  {
    M3uLayoutRoundTrip(items, Title);
  }

  /**
   * What the loader writes for a playlist is read back by the same filter: the
   * entries read, up to the first one without a path.
   */
  lemma ReadWriteReadStable(data: string)
    ensures ReadM3u(M3uText(Written(ReadM3u(data), Title), Title)) == Written(ReadM3u(data), Title)
  {
    var items := ReadM3u(data);
    var w := Written(items, Title);
    assert forall k | 0 <= k < |w| :: w[k] == items[k];
    M3uRoundTrip(w);
  }
}
