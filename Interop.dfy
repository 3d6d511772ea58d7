/**
 * The two halves of the system meet in the playlist entries: the loader
 * writes `/<name>.mp3?chid=<id>&video=<flag>` after the server address, and
 * the proxy reads that target back in `_onRequest`.
 */
module Interop {
  import opened Wrappers
  import Text
  import Url
  import Router
  import Playlist

  /** The entry's target parses as its path, with the content id and the video flag as its query. */
  lemma TargetParses(name: string, id: string, playVideo: bool)
    requires '?' !in name && '#' !in name
    requires '&' !in id && '#' !in id
    ensures Url.Parse(Playlist.Target(name, id, playVideo))
      == Url.Url("", Some("/" + name + ".mp3"), map["video" := Playlist.BoolText(playVideo)]["chid" := id])
  {
    var path := "/" + name + ".mp3";
    var flag := Playlist.BoolText(playVideo);
    var search := "chid" + "=" + id + "&" + ("video" + "=" + flag);
    TargetLayout(name, id, flag, playVideo);
    Url.ParsePathAndQuery(path, search);
    TargetQuery(id, flag, playVideo);
  }

  /** The query of the target holds the content id and the video flag. */
  lemma TargetQuery(id: string, flag: string, playVideo: bool)
    requires '&' !in id
    requires flag == Playlist.BoolText(playVideo)
    ensures Url.ParseQuery("chid" + "=" + id + "&" + ("video" + "=" + flag)) == map["video" := flag]["chid" := id]
  {
    assert '&' !in flag;
    Url.QueryTwo("chid", id, "video", flag);
  }

  /** The target is a path with no `?`, `#` or scheme, then `?`, then the query. */
  lemma TargetLayout(name: string, id: string, flag: string, playVideo: bool)
    requires '?' !in name && '#' !in name
    requires '&' !in id && '#' !in id
    requires flag == Playlist.BoolText(playVideo)
    ensures var path := "/" + name + ".mp3";
      && Playlist.Target(name, id, playVideo) == path + "?" + ("chid" + "=" + id + "&" + ("video" + "=" + flag))
      && '?' !in path && '#' !in path && Url.Protocol(path).None?
      && '#' !in "chid" + "=" + id + "&" + ("video" + "=" + flag)
  {
    var path := "/" + name + ".mp3";
    assert Url.SchemeRun(path) == 0;
    assert '#' !in flag;
  }

  /**
   * What the proxy makes of a playlist entry: the content id is the row's
   * video id, the name is the display name and `.mp3` with every `/` removed,
   * and video is streamed only when the playlist asked for it and the player
   * is not a Sonos device. A request for video without a `User-Agent` header
   * makes the handler throw.
   */
  lemma TargetRoutes(name: string, id: string, playVideo: bool, userAgent: Option<string>)
    requires '?' !in name && '#' !in name
    requires id != "" && '&' !in id && '#' !in id
    ensures playVideo && userAgent.None? ==> Router.Route(Playlist.Target(name, id, playVideo), userAgent).NoUserAgent?
    ensures !(playVideo && userAgent.None?) ==>
      Router.Route(Playlist.Target(name, id, playVideo), userAgent)
        == Router.Dispatch(Router.Request(Text.RemoveAll("/" + name + ".mp3", '/'), id,
                                          !playVideo || Text.Contains(userAgent.value, "Sonos")))
  {
    TargetParses(name, id, playVideo);
    var query := map["video" := Playlist.BoolText(playVideo)]["chid" := id];
    assert Router.Lookup(query, "chid") == Some(id);
    assert Router.Lookup(query, "video") == Some(Playlist.BoolText(playVideo));
    assert Router.VideoFlag(query) == Some(Playlist.BoolText(playVideo));
    assert Router.AsksForVideo(Router.VideoFlag(query)) <==> playVideo;
  }

  // ---------------------------------------------------------------------------
  // Names and ids the loader does not escape

  /** A `#` in the display name starts the fragment: the query is lost and the proxy answers 500. */
  lemma HashInNameLosesQuery(n1: string, n2: string, id: string, playVideo: bool, userAgent: Option<string>)
    requires '#' !in n1 && '?' !in n1
    ensures Router.Route(Playlist.Target(n1 + "#" + n2, id, playVideo), userAgent) == Router.MissingChid
  {
    var rest := n2 + ".mp3?chid=" + id + "&video=" + Playlist.BoolText(playVideo);
    HashLayout(n1, n2, id, playVideo);
    FragmentDropsQuery(Playlist.Target(n1 + "#" + n2, id, playVideo), "/" + n1, rest);
    assert Router.VideoFlag(map[]) == None;
  }

  lemma HashLayout(n1: string, n2: string, id: string, playVideo: bool)
    requires '#' !in n1 && '?' !in n1
    ensures var path := "/" + n1;
      && Playlist.Target(n1 + "#" + n2, id, playVideo)
        == path + "#" + (n2 + ".mp3?chid=" + id + "&video=" + Playlist.BoolText(playVideo))
      && '#' !in path && '?' !in path && Url.Protocol(path).None?
  {
    assert Url.SchemeRun("/" + n1) == 0;
  }

  /** Everything after the first `#` is the fragment, which the proxy ignores. */
  lemma FragmentDropsQuery(target: string, path: string, rest: string)
    requires target == path + "#" + rest
    requires path != "" && '#' !in path && '?' !in path && Url.Protocol(path).None?
    ensures Url.Parse(target) == Url.Url("", Some(path), map[])
  {
    assert target == path + ['#'] + rest;
    Url.CutAt(path, '#', rest);
    Url.CutAbsent(path, '?');
  }

  /**
   * A `?` in the display name starts the query early: its first key is the
   * rest of the name with `.mp3?chid`, so there is no `chid` and the proxy
   * answers 500, or throws for a video request without `User-Agent`.
   */
  lemma QuestionInNameLosesChid(n1: string, n2: string, id: string, playVideo: bool, userAgent: Option<string>)
    requires '#' !in n1 && '?' !in n1
    requires '#' !in n2 && '&' !in n2 && '=' !in n2
    requires '#' !in id && '&' !in id
    ensures Router.Route(Playlist.Target(n1 + "?" + n2, id, playVideo), userAgent)
      == if playVideo && userAgent.None? then Router.NoUserAgent else Router.MissingChid
  {
    QuestionTarget(n1, n2, id, playVideo);
    RouteWithoutChid(Playlist.Target(n1 + "?" + n2, id, playVideo), "/" + n1, n2 + ".mp3?chid", id, playVideo, userAgent);
  }

  /** A query whose only keys are another key and `video`. */
  lemma RouteWithoutChid(target: string, path: string, key: string, id: string, playVideo: bool, userAgent: Option<string>)
    requires |key| > 5
    requires Url.Parse(target) == Url.Url("", Some(path), map["video" := Playlist.BoolText(playVideo)][key := id])
    ensures Router.Route(target, userAgent) == if playVideo && userAgent.None? then Router.NoUserAgent else Router.MissingChid
  {
    VideoOnlyQuery(key, id, playVideo);
  }

  /** The lookups `_onRequest` makes in a query holding only `video` and a longer key. */
  lemma VideoOnlyQuery(key: string, id: string, playVideo: bool)
    requires |key| > 5
    ensures Router.Lookup(map["video" := Playlist.BoolText(playVideo)][key := id], "chid") == None
    ensures Router.AsksForVideo(Router.VideoFlag(map["video" := Playlist.BoolText(playVideo)][key := id])) == playVideo
  {
    var flag := Playlist.BoolText(playVideo);
    assert |"chid"| == 4 && |"video"| == 5 && |"vid"| == 3 && |"v"| == 1;
    assert key != "chid" && key != "video";
    var query := map["video" := flag][key := id];
    assert Router.Lookup(query, "video") == Some(flag);
  }

  lemma QuestionTarget(n1: string, n2: string, id: string, playVideo: bool)
    requires '#' !in n1 && '?' !in n1
    requires '#' !in n2 && '&' !in n2 && '=' !in n2
    requires '#' !in id && '&' !in id
    ensures Url.Parse(Playlist.Target(n1 + "?" + n2, id, playVideo))
      == Url.Url("", Some("/" + n1), map["video" := Playlist.BoolText(playVideo)][n2 + ".mp3?chid" := id])
  {
    var flag := Playlist.BoolText(playVideo);
    QuestionLayout(n1, n2, id, flag, playVideo);
    PathWithTwoPairs(Playlist.Target(n1 + "?" + n2, id, playVideo), "/" + n1, n2 + ".mp3?chid", id, "video", flag);
  }

  /** A target that is a path, `?`, and a query of two pairs. */
  lemma PathWithTwoPairs(target: string, path: string, k1: string, v1: string, k2: string, v2: string)
    requires target == path + "?" + (k1 + "=" + v1 + "&" + (k2 + "=" + v2))
    requires path != "" && '#' !in path && '?' !in path && Url.Protocol(path).None?
    requires '#' !in k1 + "=" + v1 + "&" + (k2 + "=" + v2)
    requires '&' !in k1 && '=' !in k1 && '&' !in v1
    requires '&' !in k2 && '=' !in k2 && '&' !in v2
    ensures Url.Parse(target) == Url.Url("", Some(path), map[k2 := v2][k1 := v1])
  {
    Url.ParsePathAndQuery(path, k1 + "=" + v1 + "&" + (k2 + "=" + v2));
    Url.QueryTwo(k1, v1, k2, v2);
  }

  lemma QuestionLayout(n1: string, n2: string, id: string, flag: string, playVideo: bool)
    requires '#' !in n1 && '?' !in n1
    requires '#' !in n2 && '&' !in n2 && '=' !in n2
    requires '#' !in id && '&' !in id
    requires flag == Playlist.BoolText(playVideo)
    ensures var path := "/" + n1;
      var key := n2 + ".mp3?chid";
      var search := key + "=" + id + "&" + ("video" + "=" + flag);
      && Playlist.Target(n1 + "?" + n2, id, playVideo) == path + "?" + search
      && '#' !in path && '#' !in search && '?' !in path && Url.Protocol(path).None?
      && '&' !in key && '=' !in key && '&' !in flag
  {
    assert Url.SchemeRun("/" + n1) == 0;
  }

  /** An `&` in the id ends the `chid` parameter: the proxy gets the part before it. */
  lemma AmpersandInIdCutsChid(name: string, a: string, b: string, playVideo: bool, userAgent: Option<string>)
    requires '?' !in name && '#' !in name
    requires a != "" && '&' !in a && '#' !in a && '&' !in b && '#' !in b
    ensures var r := Router.Route(Playlist.Target(name, a + "&" + b, playVideo), userAgent);
      && (r.Dispatch? || r.NoUserAgent?)
      && (r.Dispatch? ==> r.request.chid == a)
  {
    AmpersandTarget(name, a, b, playVideo);
  }

  lemma AmpersandTarget(name: string, a: string, b: string, playVideo: bool)
    requires '?' !in name && '#' !in name
    requires a != "" && '&' !in a && '#' !in a && '&' !in b && '#' !in b
    ensures var u := Url.Parse(Playlist.Target(name, a + "&" + b, playVideo));
      u.pathname.Some? && "chid" in u.query && u.query["chid"] == a
  {
    var path := "/" + name + ".mp3";
    var flag := Playlist.BoolText(playVideo);
    var p1 := "chid" + "=" + a;
    var p3 := "video" + "=" + flag;
    var search := p1 + "&" + b + "&" + p3;
    AmpersandLayout(name, a, b, flag, playVideo);
    Url.ParsePathAndQuery(path, search);
    AmpersandQuery(a, b, p3);
  }

  lemma AmpersandQuery(a: string, b: string, p3: string)
    requires '&' !in a && '&' !in b && '&' !in p3
    ensures var query := Url.ParseQuery("chid" + "=" + a + "&" + b + "&" + p3);
      "chid" in query && query["chid"] == a
  {
    ThreePieces("chid" + "=" + a, b, p3);
    Url.CutAt("chid", '=', a);
  }

  lemma AmpersandLayout(name: string, a: string, b: string, flag: string, playVideo: bool)
    requires '?' !in name && '#' !in name
    requires '&' !in a && '#' !in a && '&' !in b && '#' !in b
    requires flag == Playlist.BoolText(playVideo)
    ensures var path := "/" + name + ".mp3";
      var search := "chid" + "=" + a + "&" + b + "&" + ("video" + "=" + flag);
      && Playlist.Target(name, a + "&" + b, playVideo) == path + "?" + search
      && '#' !in path && '#' !in search && '?' !in path && Url.Protocol(path).None?
      && '&' !in "chid" + "=" + a && '&' !in "video" + "=" + flag
  {
    assert Url.SchemeRun("/" + name + ".mp3") == 0;
  }

  lemma ThreePieces(p1: string, p2: string, p3: string)
    requires '&' !in p1 && '&' !in p2 && '&' !in p3 && p1 != ""
    ensures Url.ParseQuery(p1 + "&" + p2 + "&" + p3) == Url.QueryPairs([p2, p3])[Url.Pair(p1).0 := Url.Pair(p1).1]
  {
    var parts := [p1, p2, p3];
    assert Text.Join([p2, p3], '&') == p2 + "&" + p3 by {
      assert [p2, p3][1..] == [p3];
    }
    assert Text.Join(parts, '&') == p1 + "&" + p2 + "&" + p3 by {
      assert parts[1..] == [p2, p3];
    }
    Text.SplitJoin(parts, '&');
    assert parts[1..] == [p2, p3];
  }
}
