/**
 * `ProxyService._onRequest` up to the hand-over to the player: the display
 * name, the content id (`chid`) and the audio flag read from the request
 * target and the `User-Agent` header.
 */
module Router {
  import opened Wrappers
  import Text
  import Url

  /** What the player is given: `name`, `chid` and `{ audio }`. */
  datatype Request = Request(name: string, chid: string, audio: bool)

  /**
   * How `_onRequest` ends: a hand-over to `playCached`; the 500 response for a
   * missing content id; a TypeError when the video flag asks for video and no
   * `User-Agent` header was sent (`includes` on `undefined`); or a TypeError
   * when the target has no path (`replace` on `null`).
   */
  datatype Routed = Dispatch(request: Request) | MissingChid | NoUserAgent | NoPathname

  function Lookup(query: map<string, string>, key: string): Option<string> {
    if key in query then Some(query[key]) else None
  }

  /** `video || vid || v` */
  function VideoFlag(query: map<string, string>): (r: Option<string>)
    ensures Text.Truthy(Lookup(query, "video")) ==> r == Lookup(query, "video")
    ensures !Text.Truthy(Lookup(query, "video")) && Text.Truthy(Lookup(query, "vid")) ==> r == Lookup(query, "vid")
    ensures !Text.Truthy(Lookup(query, "video")) && !Text.Truthy(Lookup(query, "vid")) ==> r == Lookup(query, "v")
  {
    Text.Or(Text.Or(Lookup(query, "video"), Lookup(query, "vid")), Lookup(query, "v"))
  }

  /** `['1','true'].includes(vid)` */
  predicate AsksForVideo(flag: Option<string>) {
    flag == Some("1") || flag == Some("true")
  }

  function Route(target: string, userAgent: Option<string>): (r: Routed)
    ensures r.NoPathname? <==> Url.Parse(target).pathname.None?
    ensures r.NoUserAgent? <==>
      Url.Parse(target).pathname.Some? && AsksForVideo(VideoFlag(Url.Parse(target).query)) && userAgent.None?
    ensures r.MissingChid? <==> !r.NoPathname? && !r.NoUserAgent? && !Text.Truthy(Lookup(Url.Parse(target).query, "chid"))
    ensures r.Dispatch? ==> '/' !in r.request.name && r.request.chid != ""
    ensures r.Dispatch? ==> Some(r.request.chid) == Lookup(Url.Parse(target).query, "chid")
    ensures r.Dispatch? ==> r.request.name == Text.RemoveAll(Url.Parse(target).pathname.value, '/')
    ensures r.Dispatch? ==>
      (!r.request.audio <==> AsksForVideo(VideoFlag(Url.Parse(target).query)) && !Text.Contains(userAgent.value, "Sonos"))
  {
    var u := Url.Parse(target);
    var chid := Lookup(u.query, "chid");
    if u.pathname.None? then NoPathname
    else
      var name := Text.RemoveAll(u.pathname.value, '/');
      var vid := VideoFlag(u.query);
      if AsksForVideo(vid) && userAgent.None? then NoUserAgent
      else
        var audio := !AsksForVideo(vid) || Text.Contains(userAgent.value, "Sonos");
        if !Text.Truthy(chid) then MissingChid
        else Dispatch(Request(name, chid.value, audio))
  }

  /** A Sonos player always gets audio, whatever flag it sends. */
  lemma SonosGetsAudio(target: string, before: string, after: string)
    requires Route(target, Some(before + "Sonos" + after)).Dispatch?
    ensures Route(target, Some(before + "Sonos" + after)).request.audio
  {
    Text.ContainsOccurrence(before, "Sonos", after);
  }

  /** Stripping slashes is all the name normalisation there is: a name without `/` is kept as it is. */
  lemma NameWithoutSlashKept(target: string, userAgent: Option<string>)
    requires Route(target, userAgent).Dispatch?
    requires '/' !in Url.Parse(target).pathname.value
    ensures Route(target, userAgent).request.name == Url.Parse(target).pathname.value
  {
    Text.RemoveAllAbsent(Url.Parse(target).pathname.value, '/');
  }
}
