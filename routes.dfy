/**
 * The HTTP handlers: the password-gated playlist download and the search
 * over guide programmes and playlist channel names. Each is a pure reply
 * builder over what the cache serves, plus a handler that consults the
 * cache.
 */
module Routes {
  import opened Wrappers
  import opened Strings
  import opened Seqs
  import opened Parse
  import opened Playlists
  import opened Guide
  import opened App

  /** A reply: a body with its status and content type, an error status with its text, or a panic. */
  datatype HttpReply<+T> = Answer(status: int, contentType: string, body: T)
                         | Rejection(status: int, message: string)
                         | Crash(message: string)

  // ---------------------------------------------------------------------------
  // `download_playlist`
  // ---------------------------------------------------------------------------

  /** After the password check: the served playlist written as M3U, or a 500. */
  function PlaylistReply(served: Outcome<seq<PlaylistEntry>>): (r: HttpReply<string>)
    ensures r.Answer? <==> served.Served?
    ensures r.Answer? ==> r.status == 200 && r.contentType == "audio/x-mpegurl" && "#EXTM3U\n" <= r.body
    ensures served.Failed? ==> r == Rejection(500, "Failed to fetch playlist")
    ensures served.Panic? ==> r == Crash(served.message)
  {
    match served
    case Served(es) => Answer(200, "audio/x-mpegurl", ToM3u(es))
    case Failed(_) => Rejection(500, "Failed to fetch playlist")
    case Panic(m) => Crash(m)
  }

  /** The downloaded body reads back as the very playlist that was served. */
  lemma PlaylistReplyReadsBack(es: seq<PlaylistEntry>)
    requires forall k :: 0 <= k < |es| ==> PlaylistSafe(es[k])
    ensures PlaylistReply(Served(es)).Answer?
    ensures FromStr(PlaylistReply(Served(es)).body) == Parsed(es)
  {
    FromM3u(es);
  }

  method DownloadPlaylist(app: AppState, pw: string, password: string, now: int, download: Result<Response>)
    returns (r: HttpReply<string>)
    modifies app
    ensures pw != password ==>
      r == Rejection(401, "Unauthorized") && app.cachedPlaylist == old(app.cachedPlaylist)
      && app.cachedEpg == old(app.cachedEpg)
    ensures pw == password ==> r == PlaylistReply(old(app.PlaylistOutcome(now, download)))
    ensures app.cachedEpg == old(app.cachedEpg)
    ensures pw == password && (old(app.PlaylistFresh(now)) || !RefreshPlaylist(download).Served?) ==>
      app.cachedPlaylist == old(app.cachedPlaylist)
    ensures pw == password && !old(app.PlaylistFresh(now)) && RefreshPlaylist(download).Served? ==>
      && app.cachedPlaylist.Some? && app.cachedPlaylist.value.fetched == now
      && app.cachedPlaylist.value.playlist.entries == RefreshPlaylist(download).value
  {
    if pw != password {
      return Rejection(401, "Unauthorized");
    }
    var fetched := app.FetchPlaylist(now, download);
    match fetched
    case Served(playlist) => r := Answer(200, "audio/x-mpegurl", ToM3u(playlist.entries));
    case Failed(_) => r := Rejection(500, "Failed to fetch playlist");
    case Panic(m) => r := Crash(m);
  }

  // ---------------------------------------------------------------------------
  // `search`
  // ---------------------------------------------------------------------------

  datatype ProgrammeResult = ProgrammeResult(channelName: string, programmeTitle: string,
                                             programmeDesc: string, start: Zoned, stop: Zoned)

  datatype ChannelResult = ChannelResult(channelName: string)

  datatype SearchResult = SearchResult(programmes: seq<ProgrammeResult>, channels: seq<ChannelResult>)

  /**
   * Each found programme with its channel's display name; `None` when a
   * programme's channel is not in the map, where `unwrap` panics.
   */
  function ProgrammeResults(channels: map<string, Channel>, ps: seq<Programme>): (r: Option<seq<ProgrammeResult>>)
    ensures r.Some? <==> forall k :: 0 <= k < |ps| ==> ps[k].channel in channels
    ensures r.Some? ==> |r.value| == |ps|
  {
    if ps == [] then Some([])
    else if ps[0].channel !in channels then None
    else
      var p := ps[0];
      match ProgrammeResults(channels, ps[1..])
      case None =>
        assert forall k :: 1 <= k < |ps| ==> ps[1..][k - 1] == ps[k];
        None
      case Some(rest) =>
        Some([ProgrammeResult(channels[p.channel].displayName, p.title, p.desc, p.start, p.stop)] + rest)
  }

  /** Result `k` copies programme `k` and names the channel the map holds for its id. */
  lemma {:induction false} ProgrammeResultsCopy(channels: map<string, Channel>, ps: seq<Programme>, k: nat)
    requires ProgrammeResults(channels, ps).Some? && k < |ps|
    ensures var res := ProgrammeResults(channels, ps).value[k]; var p := ps[k];
      && p.channel in channels
      && res == ProgrammeResult(channels[p.channel].displayName, p.title, p.desc, p.start, p.stop)
  {
    if k > 0 {
      ProgrammeResultsCopy(channels, ps[1..], k - 1);
    }
  }

  /** The index of the guide's last channel with id `id`. */
  function LastIndexOf(cs: seq<Channel>, id: string): (j: nat)
    requires id in (set c | c in cs :: c.id)
    ensures j < |cs| && cs[j].id == id && LastWithId(cs, j)
  {
    var last := cs[|cs| - 1];
    if last.id == id then |cs| - 1
    else
      var init := cs[..|cs| - 1];
      assert forall c :: c in cs <==> c in init || c == last;
      var j := LastIndexOf(init, id);
      assert cs[j] == init[j];
      j
  }

  /**
   * The channel name of a result is the display name of the guide's last
   * channel with the programme's channel id.
   */
  lemma ResultNamesLastChannel(cs: seq<Channel>, ps: seq<Programme>, k: nat)
    requires ProgrammeResults(ChannelMap(cs), ps).Some? && k < |ps|
    ensures ps[k].channel in (set c | c in cs :: c.id)
    ensures ProgrammeResults(ChannelMap(cs), ps).value[k].channelName ==
      cs[LastIndexOf(cs, ps[k].channel)].displayName
  {
    ProgrammeResultsCopy(ChannelMap(cs), ps, k);
  }

  /** The playlist entries whose lower-cased name contains the lower-cased query. */
  predicate NameMatches(query: string, e: PlaylistEntry)
  {
    Contains(Lower(e.name), Lower(query))
  }

  function ChannelResults(es: seq<PlaylistEntry>, query: string): (r: seq<ChannelResult>)
    ensures |r| <= |es|
    ensures query == [] ==> |r| == |es| && forall k :: 0 <= k < |es| ==> r[k] == ChannelResult(es[k].name)
  {
    var keep := e => NameMatches(query, e);
    var kept := if query == [] then (EveryNameMatchesEmpty(es); RetainAll(es, keep); Retain(es, keep))
                else Retain(es, keep);
    seq(|kept|, k requires 0 <= k < |kept| => ChannelResult(kept[k].name))
  }

  /** The empty query is contained in every name. */
  lemma EveryNameMatchesEmpty(es: seq<PlaylistEntry>)
    ensures forall k :: 0 <= k < |es| ==> NameMatches([], es[k])
  {
    assert Lower([]) == [];
  }

  /** A name is offered exactly when some playlist entry has it and matches. */
  lemma ChannelResultsExact(es: seq<PlaylistEntry>, query: string, name: string)
    ensures ChannelResult(name) in ChannelResults(es, query) <==>
      exists e :: e in es && e.name == name && NameMatches(query, e)
  {
    var kept := Retain(es, e => NameMatches(query, e));
    var r := ChannelResults(es, query);
    if ChannelResult(name) in r {
      var k :| 0 <= k < |r| && r[k] == ChannelResult(name);
      assert kept[k] in kept;
    }
    if exists e :: e in es && e.name == name && NameMatches(query, e) {
      var e :| e in es && e.name == name && NameMatches(query, e);
      assert e in kept;
      var k :| 0 <= k < |kept| && kept[k] == e;
      assert r[k] == ChannelResult(name);
    }
  }

  /** After the guide is served: the found programmes joined with their channels, then the playlist. */
  function SearchReply(guide: (seq<Channel>, seq<Programme>), query: string, nowNanos: int,
                       playlist: Outcome<seq<PlaylistEntry>>): (r: HttpReply<SearchResult>)
    ensures var found := ProgrammeResults(ChannelMap(guide.0), Search(guide.1, query, nowNanos));
      && (r.Answer? <==> found.Some? && playlist.Served?)
      && (r.Crash? <==> found.None? || playlist.Panic?)
    ensures r.Answer? ==> && r.status == 200 && r.contentType == "application/json"
                          && |r.body.programmes| == |Search(guide.1, query, nowNanos)|
                          && r.body.channels == ChannelResults(playlist.value, query)
  {
    match ProgrammeResults(ChannelMap(guide.0), Search(guide.1, query, nowNanos))
    case None => Crash("programme on a channel missing from the guide")
    case Some(programmes) =>
      match playlist
      case Failed(_) => Rejection(500, "Failed to fetch playlist")
      case Panic(m) => Crash(m)
      case Served(es) => Answer(200, "application/json", SearchResult(programmes, ChannelResults(es, query)))
  }

  /** The programme results come ordered by start instant, as the search sorted them. */
  lemma SearchReplySorted(guide: (seq<Channel>, seq<Programme>), query: string, nowNanos: int,
                          playlist: Outcome<seq<PlaylistEntry>>)
    requires SearchReply(guide, query, nowNanos, playlist).Answer?
    ensures var res := SearchReply(guide, query, nowNanos, playlist).body.programmes;
      forall i, j :: 0 <= i < j < |res| ==> EpgTime.Instant(res[i].start) <= EpgTime.Instant(res[j].start)
  {
    var found := Search(guide.1, query, nowNanos);
    var res := SearchReply(guide, query, nowNanos, playlist).body.programmes;
    forall i, j | 0 <= i < j < |res|
      ensures EpgTime.Instant(res[i].start) <= EpgTime.Instant(res[j].start)
    {
      ProgrammeResultsCopy(ChannelMap(guide.0), found, i);
      ProgrammeResultsCopy(ChannelMap(guide.0), found, j);
      assert StartKey(found[i]) <= StartKey(found[j]);
    }
  }

  /** The search reaches the playlist fetch: the guide was served and every found programme's channel is known. */
  predicate PlaylistFetched(guide: Outcome<(seq<Channel>, seq<Programme>)>, query: string, nowNanos: int)
  {
    guide.Served? && ProgrammeResults(ChannelMap(guide.value.0), Search(guide.value.1, query, nowNanos)).Some?
  }

  /**
   * `search`: fetch the guide (a failure is a 500), join the found
   * programmes with the channel map (a missing channel panics), then fetch
   * the playlist (a failure is a 500) and add the matching channel names.
   * The playlist is not consulted when an earlier step ends the request.
   */
  method SearchRoute(app: AppState, query: string, now: int, nowNanos: int,
                     epgDownload: Result<RawGuide>, playlistDownload: Result<Response>)
    returns (r: HttpReply<SearchResult>)
    modifies app
    ensures match old(app.EpgOutcome(now, epgDownload))
      case Served(g) =>
        if ProgrammeResults(ChannelMap(g.0), Search(g.1, query, nowNanos)).None? then
          r.Crash? && app.cachedPlaylist == old(app.cachedPlaylist)
        else
          r == SearchReply(g, query, nowNanos, old(app.PlaylistOutcome(now, playlistDownload)))
      case _ => r == Rejection(500, "Failed to fetch EPG") && app.cachedPlaylist == old(app.cachedPlaylist)
    ensures old(app.EpgFresh(now)) || !RefreshEpg(epgDownload).Served? ==> app.cachedEpg == old(app.cachedEpg)
    ensures !old(app.EpgFresh(now)) && RefreshEpg(epgDownload).Served? ==>
      && app.cachedEpg.Some? && app.cachedEpg.value.fetched == now
      && app.cachedEpg.value.epg.channels == RefreshEpg(epgDownload).value.0
      && app.cachedEpg.value.epg.programmes == RefreshEpg(epgDownload).value.1
    ensures PlaylistFetched(old(app.EpgOutcome(now, epgDownload)), query, nowNanos) ==>
      && (old(app.PlaylistFresh(now)) || !RefreshPlaylist(playlistDownload).Served? ==>
            app.cachedPlaylist == old(app.cachedPlaylist))
      && (!old(app.PlaylistFresh(now)) && RefreshPlaylist(playlistDownload).Served? ==>
            && app.cachedPlaylist.Some? && app.cachedPlaylist.value.fetched == now
            && app.cachedPlaylist.value.playlist.entries == RefreshPlaylist(playlistDownload).value)
  {
    ghost var playlistOutcome := app.PlaylistOutcome(now, playlistDownload);
    var fetchedEpg := app.FetchEpg(now, epgDownload);
    if !fetchedEpg.Served? {
      return Rejection(500, "Failed to fetch EPG");
    }
    var epg := fetchedEpg.value;
    var channelMap := ChannelMap(epg.channels);
    var programmes := Search(epg.programmes, query, nowNanos);
    var results := ProgrammeResults(channelMap, programmes);
    if results.None? {
      return Crash("programme on a channel missing from the guide");
    }
    assert app.PlaylistOutcome(now, playlistDownload) == playlistOutcome;
    var fetchedPlaylist := app.FetchPlaylist(now, playlistDownload);
    match fetchedPlaylist
    case Failed(_) => r := Rejection(500, "Failed to fetch playlist");
    case Panic(m) => r := Crash(m);
    case Served(playlist) =>
      r := Answer(200, "application/json", SearchResult(results.value, ChannelResults(playlist.entries, query)));
  }
}
