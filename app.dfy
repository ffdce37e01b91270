/**
 * The server state: one cache slot for the playlist and one for the guide,
 * each holding the last value fetched and when. Reading a fresh slot serves
 * a copy; reading an empty or stale one downloads, prunes and overwrites it.
 * Clock readings and download outcomes are parameters.
 */
module App {
  import opened Wrappers
  import opened Strings
  import opened Seqs
  import opened Parse
  import opened Playlists
  import opened Guide

  // ---------------------------------------------------------------------------
  // Staleness
  // ---------------------------------------------------------------------------

  /** Six hours, in nanoseconds of the monotonic clock. */
  const SixHours: int := 6 * 3600 * 1_000_000_000

  /** `is_stale`: more than six hours have elapsed since the fetch. */
  predicate IsStale(fetched: int, now: int)
    ensures IsStale(fetched, now) ==> fetched < now
  {
    now - fetched > SixHours
  }

  /** Exactly six hours old is still fresh; one nanosecond more is stale. */
  lemma StaleBoundary(fetched: int)
    ensures !IsStale(fetched, fetched + SixHours)
    ensures IsStale(fetched, fetched + SixHours + 1)
    ensures forall now :: now <= fetched ==> !IsStale(fetched, now)
  {
  }

  // ---------------------------------------------------------------------------
  // The exclusion pipeline
  // ---------------------------------------------------------------------------

  const SnippetsToExclude: seq<string> := ["PL", "FI"]

  const GroupsToExclude: seq<string> := [
    "For Adults", "Afganistan", "Pakistan", "Turkey", "India", "Romania", "Colombia",
    "Finland", "Bulgarien", "Iceland", "Arabic", "Albania", "Peru", "Chile",
    "\U{010C}esk\U{00E1} republika", "Ecuador", "France", "Latino", "Africa", "Germany",
    "Russia", "Spain", "Portugal", "Netherlands", "Belgium", "Thailand", "Slovenia",
    "Israel", "Iran", "Brazil", "Argentina", "Philippines", "Makedonien", "EX-Yu",
    "Poland", "Austria", "Paraguay", "Hungary", "Slovakien", "Mexico",
    "Dominican Republic", "Germany PPV Channels", "Greece", "Kurdistan",
    "Premiership Rugby UK", "Switzerland", "Venenzuela", "Uraguay", "Discovery+ Sport FI",
    "Italy", "Venezuela", "Music Collection", "SIMINN PPV (iceland)"]

  predicate Allowed(e: PlaylistEntry)
  {
    OutsideGroups(GroupsToExclude, e) && FreeOfSnippets(SnippetsToExclude, e) && WithoutExtension(e)
  }

  /** The three filters in the order they run: groups, then snippets, then extensions. */
  function Excluded(es: seq<PlaylistEntry>): (r: seq<PlaylistEntry>)
    ensures |r| <= |es|
    ensures forall e :: e in r ==> e in es && Allowed(e)
  {
    Retain(Retain(Retain(es, e => OutsideGroups(GroupsToExclude, e)),
      e => FreeOfSnippets(SnippetsToExclude, e)), WithoutExtension)
  }

  /** The pipeline keeps exactly the allowed entries. */
  lemma ExcludedKeepsAllowed(es: seq<PlaylistEntry>)
    ensures forall e :: e in Excluded(es) <==> e in es && Allowed(e)
  {
  }

  /** The pipeline is the single filter `Allowed`, so it keeps the playlist order. */
  lemma {:induction false} ExcludedInOrder(es: seq<PlaylistEntry>)
    ensures Excluded(es) == Retain(es, Allowed)
  {
    if es != [] {
      ExcludedInOrder(es[1..]);
    }
  }

  /** Running the pipeline on its own result removes nothing more. */
  lemma ExcludedIdempotent(es: seq<PlaylistEntry>)
    ensures Excluded(Excluded(es)) == Excluded(es)
  {
    ExcludedInOrder(es);
    ExcludedInOrder(Excluded(es));
    RetainIdempotent(es, Allowed);
  }

  // ---------------------------------------------------------------------------
  // Refreshing
  // ---------------------------------------------------------------------------

  /** What the HTTP exchange returned; a client, send or body error is a `Failure`. */
  datatype Response = Response(status: int, body: string)

  /** A fetch either serves a value, returns an error, or panics. */
  datatype Outcome<+T> = Served(value: T) | Failed(error: string) | Panic(message: string)

  /**
   * The download, parse and prune of `fetch_playlist`: the status is not
   * looked at, an unparsable pair of lines panics.
   */
  function RefreshPlaylist(download: Result<Response>): (r: Outcome<seq<PlaylistEntry>>)
    ensures r.Failed? <==> download.Failure?
    ensures r.Panic? <==> download.Success? && FromStr(download.value.body).Panicked?
    ensures r.Served? ==> forall e :: e in r.value ==> Allowed(e)
  {
    match download
    case Failure(e) => Failed(e)
    case Success(response) =>
      match FromStr(response.body)
      case Panicked(chunk) => Panic(chunk)
      case Parsed(es) => Served(Excluded(es))
  }

  /** A non-200 status changes nothing: only the body counts. */
  lemma StatusIgnored(s1: int, s2: int, body: string)
    ensures RefreshPlaylist(Success(Response(s1, body))) == RefreshPlaylist(Success(Response(s2, body)))
  {
  }

  /** A served playlist written by `to_m3u` comes back pruned and in order. */
  lemma RefreshOfWrittenPlaylist(status: int, es: seq<PlaylistEntry>)
    requires forall k :: 0 <= k < |es| ==> PlaylistSafe(es[k])
    ensures RefreshPlaylist(Success(Response(status, ToM3u(es)))) == Served(Retain(es, Allowed))
  {
    FromM3u(es);
    ExcludedInOrder(es);
  }

  /** `Epg::from_url`: a download or document error fails the fetch. */
  function RefreshEpg(download: Result<RawGuide>): (r: Outcome<(seq<Channel>, seq<Programme>)>)
    ensures !r.Panic?
    ensures download.Failure? ==> r == Failed(download.error)
    ensures r.Served? <==> download.Success? && DecodeProgrammes(download.value.programmes).Some?
    ensures r.Served? ==> r.value.0 == download.value.channels && |r.value.1| == |download.value.programmes|
  {
    match download
    case Failure(e) => Failed(e)
    case Success(raw) =>
      match DecodeGuide(raw)
      case None => Failed("invalid programme time")
      case Some(guide) => Served(guide)
  }

  /** A guide whose times were written with the pattern is read back whole. */
  lemma RefreshOfWrittenGuide(cs: seq<Channel>, ps: seq<Programme>)
    ensures RefreshEpg(Success(RawGuide(cs, seq(|ps|, k requires 0 <= k < |ps| => EncodeProgramme(ps[k])))))
      == Served((cs, ps))
  {
    var raws := seq(|ps|, k requires 0 <= k < |ps| => EncodeProgramme(ps[k]));
    forall k | 0 <= k < |ps|
      ensures DecodeProgramme(raws[k]) == Some(ps[k])
    {
      DecodeEncoded(ps[k]);
    }
    var d := DecodeProgrammes(raws);
    assert d.Some?;
    assert d.value == ps;
  }

  // ---------------------------------------------------------------------------
  // The cache slots
  // ---------------------------------------------------------------------------

  datatype PlaylistFetch = PlaylistFetch(playlist: Playlist, fetched: int)

  datatype EpgFetch = EpgFetch(epg: Epg, fetched: int)

  class AppState {
    var cachedPlaylist: Option<PlaylistFetch>
    var cachedEpg: Option<EpgFetch>

    /** Both slots start empty (release build). */
    constructor()
      ensures cachedPlaylist == None && cachedEpg == None
    {
      cachedPlaylist := None;
      cachedEpg := None;
    }

    /** The slot holds a value fetched at most six hours before `now`. */
    predicate PlaylistFresh(now: int)
      reads this
    {
      cachedPlaylist.Some? && !IsStale(cachedPlaylist.value.fetched, now)
    }

    predicate EpgFresh(now: int)
      reads this
    {
      cachedEpg.Some? && !IsStale(cachedEpg.value.fetched, now)
    }

    /** What `fetch_playlist` serves: the cached entries when fresh, else the refreshed ones. */
    function PlaylistOutcome(now: int, download: Result<Response>): Outcome<seq<PlaylistEntry>>
      reads this, if cachedPlaylist.Some? then {cachedPlaylist.value.playlist} else {}
    {
      if PlaylistFresh(now) then Served(cachedPlaylist.value.playlist.entries)
      else RefreshPlaylist(download)
    }

    /** What `fetch_epg` serves: the cached guide when fresh, else the downloaded one. */
    function EpgOutcome(now: int, download: Result<RawGuide>): Outcome<(seq<Channel>, seq<Programme>)>
      reads this, if cachedEpg.Some? then {cachedEpg.value.epg} else {}
    {
      if EpgFresh(now) then Served((cachedEpg.value.epg.channels, cachedEpg.value.epg.programmes))
      else RefreshEpg(download)
    }

    /**
     * `fetch_playlist`: a fresh slot serves a copy of its playlist without
     * downloading; otherwise `download` is parsed and pruned, stored with
     * `fetched = now`, and a copy is served. A failed download or a panic
     * leaves the slot as it was.
     */
    method FetchPlaylist(now: int, download: Result<Response>) returns (r: Outcome<Playlist>)
      modifies this
      ensures cachedEpg == old(cachedEpg)
      ensures match old(PlaylistOutcome(now, download))
        case Served(es) => r.Served? && fresh(r.value) && r.value.entries == es
        case Failed(e) => r == Failed(e)
        case Panic(m) => r == Panic(m)
      ensures old(PlaylistFresh(now)) || !RefreshPlaylist(download).Served? ==>
        cachedPlaylist == old(cachedPlaylist)
      ensures !old(PlaylistFresh(now)) && RefreshPlaylist(download).Served? ==>
        && cachedPlaylist.Some? && cachedPlaylist.value.fetched == now
        && fresh(cachedPlaylist.value.playlist) && cachedPlaylist.value.playlist != r.value
        && cachedPlaylist.value.playlist.entries == RefreshPlaylist(download).value
    {
      if cachedPlaylist.Some? && !IsStale(cachedPlaylist.value.fetched, now) {
        var copy := new Playlist(cachedPlaylist.value.playlist.entries);
        return Served(copy);
      }
      if download.Failure? {
        return Failed(download.error);
      }
      var parsed := FromStr(download.value.body);
      if parsed.Panicked? {
        return Panic(parsed.chunk);
      }
      var playlist := new Playlist(parsed.entries);
      playlist.ExcludeGroups(GroupsToExclude);
      playlist.ExcludeContaining(SnippetsToExclude);
      playlist.ExcludeAllExtensions();
      var stored := new Playlist(playlist.entries);
      cachedPlaylist := Some(PlaylistFetch(stored, now));
      r := Served(playlist);
    }

    /**
     * `fetch_epg`: a fresh slot serves a copy of its guide; otherwise the
     * downloaded guide is stored with `fetched = now` and a copy is served.
     * A failed download leaves the slot as it was. It never panics.
     */
    method FetchEpg(now: int, download: Result<RawGuide>) returns (r: Outcome<Epg>)
      modifies this
      ensures cachedPlaylist == old(cachedPlaylist)
      ensures match old(EpgOutcome(now, download))
        case Served(g) => r.Served? && fresh(r.value) && r.value.channels == g.0 && r.value.programmes == g.1
        case Failed(e) => r == Failed(e)
        case Panic(_) => false
      ensures old(EpgFresh(now)) || !RefreshEpg(download).Served? ==> cachedEpg == old(cachedEpg)
      ensures !old(EpgFresh(now)) && RefreshEpg(download).Served? ==>
        && cachedEpg.Some? && cachedEpg.value.fetched == now
        && fresh(cachedEpg.value.epg) && cachedEpg.value.epg != r.value
        && cachedEpg.value.epg.channels == RefreshEpg(download).value.0
        && cachedEpg.value.epg.programmes == RefreshEpg(download).value.1
    {
      if cachedEpg.Some? && !IsStale(cachedEpg.value.fetched, now) {
        var copy := new Epg(cachedEpg.value.epg.channels, cachedEpg.value.epg.programmes);
        return Served(copy);
      }
      var refreshed := RefreshEpg(download);
      if refreshed.Failed? {
        return Failed(refreshed.error);
      }
      var g := refreshed.value;
      var stored := new Epg(g.0, g.1);
      cachedEpg := Some(EpgFetch(stored, now));
      var epg := new Epg(g.0, g.1);
      r := Served(epg);
    }

    /** What the poller sees: an empty slot is not stale. */
    predicate PollerSeesStalePlaylist(now: int)
      reads this
    {
      match cachedPlaylist
      case None => false
      case Some(f) => IsStale(f.fetched, now)
    }

    predicate PollerSeesStaleEpg(now: int)
      reads this
    {
      match cachedEpg
      case None => false
      case Some(f) => IsStale(f.fetched, now)
    }

    /**
     * One turn of the playlist poller: refresh only a slot that holds a
     * stale value; an error from the refresh is dropped, but a parse panic
     * unwinds out of the spawned loop and ends the poller for good, which
     * `continues` reports.
     */
    method PollPlaylist(now: int, download: Result<Response>) returns (continues: bool)
      modifies this
      ensures continues <==> !(old(PollerSeesStalePlaylist(now)) && RefreshPlaylist(download).Panic?)
      ensures cachedEpg == old(cachedEpg)
      ensures !old(PollerSeesStalePlaylist(now)) ==> cachedPlaylist == old(cachedPlaylist)
      ensures old(PollerSeesStalePlaylist(now)) ==>
        if RefreshPlaylist(download).Served? then
          cachedPlaylist.Some? && cachedPlaylist.value.fetched == now
          && cachedPlaylist.value.playlist.entries == RefreshPlaylist(download).value
        else cachedPlaylist == old(cachedPlaylist)
    {
      var isStale := match cachedPlaylist case None => false case Some(f) => IsStale(f.fetched, now);
      continues := true;
      if isStale {
        var fetched := FetchPlaylist(now, download);
        continues := !fetched.Panic?;
      }
    }

    /** One turn of the guide poller, under the same rule; `fetch_epg` never panics, so it never ends. */
    method PollEpg(now: int, download: Result<RawGuide>)
      modifies this
      ensures cachedPlaylist == old(cachedPlaylist)
      ensures !old(PollerSeesStaleEpg(now)) ==> cachedEpg == old(cachedEpg)
      ensures old(PollerSeesStaleEpg(now)) ==>
        if RefreshEpg(download).Served? then
          cachedEpg.Some? && cachedEpg.value.fetched == now
          && cachedEpg.value.epg.channels == RefreshEpg(download).value.0
          && cachedEpg.value.epg.programmes == RefreshEpg(download).value.1
        else cachedEpg == old(cachedEpg)
    {
      var isStale := match cachedEpg case None => false case Some(f) => IsStale(f.fetched, now);
      if isStale {
        var _ := FetchEpg(now, download);
      }
    }
  }
}
