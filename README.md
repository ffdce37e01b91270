# sparrow-tv core in Dafny

sparrow-tv is a small IPTV relay. It downloads an extended-M3U playlist and an
XMLTV programme guide and prunes each one. It keeps each in a six-hour cache
slot and serves it over HTTP, together with a search across guide programmes
and playlist channel names. This project models the sequential logic at the
core of the service and proves properties of that model:

- **Playlist records** (`src/parse.rs`). The nom combinator parser reads one
  record in a fixed field order (module `Parse`). `Display` writes a record
  back, with the literal `{XUI_ID}` placeholder in place of the discarded
  `xui-id` value. Module `ParseRoundTrip` proves that parsing the written form
  gives the record back. Module `Playlists` covers the playlist as a whole:
  `to_m3u`, `from_str` with its pairing of lines and its panic on a bad pair,
  and the three `retain` filters as methods of class `Playlist`.
- **The guide** (`src/epg.rs`).
  - Module `EpgTime` holds the timestamp pattern `%Y%m%d%H%M%S %z`, both read
    and written, plus RFC 3339 rendering and the instant that chrono compares.
  - Module `Guide` holds the id-to-channel map, the programme search and the
    five-character XML escape.
  - Class `Guide.Epg` holds the XMLTV writer, which builds the document with
    two loops, and the channel filter, which reassigns both fields.
- **The cache** (`src/main.rs`). Module `App` models `AppState`'s playlist and
  guide slots as a class, with one method per read-or-refresh.
  - A freshness check serves a copy of the cached value.
  - Otherwise the method uses the download outcome it is given: it parses it,
    runs the exclusion pipeline with the source's constant lists, and
    overwrites the slot.
  - Each poller turn is a method that refreshes only a slot that already holds
    a stale value.
  - Clock readings and download outcomes are parameters.
- **The handlers** (`src/routes.rs`). Module `Routes` has the password-gated
  playlist download and the search reply. The reply joins found programmes
  with the channel map, then adds the lower-case channel-name matches from the
  playlist.

Modules `Wrappers`, `Strings` and `Seqs` hold the option/result types, text
helpers, and the generic order-preserving filter and stable sort.

### Behaviour of the code that the model keeps
- **Fixed attribute order.** `PlaylistEntry::parse` reads the attributes in
  one fixed order. Each value ends at the first key marker that
  `take_until_key` finds, trying the markers in list order.
- **No stale fallback on error.** `fetch_playlist` and `fetch_epg` return the
  error and leave the slot unchanged.
- **Non-200 responses.** A non-200 status is only logged; the body is parsed
  and stored. `App.StatusIgnored` states this.
- **Unparsable playlists.** `from_str` panics on a pair of lines that does
  not parse; the model returns a `Panic` outcome and leaves the slot
  untouched. In the playlist poller the panic ends the spawned task.
- **The staleness boundary.** `is_stale` is `elapsed > 6h`, so a value exactly
  six hours old is still fresh.

### Round-trip condition
Parsing a written record gives it back only if a field cannot be mistaken for
a marker *through the quotes that surround it*. "No field contains a key
marker" is not enough: a tvg-name of ` tvg-id=` joins with its closing quote
to form `" tvg-id="`. `ParseRoundTrip.RoundTripSafe` therefore requires the
following (`Playlists.PlaylistSafe` adds what a whole playlist needs):
- the attribute values have no quote and do not end in `=`;
- no field contains `#EXTINF:`;
- name and url have no quote and no newline;
- the url has no NUL.

## Model

| member | source | states |
|---|---|---|
| Parse.TakeUntil | src/parse.rs:142-148 | `take_until`: fails exactly when the marker never occurs; on success the value is the text before the marker's first occurrence and the marker stays at the head of the rest |
| Parse.TakeUntilAny | src/parse.rs:176-185 | `take_until_key` fails exactly when none of the markers occurs in the input |
| Parse.TakeUntilAnyPicks | src/parse.rs:176-185 | the first marker in `EntryKey` order that occurs at all decides, and the value is the text before that marker's first occurrence |
| Parse.KeyStrings | src/parse.rs:163-174 | the marker list is the six `EntryKey` strings in declaration order |
| Parse.DurationIsFirstWord | src/parse.rs:120-124 | the duration step succeeds exactly when the input starts with `#EXTINF:`, a space follows, and the text between them reads as an `i32`; that value is returned and the rest starts at the space |
| Parse.KeyedTakesFirstMarker | src/parse.rs:126-140 | a keyed step (`xui-id`, `tvg-id`, `tvg-name`, `tvg-logo`) consumes its own marker, then returns the text up to the first occurrence of the first key marker that occurs |
| Parse.KeyedFails | src/parse.rs:126-140 | a keyed step fails exactly when its own marker is not at the head of the input or no key marker occurs after it |
| Parse.NameAndUrlFields | src/parse.rs:146-152 | after `",` the name runs to the first newline and the url runs to the next newline, NUL or end of input; neither contains a newline, the url contains no NUL, and the rest starts with a newline, a NUL or is empty |
| Parse.LineEnd | src/parse.rs:150 | the url's end is the first newline or NUL, or the end of the text |
| Parse.ParseDuration | src/parse.rs:120-124 | on success what is left is a suffix of the input |
| Parse.ParseKeyed | src/parse.rs:126-140 | on success what is left is a suffix of the input |
| Parse.ParseGroupTitle | src/parse.rs:142-144 | on success what is left is a suffix of the input |
| Parse.ParseEntry | src/parse.rs:86-107 | a record only parses when its text has the newline between name and url; what it parses to is stated by `ParseRoundTrip.ParseDisplay` and the step lemmas above |
| Parse.ParseNameAndUrl | src/parse.rs:146-152 | on success the input held the newline that `char('\n')` consumes |
| Parse.HeaderLine | src/parse.rs:110-118 | the header line starts with `#EXTINF:` and the duration written after it reads back as the entry's duration |
| Parse.Display | src/parse.rs:110-118 | the display form starts with `#EXTINF:` and ends with a newline followed by the url |
| ParseRoundTrip.HeaderLineFormat | src/parse.rs:110-118 | the header line is the `Display` format string with the duration, the `{XUI_ID}` placeholder, the four quoted attributes and the name filled in |
| ParseRoundTrip.ParseDisplay | src/parse.rs:85-118 | parsing the `Display` form of a round-trip-safe entry returns that entry with nothing left over |
| ParseRoundTrip.SampleRecordParses | src/parse.rs:191-211 | the test record, padded with a newline before and spaces after and trimmed, parses to the listed entry (duration -1, `ABC.se`, `ABC FHD SE`, ...) with an empty remainder |
| Strings.ParseDisplayedI32 | src/parse.rs:120-124 | every `i32` written in decimal reads back as itself |
| Strings.Lower | src/epg.rs:62 | lower-casing keeps the length and maps each character on its own |
| Strings.Lines | src/parse.rs:67 | `str::lines` yields lines without a newline |
| Strings.LinesCons | src/parse.rs:67 | a line ended by `\n` (and not by `\r`) is the next item of `lines` |
| Strings.TrimPadded | src/parse.rs:73 | `trim` removes exactly the surrounding whitespace of a text that starts and ends with a non-whitespace character |
| Strings.TrimNoCharAdded | src/parse.rs:73 | `trim` adds no character |
| Strings.Trim | src/parse.rs:73 | `trim` never lengthens the text, and what it returns neither starts nor ends with whitespace |
| Strings.ParseI32 | src/parse.rs:120-124 | `parse::<i32>` accepts only a text that ends in a digit and holds no space |
| Strings.JoinWith | src/parse.rs:36-39 | `join` starts with the first item and adds no character that is neither in an item nor in the separator |
| Strings.IndexOf | src/parse.rs:143-147 | `find` returns the first position where the pattern starts, and nothing exactly when the pattern occurs nowhere |
| Playlists.DisplayAll | src/parse.rs:36-38 | the entries' `Display` forms, one per entry, in order |
| Playlists.ToM3u | src/parse.rs:33-41 | `to_m3u` starts with the `#EXTM3U` line; an empty playlist is that line alone, and a single entry follows it with its display form |
| Playlists.LinesOfM3u | src/parse.rs:33-41 | the lines of `to_m3u` are `#EXTM3U` followed by the lines of the entries' `Display` forms joined by `\n` |
| Playlists.BodyOfM3u | src/parse.rs:33-41 | after the first line, `to_m3u` gives each entry's header line and url, in order |
| Playlists.Chunks | src/parse.rs:69 | `chunks(2)`: chunk k is lines 2k and 2k+1, and an odd last line forms a chunk of its own |
| Playlists.FirstFailure | src/parse.rs:71-78 | the index of the first chunk that fails to parse, or the chunk count when all parse |
| Playlists.ParseChunks | src/parse.rs:66-81 | `from_str` succeeds exactly when every chunk parses; entry k then comes from chunk k; otherwise it panics on the first bad chunk, with that chunk's joined text |
| Playlists.FromStr | src/parse.rs:62-83 | `from_str` succeeds exactly when every chunk of the lines after the first reads, and then gives one entry per chunk |
| Playlists.ParsedIffAllRead | src/parse.rs:71-81 | collecting the chunks succeeds exactly when every chunk reads |
| Playlists.OddBodyPanics | src/parse.rs:66-76 | a body with an odd number of lines makes `from_str` panic |
| Playlists.FromM3u | src/parse.rs:62-83 | `from_str` applied to `to_m3u` of playlist-safe entries gives the entries back |
| Playlists.ChunksRead | src/parse.rs:71-77 | each chunk of a written playlist, joined and trimmed, parses to its entry with nothing left over |
| Playlists.LastPathSegment | src/parse.rs:58 | the text after the url's last `/` (or the whole url when it has none) contains no `/` and ends the url |
| Playlists.LastPathSegmentAfterSlash | src/parse.rs:58 | whatever follows the last `/` is the segment |
| Playlists.LastPathSegmentWhole | src/parse.rs:58 | a url without `/` is its own last segment |
| Playlists.Playlist.ExcludeGroups | src/parse.rs:43-46 | keeps, in order, exactly the entries whose group title is not listed |
| Playlists.Playlist.ExcludeContaining | src/parse.rs:48-54 | keeps, in order, exactly the entries whose group title contains no listed snippet |
| Playlists.Playlist.ExcludeAllExtensions | src/parse.rs:56-59 | keeps, in order, exactly the entries whose last url segment has no `.` |
| Seqs.Retain | src/parse.rs:43-59 | `retain` keeps exactly the elements that satisfy the test and never lengthens the list |
| Seqs.RetainMultiset | src/parse.rs:43-59 | a kept element keeps its multiplicity and a dropped one disappears, so surviving entries are unchanged |
| Seqs.RetainAppend | src/parse.rs:43-59 | filtering works piece by piece, so the original order is kept |
| Seqs.RetainIdempotent | src/parse.rs:43-54 | filtering twice with the same test removes nothing more |
| Seqs.RetainAll | src/epg.rs:111-124 | filtering with a test every element passes keeps the list unchanged |
| Seqs.RetainNone | src/epg.rs:111-124 | filtering with a test no element passes empties the list |
| Seqs.InsertBy | src/epg.rs:72 | inserting adds exactly one occurrence of the element |
| Seqs.InsertBySorted | src/epg.rs:72 | inserting into a sorted list keeps it sorted |
| Seqs.SortBy | src/epg.rs:72 | `sorted_by_key` returns a permutation of its input, sorted by the key |
| Seqs.SortByMembers | src/epg.rs:72 | sorting keeps exactly the same elements |
| Seqs.SortByStable | src/epg.rs:72 | the sort is stable: the elements with any one key appear in their input order |
| EpgTime.ParseFormatted | src/epg.rs:135-141 | reading back a time written with `%Y%m%d%H%M%S %z` gives the same civil time and offset; the offset is kept, not normalised |
| EpgTime.FormatParsed | src/epg.rs:97-98 | writing a read time reproduces the text, except that a `-0000` offset is written `+0000` |
| EpgTime.FormatFields | src/epg.rs:97-98 | the written form has the zero-padded year, month, day, hour, minute and second, a space, the offset's sign, then its hours and minutes |
| EpgTime.FormatTimestamp | src/epg.rs:97-98 | the written form is twenty characters long |
| EpgTime.Rfc3339 | src/epg.rs:168-169 | `to_rfc3339` of a time without fractional seconds is twenty-five characters long |
| EpgTime.Instant | src/epg.rs:68-72 | the instant chrono compares: midnight of 1970-01-01 at offset o is o minutes before the Unix epoch |
| EpgTime.InstantClockOrder | src/epg.rs:68-72 | on one date and offset, a later clock time is a later instant |
| EpgTime.InstantOffsetShift | src/epg.rs:68-72 | one hour later on the clock in an offset one hour further east is the same instant |
| EpgTime.ParseTimestamp | src/epg.rs:140 | only twenty-character texts denoting a real date, a time of day and an offset under 24 hours are accepted |
| EpgTime.TestStartParses | src/epg.rs:159-170 | `20241017130900 +0100` reads as 2024-10-17 13:09:00 at offset +60 minutes |
| EpgTime.TestStopParses | src/epg.rs:159-170 | `20241017140000 +0100` reads as 2024-10-17 14:00:00 at offset +60 minutes |
| EpgTime.TestStartRfc3339 | src/epg.rs:168 | the start renders as `2024-10-17T13:09:00+01:00` |
| EpgTime.TestStopRfc3339 | src/epg.rs:169 | the stop renders as `2024-10-17T14:00:00+01:00` |
| EpgTime.TestStartWritten | src/epg.rs:97 | the start is written back as `20241017130900 +0100` |
| EpgTime.TestStopWritten | src/epg.rs:98 | the stop is written back as `20241017140000 +0100` |
| EpgTime.TestInstants | src/epg.rs:68 | the start is the instant 12:09 UTC (Unix time 1729166940), 51 minutes before the stop |
| Guide.DecodeEncoded | src/epg.rs:135-141 | a programme whose times are written with the pattern decodes to itself |
| Guide.DecodeProgrammes | src/epg.rs:30-39 | the programmes decode exactly when every time attribute reads with the pattern, one programme per element, in order |
| Guide.DecodeGuide | src/epg.rs:7-13 | the guide keeps its channels and decodes exactly when all its programmes do |
| Guide.ChannelMap | src/epg.rs:53-59 | the keys are exactly the channel ids, and each maps to the last channel with that id |
| Guide.ChannelMapStep | src/epg.rs:53-59 | inserting one more channel into the map of the earlier ones keeps both properties (a later duplicate replaces an earlier one) |
| Guide.Search | src/epg.rs:61-75 | the result is sorted by start instant and holds exactly the programmes that have not ended (`stop >= now`) and whose lower-cased title or description contains the lower-cased term |
| Guide.SearchCounts | src/epg.rs:65-74 | a matching programme appears as often as in the guide and a non-matching one not at all |
| Guide.SearchStable | src/epg.rs:72 | programmes with equal start keep their guide order |
| Guide.SearchKeepsEndingNow | src/epg.rs:68 | a programme that ends exactly now is still found |
| Guide.SearchAfterAllEnded | src/epg.rs:68 | nothing is found once every programme has ended |
| Guide.EscapeXml | src/epg.rs:127-133 | escaping never shortens the text and leaves a text without `&`, `<`, `>`, `"` and `'` unchanged |
| Guide.EscapeOneChar | src/epg.rs:127-133 | each character escapes to at most one entity: `&amp;`, `&lt;`, `&gt;`, `&quot;` or `&apos;` |
| Guide.EscapeAppend | src/epg.rs:127-133 | escaping works piece by piece |
| Guide.EscapeIsPerChar | src/epg.rs:127-133 | the five chained replacements equal escaping each character once, so nothing is escaped twice |
| Guide.EscapedIsClean | src/epg.rs:127-133 | the escaped text has no `<`, `>`, `"` or `'`, and every `&` in it begins one of the five entities |
| Guide.UnescapeEscaped | src/epg.rs:127-133 | unescaping the escaped text gives the input back |
| Guide.Epg.ToXml | src/epg.rs:77-109 | `to_xml` always succeeds with the header, one block per channel, one block per programme, and the footer |
| Guide.Xml | src/epg.rs:77-109 | the document starts with the XMLTV header and ends with the closing `</tv>`; with no channels and no programmes it is those two alone |
| Guide.BlocksAppend | src/epg.rs:83-107 | the document for a list of channels or programmes is the one for a prefix continued by the one for the rest |
| Guide.ChannelTags | src/epg.rs:84-92 | a channel block opens five tags when the channel has an icon and four otherwise |
| Guide.IconTags | src/epg.rs:89-91 | the icon line appears only for a channel with an icon |
| Guide.ProgrammeTimesReadBack | src/epg.rs:95-100 | the start and stop attributes of a programme block hold its times in the pattern, and they read back as those times |
| Guide.Epg.FilterChannels | src/epg.rs:111-124 | keeps, in order, exactly the channels whose id is listed and the programmes whose channel is listed |
| App.IsStale | src/main.rs:39-49 | a stale value was fetched strictly earlier than now (the exact boundary is `App.StaleBoundary`) |
| App.StaleBoundary | src/main.rs:39-49 | a value exactly six hours old is fresh, one nanosecond older is stale, and a value is never stale before it was fetched |
| App.Excluded | src/main.rs:108-110 | the pipeline never lengthens the playlist, and every entry it keeps was in it and is allowed by all three filters |
| App.ExcludedKeepsAllowed | src/main.rs:107-110 | after the pipeline no entry has a listed group title, a title containing `PL` or `FI`, or a `.` in its url's last segment, and every such allowed entry survives |
| App.ExcludedInOrder | src/main.rs:107-110 | the three filters in their order act as one order-preserving filter |
| App.ExcludedIdempotent | src/main.rs:107-110 | pruning a pruned playlist changes nothing |
| App.StatusIgnored | src/main.rs:103-107 | a non-200 status does not change what is parsed and stored |
| App.RefreshPlaylist | src/main.rs:100-110 | the fetch fails exactly when the download fails, panics exactly when the download succeeds and `from_str` panics, and otherwise serves only allowed entries |
| App.RefreshEpg | src/epg.rs:47-51 | `Epg::from_url` never panics; a failed download is its error; it serves exactly when the download succeeds and every programme time decodes, and then keeps the channels and one programme per raw programme |
| App.RefreshOfWrittenPlaylist | src/main.rs:106-110 | a downloaded `to_m3u` text is parsed back and pruned, keeping order |
| App.RefreshOfWrittenGuide | src/main.rs:136 | a downloaded guide whose times are in the pattern is served whole |
| App.AppState.constructor | src/main.rs:80-83 | both slots start empty |
| App.AppState.FetchPlaylist | src/main.rs:86-124 | a fresh slot serves a copy of the cached entries and is not written. An empty or stale slot, given a successful download, stores the parsed and pruned entries with `fetched = now` and serves an equal copy. A failed download returns the error, and a parse panic returns the panic; both leave the slot unchanged. The guide slot is never touched |
| App.AppState.FetchEpg | src/main.rs:126-145 | the same rule for the guide slot; a failed download or undecodable time returns an error and leaves the slot unchanged; it never panics |
| App.AppState.PollPlaylist | src/main.rs:159-177 | an empty or fresh slot is left alone; a stale one is refreshed through `fetch_playlist`; the poller goes on except when that refresh panics, which ends the task; the guide slot is never touched |
| App.AppState.PollEpg | src/main.rs:179-197 | an empty or fresh guide slot is left alone; a stale one is refreshed through `fetch_epg` |
| Routes.DownloadPlaylist | src/routes.rs:16-39 | a wrong password is answered 401 `Unauthorized` without touching the cache; otherwise the served playlist's `to_m3u` is the body (type `audio/x-mpegurl`), and a failed fetch is a 500. The guide slot is never touched; the playlist slot changes only when it was not fresh and the refresh served, and then holds the served entries fetched now |
| Routes.PlaylistReply | src/routes.rs:25-38 | only a served playlist is answered, with 200, type `audio/x-mpegurl` and a body that starts with `#EXTM3U`; a failed fetch is a 500 `Failed to fetch playlist`; a panic stays a panic |
| Routes.PlaylistReplyReadsBack | src/routes.rs:31-38 | the downloaded body parses back as the very entries that were served |
| Routes.ProgrammeResults | src/routes.rs:78-87 | the join succeeds exactly when every found programme's channel is in the map (`unwrap` panics otherwise), with one result per programme |
| Routes.ProgrammeResultsCopy | src/routes.rs:80-86 | result k copies programme k's title, description, start and stop, with the display name of its channel |
| Routes.LastIndexOf | src/routes.rs:85 | the position of the last channel with a given id |
| Routes.ResultNamesLastChannel | src/routes.rs:75-85 | each result's channel name is the display name of the last guide channel with the programme's channel id |
| Routes.ChannelResultsExact | src/routes.rs:96-103 | a channel name is offered exactly when some playlist entry has that name and its lower-cased name contains the lower-cased query |
| Routes.ChannelResults | src/routes.rs:96-103 | never more channel results than playlist entries; an empty query lists every entry's name, in order |
| Routes.SearchReply | src/routes.rs:75-109 | the reply is an answer exactly when every found programme's channel is known and the playlist is served, and a panic exactly when a channel is unknown or the playlist fetch panics; an answer is 200 JSON with one result per found programme and the playlist's matching channels |
| Routes.SearchReplySorted | src/routes.rs:76-87 | the programme results come in non-decreasing start instant |
| Routes.SearchRoute | src/routes.rs:67-109 | a failed guide fetch is a 500 `Failed to fetch EPG` and leaves the playlist cache alone. A programme on an unknown channel panics before the playlist is fetched. Otherwise the reply joins the found programmes and adds the playlist's matching channels, and a failed playlist fetch is a 500. The guide slot and, once the playlist is fetched, the playlist slot change only when they were not fresh and the refresh served, and then hold the served value fetched now |

## Left out

- `src/parse_alt.rs`: an unfinished rewrite that is not part of the build. Its parser is `todo!()` and its `Display`/`to_m3u` duplicate `src/parse.rs`.
- `filtered_groups()` (src/main.rs:113) is only used in a log line and is not defined in any file shown; it is not modelled.
- XML deserialisation by serde_xml_rs and `Epg::from_reader`. A guide is modelled as already-read channels and programmes with their two time attributes still as text (`Guide.RawProgramme`), and only the timestamp pattern is modelled.
- Network I/O, left out because it is foreign code:
  - reqwest in `fetch_playlist`, `Epg::from_url` and `proxy_stream`;
  - the client builder and user agent.
  A download is an input value, `Success(Response(status, body))` or `Failure(error)`.
- Concurrency, left out because the model is sequential:
  - `Arc<RwLock<…>>`, `tokio::spawn` and the five-second sleep loops;
  - the gap between the staleness check (src/main.rs:87-94) and the slot write (src/main.rs:117-121), where two refreshes can race and either write wins.
  Each method runs alone.
- Clocks. `Instant::now` is the `now` parameter. `Utc::now` is the `nowNanos` parameter, in nanoseconds since the Unix epoch.
- `Strings.Lower`: lower-cases ASCII letters only, not Unicode `to_lowercase`. The full Unicode tables are beyond the model.
- `EpgTime.ParseTimestamp`: strict form only. Exactly fourteen digits, a space, a sign and four digits. It omits chrono's leniencies and the leap second `60`.
- `EpgTime.Valid`: years are limited to 0-9999, which four digits can write. Fractional seconds do not occur with this pattern.
- `EpgTime.FormatTimestamp`: its own contract fixes only the length. The field positions are stated by `EpgTime.FormatFields`, and the round trips by `EpgTime.ParseFormatted` and `EpgTime.FormatParsed`.
- `EpgTime.Rfc3339`: its own contract fixes only the length. The rendered text is stated for the two test times by `EpgTime.TestStartRfc3339` and `EpgTime.TestStopRfc3339`.
- `App.AppState.constructor` models the release build only. The debug build, which loads example files with a fetch time a year ahead, is left out.
- Environment variables are out. `PASSWORD` is a parameter; `M3U_PATH` and `EPG_PATH` are replaced by the download parameters.
- The server, routing, CORS, static files and tracing are out.
- Panic and error message text is out. A `from_str` panic keeps the text of the failing chunk. The nom error value and the exact 500 body texts other than the ones shown are not modelled.
- `ParseRoundTrip.ParseDisplay`: its condition is stricter than "no field contains a key marker", because that condition is not sufficient (see "Round-trip condition" above).
- `ParseRoundTrip.SampleRecordParses`: the test record is stated as the `Display` form of the expected entry, padded as in the test. The record's header line is the same text written out by `ParseRoundTrip.HeaderLineFormat`.
- `Playlists.FromM3u`: the round trip additionally needs url and name to end in a character that `lines` and `trim` keep, so no trailing `\r` or whitespace. It also needs one line per field, so no newline in any attribute (`Playlists.PlaylistSafe`).
- `Routes.SearchRoute`: the JSON encoding of the reply is not modelled; the reply is the `SearchResult` value.
- `Routes.DownloadPlaylist`: the response headers other than the content type are not modelled.
