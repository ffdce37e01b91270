/**
 * The whole M3U playlist: reading it line pair by line pair, writing it
 * back, and the three exclusion filters that prune it in place.
 */
module Playlists {
  import opened Strings
  import opened Seqs
  import opened Parse
  import ParseRoundTrip

  // ---------------------------------------------------------------------------
  // Writing: `Playlist::to_m3u`
  // ---------------------------------------------------------------------------

  function DisplayAll(es: seq<PlaylistEntry>): (r: seq<string>)
    ensures |r| == |es| && forall k :: 0 <= k < |es| ==> r[k] == Display(es[k])
  {
    seq(|es|, k requires 0 <= k < |es| => Display(es[k]))
  }

  /** The `#EXTM3U` header line, then every entry's display form, one after the other. */
  function ToM3u(es: seq<PlaylistEntry>): (r: string)
    ensures "#EXTM3U\n" <= r
    ensures es == [] ==> r == "#EXTM3U\n"
    ensures |es| == 1 ==> r == "#EXTM3U\n" + Display(es[0])
  {
    "#EXTM3U\n" + JoinWith(DisplayAll(es), "\n")
  }

  // ---------------------------------------------------------------------------
  // Reading: `impl FromStr for Playlist`
  // ---------------------------------------------------------------------------

  /** itertools' `chunks(2)`: consecutive pairs, the last one possibly single. */
  function Chunks(lines: seq<string>): (r: seq<seq<string>>)
    ensures |r| == (|lines| + 1) / 2
    ensures forall k :: 0 <= k < |r| && 2 * k + 2 <= |lines| ==> r[k] == lines[2 * k..2 * k + 2]
    ensures forall k :: 0 <= k < |r| && |lines| < 2 * k + 2 ==> r[k] == lines[2 * k..]
  {
    if |lines| <= 2 then (if lines == [] then [] else [lines])
    else
      var rest := Chunks(lines[2..]);
      ChunksFull(lines, rest);
      ChunksTail(lines, rest);
      [lines[..2]] + rest
  }

  /** The full pairs of the chunks of `lines[2..]`, shifted by one pair. */
  lemma ChunksFull(lines: seq<string>, rest: seq<seq<string>>)
    requires |lines| > 2
    requires forall k :: 0 <= k < |rest| && 2 * k + 2 <= |lines| - 2 ==> rest[k] == lines[2..][2 * k..2 * k + 2]
    ensures forall k :: 0 <= k < |rest| + 1 && 2 * k + 2 <= |lines| ==> ([lines[..2]] + rest)[k] == lines[2 * k..2 * k + 2]
  {
    forall k | 0 <= k < |rest| + 1 && 2 * k + 2 <= |lines|
      ensures ([lines[..2]] + rest)[k] == lines[2 * k..2 * k + 2]
    {
      if k > 0 {
        assert ([lines[..2]] + rest)[k] == rest[k - 1];
        assert lines[2..][2 * (k - 1)..2 * (k - 1) + 2] == lines[2 * k..2 * k + 2];
      }
    }
  }

  /** The single last chunk of `lines[2..]`, shifted by one pair. */
  lemma ChunksTail(lines: seq<string>, rest: seq<seq<string>>)
    requires |lines| > 2 && |rest| == (|lines| - 1) / 2
    requires forall k :: 0 <= k < |rest| && |lines| - 2 < 2 * k + 2 ==> rest[k] == lines[2..][2 * k..]
    ensures forall k :: 0 <= k < |rest| + 1 && |lines| < 2 * k + 2 ==> ([lines[..2]] + rest)[k] == lines[2 * k..]
  {
    forall k | 0 <= k < |rest| + 1 && |lines| < 2 * k + 2
      ensures ([lines[..2]] + rest)[k] == lines[2 * k..]
    {
      assert ([lines[..2]] + rest)[k] == rest[k - 1];
      assert lines[2..][2 * (k - 1)..] == lines[2 * k..];
    }
  }

  /** The text one chunk stands for: its lines joined by `\n`. */
  function ChunkText(chunk: seq<string>): string
  {
    JoinWith(chunk, "\n")
  }

  /**
   * Reading a playlist either gives the entries or panics on the first
   * chunk that does not parse, with that chunk's text in the message.
   */
  datatype FromStrResult = Parsed(entries: seq<PlaylistEntry>) | Panicked(chunk: string)

  /** One chunk read as an entry: joined, trimmed, parsed; whatever follows the entry is ignored. */
  function ReadChunk(chunk: seq<string>): IResult<PlaylistEntry>
  {
    ParseEntry(Trim(ChunkText(chunk)))
  }

  /**
   * The index of the first chunk that `read` rejects, or `|cs|` when it
   * accepts them all.
   */
  function FirstFailure(cs: seq<seq<string>>, read: seq<string> -> IResult<PlaylistEntry>): (r: nat)
    ensures r <= |cs|
    ensures forall j :: 0 <= j < r ==> read(cs[j]).Ok?
    ensures r < |cs| ==> read(cs[r]).Err?
  {
    if cs == [] then 0 else if read(cs[0]).Err? then 0 else 1 + FirstFailure(cs[1..], read)
  }

  /**
   * The `map` over the chunks followed by `collect`: the chunks read in
   * order; the first that fails panics with its text.
   */
  function ParseChunks(cs: seq<seq<string>>, read: seq<string> -> IResult<PlaylistEntry>): (r: FromStrResult)
    ensures r.Parsed? <==> FirstFailure(cs, read) == |cs|
    ensures r.Parsed? ==> |r.entries| == |cs| && forall k :: 0 <= k < |cs| ==> r.entries[k] == read(cs[k]).value
    ensures r.Panicked? ==> FirstFailure(cs, read) < |cs| && r.chunk == ChunkText(cs[FirstFailure(cs, read)])
  {
    if cs == [] then Parsed([])
    else
      match read(cs[0])
      case Err => Panicked(ChunkText(cs[0]))
      case Ok(_, e) =>
        match ParseChunks(cs[1..], read)
        case Panicked(c) => Panicked(c)
        case Parsed(es) => Parsed([e] + es)
  }

  /** The lines after the `#EXTM3U` header (`skip(1)`). */
  function BodyLines(s: string): seq<string>
  {
    var lines := Lines(s);
    if lines == [] then [] else lines[1..]
  }

  /** `Playlist::from_str`. */
  function FromStr(s: string): (r: FromStrResult)
    ensures r.Parsed? <==> EveryChunkReads(Chunks(BodyLines(s)), ReadChunk)
    ensures r.Parsed? ==> |r.entries| == (|BodyLines(s)| + 1) / 2
  {
    var cs := Chunks(BodyLines(s));
    ParsedIffAllRead(cs, ReadChunk);
    ParseChunks(cs, ReadChunk)
  }

  predicate EveryChunkReads(cs: seq<seq<string>>, read: seq<string> -> IResult<PlaylistEntry>)
  {
    forall k :: 0 <= k < |cs| ==> read(cs[k]).Ok?
  }

  /** The chunks parse exactly when every one of them reads. */
  lemma ParsedIffAllRead(cs: seq<seq<string>>, read: seq<string> -> IResult<PlaylistEntry>)
    ensures ParseChunks(cs, read).Parsed? <==> EveryChunkReads(cs, read)
  {
    if !ParseChunks(cs, read).Parsed? {
      assert read(cs[FirstFailure(cs, read)]).Err?;
    }
  }

  /** One line never holds a whole entry: its name and url need two. */
  lemma SingleLineFails(line: string)
    requires '\n' !in line
    ensures ReadChunk([line]).Err?
  {
    TrimNoCharAdded(line, '\n');
  }

  /** An odd number of lines after the header leaves a lone last line, and reading panics. */
  lemma OddBodyPanics(s: string)
    requires |BodyLines(s)| % 2 == 1
    ensures FromStr(s).Panicked?
  {
    var lines := BodyLines(s);
    var cs := Chunks(lines);
    LastChunkSingle(lines);
    assert lines[|lines| - 1] == Lines(s)[|Lines(s)| - 1];
    SingleLineFails(lines[|lines| - 1]);
    assert ReadChunk(cs[|cs| - 1]).Err?;
  }

  /** Under an odd count the last chunk is the last line alone, which holds no `\n`. */
  lemma LastChunkSingle(lines: seq<string>)
    requires |lines| % 2 == 1
    ensures Chunks(lines)[|Chunks(lines)| - 1] == [lines[|lines| - 1]]
  {
    var n := |lines|;
    var last := (n + 1) / 2 - 1;
    HalfOfOdd(n);
    assert |Chunks(lines)| - 1 == last && 2 * last == n - 1;
    assert Chunks(lines)[last] == lines[n - 1..];
    assert lines[n - 1..] == [lines[n - 1]];
  }

  lemma HalfOfOdd(n: nat)
    requires n % 2 == 1
    ensures 2 * ((n + 1) / 2 - 1) == n - 1
  {
  }

  // ---------------------------------------------------------------------------
  // The playlist round trip
  // ---------------------------------------------------------------------------

  /**
   * An entry that survives writing and reading the whole playlist: it
   * survives the single-record round trip, no attribute value holds a line
   * break, the name does not end in `\r`, and the url is non-empty and ends in
   * a character `trim` keeps.
   */
  predicate PlaylistSafe(e: PlaylistEntry)
  {
    ParseRoundTrip.RoundTripSafe(e)
    && '\n' !in e.tvgId && '\n' !in e.tvgName && '\n' !in e.tvgLogo && '\n' !in e.groupTitle
    && (e.name == [] || e.name[|e.name| - 1] != '\r')
    && e.url != [] && !IsWhitespace(e.url[|e.url| - 1])
  }

  /** The lines `ToM3u` writes after the header: each entry's header line and url. */
  function EntryLines(es: seq<PlaylistEntry>): (r: seq<string>)
    ensures |r| == 2 * |es|
    ensures forall k :: 0 <= k < |es| ==> r[2 * k] == HeaderLine(es[k]) && r[2 * k + 1] == es[k].url
  {
    PairLines(es, HeaderLine)
  }

  /** Two lines per entry: `head` of it, then its url. */
  function PairLines(es: seq<PlaylistEntry>, head: PlaylistEntry -> string): (r: seq<string>)
    ensures |r| == 2 * |es|
    ensures forall k :: 0 <= k < |es| ==> r[2 * k] == head(es[k]) && r[2 * k + 1] == es[k].url
  {
    if es == [] then []
    else
      var rest := PairLines(es[1..], head);
      assert forall k :: 1 <= k < |es| ==> rest[2 * (k - 1)] == head(es[k]) && rest[2 * (k - 1) + 1] == es[k].url;
      [head(es[0]), es[0].url] + rest
  }

  lemma HeaderLineShape(e: PlaylistEntry)
    requires PlaylistSafe(e)
    ensures '\n' !in HeaderLine(e)
    ensures HeaderLine(e)[0] == '#' && HeaderLine(e)[|HeaderLine(e)| - 1] != '\r'
  {
    var hs := HeaderSegments(e);
    HeaderSegmentsOneLine(e);
    InterleaveFree(hs, '"', '\n');
    DigitsHaveNoNewline(e.duration);
    InterleaveEndsWith(hs, '"');
    LineShape("#EXTINF:", IntToString(e.duration), Interleave(hs, '"'), hs[10]);
  }

  /** No header segment holds a line break, and the last one does not end in `\r`. */
  lemma HeaderSegmentsOneLine(e: PlaylistEntry)
    requires PlaylistSafe(e)
    ensures FreeOf(HeaderSegments(e), '\n')
    ensures HeaderSegments(e)[10] != [] && HeaderSegments(e)[10][|HeaderSegments(e)[10]| - 1] != '\r'
  {
    var hs := HeaderSegments(e);
    assert hs[10] == "," + e.name;
    forall j | 0 <= j < |hs|
      ensures '\n' !in hs[j]
    {
    }
  }

  lemma LineShape(p: string, d: string, b: string, t: string)
    requires p != [] && '\n' !in p && '\n' !in d && '\n' !in b
    requires t != [] && t[|t| - 1] != '\r' && EndsWith(b, t)
    ensures '\n' !in p + d + b && (p + d + b)[0] == p[0] && (p + d + b)[|p + d + b| - 1] != '\r'
  {
    assert (p + d + b)[|p + d + b| - 1] == b[|b| - 1] == t[|t| - 1];
  }

  lemma DigitsHaveNoNewline(x: int)
    ensures '\n' !in IntToString(x)
  {
    var s := IntToString(x);
    if x < 0 {
      assert forall i :: 1 <= i < |s| ==> s[i] == NatToString(-x)[i - 1];
    }
  }

  lemma {:induction false} InterleaveEndsWith(gs: seq<string>, q: char)
    requires |gs| > 0
    ensures EndsWith(Interleave(gs, q), gs[|gs| - 1])
  {
    if |gs| > 1 {
      InterleaveEndsWith(gs[1..], q);
    }
  }

  /** The lines of one entry's display form followed by more text. */
  lemma LinesOfDisplay(e: PlaylistEntry, rest: string)
    requires PlaylistSafe(e)
    ensures Lines(Display(e) + "\n" + rest) == [HeaderLine(e), e.url] + Lines(rest)
  {
    HeaderLineShape(e);
    UrlShape(e);
    LinesOfPair(HeaderLine(e), e.url, rest);
  }

  /** The url of a safe entry is one line with no `\r` at its end. */
  lemma UrlShape(e: PlaylistEntry)
    requires PlaylistSafe(e)
    ensures '\n' !in e.url && e.url[|e.url| - 1] != '\r'
  {
    assert IsWhitespace('\r');
  }

  lemma {:induction false} LinesOfPair(h: string, u: string, rest: string)
    requires '\n' !in h && (h == [] || h[|h| - 1] != '\r')
    requires '\n' !in u && (u == [] || u[|u| - 1] != '\r')
    ensures Lines(h + "\n" + u + "\n" + rest) == [h, u] + Lines(rest)
  {
    var t := u + "\n" + rest;
    assert h + "\n" + u + "\n" + rest == h + "\n" + t;
    assert Lines(h + "\n" + t) == [h] + Lines(t) by { LinesCons(h, t); }
    assert Lines(t) == [u] + Lines(rest) by { LinesCons(u, rest); }
    ConsCons(h, u, Lines(rest));
  }

  lemma ConsCons<T>(a: T, b: T, r: seq<T>)
    ensures [a] + ([b] + r) == [a, b] + r
  {
    assert [a] + [b] == [a, b];
  }

  /** The lines of the last entry's display form. */
  lemma LinesOfLastDisplay(e: PlaylistEntry)
    requires PlaylistSafe(e)
    ensures Lines(Display(e)) == [HeaderLine(e), e.url]
  {
    var h := HeaderLine(e);
    HeaderLineShape(e);
    LinesCons(h, e.url);
    LinesSingle(e.url);
  }

  lemma JoinDisplays(es: seq<PlaylistEntry>)
    requires |es| > 1
    ensures JoinWith(DisplayAll(es), "\n") == Display(es[0]) + "\n" + JoinWith(DisplayAll(es[1..]), "\n")
  {
    assert DisplayAll(es)[1..] == DisplayAll(es[1..]);
  }

  lemma {:induction false} LinesOfEntries(es: seq<PlaylistEntry>)
    requires forall k :: 0 <= k < |es| ==> PlaylistSafe(es[k])
    ensures Lines(JoinWith(DisplayAll(es), "\n")) == EntryLines(es)
  {
    if |es| == 1 {
      LinesOfLastDisplay(es[0]);
      assert EntryLines(es) == [HeaderLine(es[0]), es[0].url];
    } else if |es| > 1 {
      JoinDisplays(es);
      LinesOfDisplay(es[0], JoinWith(DisplayAll(es[1..]), "\n"));
      LinesOfEntries(es[1..]);
      assert EntryLines(es) == [HeaderLine(es[0]), es[0].url] + EntryLines(es[1..]);
    }
  }

  lemma M3uHeaderSplit(j: string)
    ensures "#EXTM3U\n" + j == "#EXTM3U" + "\n" + j
  {
  }

  lemma LinesOfM3u(es: seq<PlaylistEntry>)
    ensures Lines(ToM3u(es)) == ["#EXTM3U"] + Lines(JoinWith(DisplayAll(es), "\n"))
  {
    var j := JoinWith(DisplayAll(es), "\n");
    M3uHeaderSplit(j);
    LinesCons("#EXTM3U", j);
  }

  lemma BodyOfM3u(es: seq<PlaylistEntry>)
    requires forall k :: 0 <= k < |es| ==> PlaylistSafe(es[k])
    ensures BodyLines(ToM3u(es)) == EntryLines(es)
  {
    LinesOfM3u(es);
    LinesOfEntries(es);
  }

  /** Each chunk of the written playlist is one entry's display form, untouched by `trim`. */
  lemma ChunkIsEntry(es: seq<PlaylistEntry>, k: nat)
    requires forall k :: 0 <= k < |es| ==> PlaylistSafe(es[k])
    requires k < |es|
    ensures Trim(ChunkText(Chunks(EntryLines(es))[k])) == Display(es[k])
  {
    ChunkOfEntryLines(es, k);
    PairText(HeaderLine(es[k]), es[k].url);
    DisplayTrimmed(es[k]);
  }

  lemma ChunkOfEntryLines(es: seq<PlaylistEntry>, k: nat)
    requires k < |es|
    ensures Chunks(EntryLines(es))[k] == [HeaderLine(es[k]), es[k].url]
  {
    PairChunk(EntryLines(es), k);
  }

  lemma PairChunk(lines: seq<string>, k: nat)
    requires 2 * k + 2 <= |lines|
    ensures Chunks(lines)[k] == [lines[2 * k], lines[2 * k + 1]]
  {
    assert lines[2 * k..2 * k + 2] == [lines[2 * k], lines[2 * k + 1]];
  }

  lemma DisplayTrimmed(e: PlaylistEntry)
    requires PlaylistSafe(e)
    ensures Trim(Display(e)) == Display(e)
  {
    ParseRoundTrip.DisplayEnds(e);
    TrimUnchanged(Display(e));
  }

  lemma PairText(a: string, b: string)
    ensures ChunkText([a, b]) == a + "\n" + b
  {
    assert [a, b][1..] == [b];
    assert JoinWith([b], "\n") == b;
  }

  /** Reading a written playlist gives back the same entries, in order. */
  lemma FromM3u(es: seq<PlaylistEntry>)
    requires forall k :: 0 <= k < |es| ==> PlaylistSafe(es[k])
    ensures FromStr(ToM3u(es)) == Parsed(es)
  {
    BodyOfM3u(es);
    ChunksRead(es);
    ParseChunksAllOk(Chunks(EntryLines(es)), ReadChunk, es);
  }

  /** Each chunk of the written playlist reads as its entry with nothing left over. */
  lemma ChunksRead(es: seq<PlaylistEntry>)
    requires forall k :: 0 <= k < |es| ==> PlaylistSafe(es[k])
    ensures |Chunks(EntryLines(es))| == |es|
    ensures forall k :: 0 <= k < |es| ==> ReadChunk(Chunks(EntryLines(es))[k]) == Parse.Ok("", es[k])
  {
    var cs := Chunks(EntryLines(es));
    forall k | 0 <= k < |es|
      ensures ReadChunk(cs[k]) == Parse.Ok("", es[k])
    {
      ChunkIsEntry(es, k);
      ParseRoundTrip.ParseDisplay(es[k]);
    }
  }

  lemma {:induction false} ParseChunksAllOk(cs: seq<seq<string>>, read: seq<string> -> IResult<PlaylistEntry>,
                                            es: seq<PlaylistEntry>)
    requires |cs| == |es| && forall k :: 0 <= k < |cs| ==> read(cs[k]) == Parse.Ok("", es[k])
    ensures ParseChunks(cs, read) == Parsed(es)
  {
    var r := ParseChunks(cs, read);
    assert FirstFailure(cs, read) == |cs|;
    assert r.entries == es;
  }

  // ---------------------------------------------------------------------------
  // Exclusion filters (`retain`)
  // ---------------------------------------------------------------------------

  /** `exclude_groups`: the group title is not one of `groups`. */
  predicate OutsideGroups(groups: seq<string>, e: PlaylistEntry)
  {
    e.groupTitle !in groups
  }

  /** `exclude_containing`: the group title contains none of `snippets`. */
  predicate FreeOfSnippets(snippets: seq<string>, e: PlaylistEntry)
  {
    forall k :: 0 <= k < |snippets| ==> !Contains(e.groupTitle, snippets[k])
  }

  /** The text after the last `/` (`split('/').last()`), or all of it when there is none. */
  function LastPathSegment(s: string): (r: string)
    ensures '/' !in r && EndsWith(s, r)
    ensures |r| < |s| ==> s[|s| - |r| - 1] == '/'
  {
    if s == [] then []
    else if s[|s| - 1] == '/' then []
    else
      var r := LastPathSegment(s[..|s| - 1]);
      r + [s[|s| - 1]]
  }

  /** After a last `/`, the segment is everything that follows it. */
  lemma {:induction false} LastPathSegmentAfterSlash(a: string, b: string)
    requires '/' !in b
    ensures LastPathSegment(a + "/" + b) == b
  {
    if b == [] {
      assert a + "/" + b == a + "/";
    } else {
      var b1, c := b[..|b| - 1], b[|b| - 1];
      DropLast(a + "/", b);
      LastPathSegmentAfterSlash(a, b1);
      assert b1 + [c] == b;
    }
  }

  lemma DropLast(x: string, b: string)
    requires b != []
    ensures (x + b)[..|x + b| - 1] == x + b[..|b| - 1] && (x + b)[|x + b| - 1] == b[|b| - 1]
  {
  }


  /** A url without `/` is its own last segment. */
  lemma {:induction false} LastPathSegmentWhole(s: string)
    requires '/' !in s
    ensures LastPathSegment(s) == s
  {
    if s != [] {
      var i, c := s[..|s| - 1], s[|s| - 1];
      assert c in s;
      NotInPrefix(s, '/');
      LastPathSegmentWhole(i);
      assert LastPathSegment(s) == LastPathSegment(i) + [c];
      assert i + [c] == s;
    }
  }

  lemma NotInPrefix(s: string, c: char)
    requires s != [] && c !in s
    ensures c !in s[..|s| - 1]
  {
    assert forall k :: 0 <= k < |s| - 1 ==> s[..|s| - 1][k] == s[k];
  }

  /** `exclude_all_extensions`: the url's last path segment has no `.`, so no file extension. */
  predicate WithoutExtension(e: PlaylistEntry)
  {
    '.' !in LastPathSegment(e.url)
  }

  /** A playlist held in memory; the exclusions rewrite its entry list. */
  class Playlist {
    var entries: seq<PlaylistEntry>

    constructor(entries: seq<PlaylistEntry>)
      ensures this.entries == entries
    {
      this.entries := entries;
    }

    method ExcludeGroups(groups: seq<string>)
      modifies this
      ensures entries == Retain(old(entries), e => OutsideGroups(groups, e))
    {
      entries := Retain(entries, e => OutsideGroups(groups, e));
    }

    method ExcludeContaining(snippets: seq<string>)
      modifies this
      ensures entries == Retain(old(entries), e => FreeOfSnippets(snippets, e))
    {
      entries := Retain(entries, e => FreeOfSnippets(snippets, e));
    }

    method ExcludeAllExtensions()
      modifies this
      ensures entries == Retain(old(entries), WithoutExtension)
    {
      entries := Retain(entries, WithoutExtension);
    }
  }
}
