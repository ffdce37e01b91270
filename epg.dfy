/**
 * The programme guide: channels and programmes as read from the XMLTV
 * document, the id -> channel map, the programme search, the XML escape,
 * the XMLTV writer and the channel filter.
 */
module Guide {
  import opened Wrappers
  import opened Strings
  import opened Seqs
  import opened EpgTime

  /** chrono's `DateTime<FixedOffset>`, which only holds real times. */
  type Zoned = t: DateTime | Valid(t) witness DateTime(1970, 1, 1, 0, 0, 0, 0)

  datatype Icon = Icon(src: string)

  datatype Channel = Channel(id: string, displayName: string, icon: Option<Icon>)

  datatype Programme = Programme(start: Zoned, stop: Zoned, channel: string, title: string, desc: string)

  // ---------------------------------------------------------------------------
  // Reading timestamps (`deserialize_datetime`)
  // ---------------------------------------------------------------------------

  /** A programme element before its two time attributes are interpreted. */
  datatype RawProgramme = RawProgramme(start: string, stop: string, channel: string, title: string, desc: string)

  function DecodeProgramme(raw: RawProgramme): Option<Programme>
  {
    match (ParseTimestamp(raw.start), ParseTimestamp(raw.stop))
    case (Some(start), Some(stop)) => Some(Programme(start, stop, raw.channel, raw.title, raw.desc))
    case _ => None
  }

  /** The attributes a programme is written with in the document. */
  function EncodeProgramme(p: Programme): RawProgramme
  {
    RawProgramme(FormatTimestamp(p.start), FormatTimestamp(p.stop), p.channel, p.title, p.desc)
  }

  /** A programme written with the pattern reads back as itself. */
  lemma DecodeEncoded(p: Programme)
    ensures DecodeProgramme(EncodeProgramme(p)) == Some(p)
  {
    ParseFormatted(p.start);
    ParseFormatted(p.stop);
  }

  /** One malformed time attribute anywhere fails the whole document. */
  function DecodeProgrammes(raws: seq<RawProgramme>): (r: Option<seq<Programme>>)
    ensures r.Some? <==> forall k :: 0 <= k < |raws| ==> DecodeProgramme(raws[k]).Some?
    ensures r.Some? ==> (|r.value| == |raws| &&
      forall k :: 0 <= k < |raws| ==> DecodeProgramme(raws[k]) == Some(r.value[k]))
  {
    AllDecoded(raws, DecodeProgramme)
  }

  /** Collecting `Option`s: every element decoded, or nothing. */
  function AllDecoded<A, B>(xs: seq<A>, decode: A -> Option<B>): (r: Option<seq<B>>)
    ensures r.Some? <==> forall k :: 0 <= k < |xs| ==> decode(xs[k]).Some?
    ensures r.Some? ==> (|r.value| == |xs| &&
      forall k :: 0 <= k < |xs| ==> decode(xs[k]) == Some(r.value[k]))
  {
    if xs == [] then Some([])
    else
      match (decode(xs[0]), AllDecoded(xs[1..], decode))
      case (Some(y), Some(ys)) => Some([y] + ys)
      case (None, _) => None
      case (_, None) =>
        assert forall k :: 1 <= k < |xs| ==> xs[1..][k - 1] == xs[k];
        None
  }

  /** The document as the XML reader hands it over, times still as text. */
  datatype RawGuide = RawGuide(channels: seq<Channel>, programmes: seq<RawProgramme>)

  /** The rest of `from_reader`: the guide, or failure when a time attribute does not parse. */
  function DecodeGuide(raw: RawGuide): (r: Option<(seq<Channel>, seq<Programme>)>)
    ensures r.Some? <==> DecodeProgrammes(raw.programmes).Some?
    ensures r.Some? ==> r.value.0 == raw.channels && Some(r.value.1) == DecodeProgrammes(raw.programmes)
  {
    match DecodeProgrammes(raw.programmes)
    case None => None
    case Some(ps) => Some((raw.channels, ps))
  }

  // ---------------------------------------------------------------------------
  // `channel_map`
  // ---------------------------------------------------------------------------

  /** Collecting `(id, channel)` pairs into a map: a later channel with the same id wins. */
  function ChannelMap(cs: seq<Channel>): (m: map<string, Channel>)
    ensures m.Keys == set c | c in cs :: c.id
    ensures forall k :: 0 <= k < |cs| && LastWithId(cs, k) ==> m[cs[k].id] == cs[k]
  {
    if cs == [] then map[]
    else
      var m := ChannelMap(cs[..|cs| - 1])[cs[|cs| - 1].id := cs[|cs| - 1]];
      ChannelMapStep(cs, m);
      m
  }

  /** No later channel shares the id of channel `k`. */
  predicate LastWithId(cs: seq<Channel>, k: int)
    requires 0 <= k < |cs|
  {
    forall j :: k < j < |cs| ==> cs[j].id != cs[k].id
  }

  lemma ChannelMapStep(cs: seq<Channel>, m: map<string, Channel>)
    requires cs != []
    requires m == ChannelMap(cs[..|cs| - 1])[cs[|cs| - 1].id := cs[|cs| - 1]]
    ensures m.Keys == set c | c in cs :: c.id
    ensures forall k :: 0 <= k < |cs| && LastWithId(cs, k) ==> m[cs[k].id] == cs[k]
  {
    IdsSnoc(cs);
    forall k | 0 <= k < |cs| && LastWithId(cs, k)
      ensures m[cs[k].id] == cs[k]
    {
      if k < |cs| - 1 {
        EarlierLastWithId(cs, k);
      }
    }
  }

  /** The ids of a sequence are those before its last channel and that channel's. */
  lemma IdsSnoc(cs: seq<Channel>)
    requires cs != []
    ensures (set c | c in cs :: c.id) == (set c | c in cs[..|cs| - 1] :: c.id) + {cs[|cs| - 1].id}
  {
    var init, last := cs[..|cs| - 1], cs[|cs| - 1];
    assert cs == init + [last];
    assert forall c :: c in cs <==> c in init || c == last;
  }

  /** A channel last with its id, before the final one, is also last with it in the prefix. */
  lemma EarlierLastWithId(cs: seq<Channel>, k: int)
    requires 0 <= k < |cs| - 1 && LastWithId(cs, k)
    ensures cs[k].id != cs[|cs| - 1].id
    ensures LastWithId(cs[..|cs| - 1], k) && cs[..|cs| - 1][k] == cs[k]
  {
  }

  // ---------------------------------------------------------------------------
  // `search`
  // ---------------------------------------------------------------------------

  const NanosPerSecond := 1_000_000_000

  /** `stop >= now`, with `now` in nanoseconds since the Unix epoch (UTC). */
  predicate NotEnded(p: Programme, nowNanos: int)
  {
    Instant(p.stop) * NanosPerSecond >= nowNanos
  }

  /** The lower-cased title or description contains the lower-cased term. */
  predicate Mentions(p: Programme, term: string)
  {
    Contains(Lower(p.title), Lower(term)) || Contains(Lower(p.desc), Lower(term))
  }

  predicate Matches(p: Programme, term: string, nowNanos: int)
  {
    NotEnded(p, nowNanos) && Mentions(p, term)
  }

  function StartKey(p: Programme): int
  {
    Instant(p.start)
  }

  function Matching(ps: seq<Programme>, term: string, nowNanos: int): seq<Programme>
  {
    Retain(ps, p => Matches(p, term, nowNanos))
  }

  /** The programmes that have not ended and mention the term, by start instant. */
  function Search(ps: seq<Programme>, term: string, nowNanos: int): (r: seq<Programme>)
    ensures SortedBy(r, StartKey)
    ensures forall p :: p in r <==> p in ps && Matches(p, term, nowNanos)
  {
    var m := Matching(ps, term, nowNanos);
    SortByMembers(m, StartKey);
    SortBy(m, StartKey)
  }

  /** Each matching programme appears as often as in the guide, and no other does. */
  lemma SearchCounts(ps: seq<Programme>, term: string, nowNanos: int, p: Programme)
    ensures multiset(Search(ps, term, nowNanos))[p] ==
      if Matches(p, term, nowNanos) then multiset(ps)[p] else 0
  {
    RetainMultiset(ps, q => Matches(q, term, nowNanos), p);
  }

  /** Programmes starting at the same instant stay in guide order (the sort is stable). */
  lemma SearchStable(ps: seq<Programme>, term: string, nowNanos: int, k: int)
    ensures Retain(Search(ps, term, nowNanos), KeyIs(StartKey, k)) ==
      Retain(Matching(ps, term, nowNanos), KeyIs(StartKey, k))
  {
    SortByStable(Matching(ps, term, nowNanos), StartKey, k);
  }

  /** Once every programme has ended nothing is found, whatever the term. */
  lemma SearchAfterAllEnded(ps: seq<Programme>, term: string, nowNanos: int)
    requires forall k :: 0 <= k < |ps| ==> Instant(ps[k].stop) * NanosPerSecond < nowNanos
    ensures Search(ps, term, nowNanos) == []
  {
    RetainNone(ps, p => Matches(p, term, nowNanos));
  }

  /** A programme ending exactly now is still found. */
  lemma SearchKeepsEndingNow(ps: seq<Programme>, term: string, p: Programme)
    requires p in ps && Mentions(p, term)
    ensures p in Search(ps, term, Instant(p.stop) * NanosPerSecond)
  {
  }

  // ---------------------------------------------------------------------------
  // `escape_xml`
  // ---------------------------------------------------------------------------

  /** `str::replace` for a one-character pattern. */
  function ReplaceChar(s: string, c: char, rep: string): (r: string)
    ensures rep != [] ==> |s| <= |r|
  {
    if s == [] then [] else (if s[0] == c then rep else [s[0]]) + ReplaceChar(s[1..], c, rep)
  }

  /** The five replacements, in the order they are applied, `&` first. */
  function EscapeXml(s: string): (r: string)
    ensures |s| <= |r|
    ensures NoMarkup(s) && '&' !in s ==> r == s
  {
    ReplaceAbsent(s, '&', "&amp;");
    ReplaceAbsent(s, '<', "&lt;");
    ReplaceAbsent(s, '>', "&gt;");
    ReplaceAbsent(s, '"', "&quot;");
    ReplaceAbsent(s, '\'', "&apos;");
    ReplaceChar(ReplaceChar(ReplaceChar(ReplaceChar(ReplaceChar(
      s, '&', "&amp;"), '<', "&lt;"), '>', "&gt;"), '"', "&quot;"), '\'', "&apos;")
  }

  /** The entity for one character. */
  function EscapeChar(c: char): string
  {
    match c
    case '&' => "&amp;"
    case '<' => "&lt;"
    case '>' => "&gt;"
    case '"' => "&quot;"
    case '\'' => "&apos;"
    case _ => [c]
  }

  /** Reference definition: every character escaped on its own, once. */
  function EscapeEach(s: string): string
  {
    if s == [] then [] else EscapeChar(s[0]) + EscapeEach(s[1..])
  }

  lemma {:induction false} ReplaceAppend(a: string, b: string, c: char, rep: string)
    ensures ReplaceChar(a + b, c, rep) == ReplaceChar(a, c, rep) + ReplaceChar(b, c, rep)
  {
    if a != [] {
      assert (a + b)[1..] == a[1..] + b;
      ReplaceAppend(a[1..], b, c, rep);
    } else {
      assert a + b == b;
    }
  }

  lemma {:induction false} ReplaceAbsent(s: string, c: char, rep: string)
    ensures c !in s ==> ReplaceChar(s, c, rep) == s
  {
    if s != [] {
      ReplaceAbsent(s[1..], c, rep);
    }
  }

  lemma ReplaceSingle(x: char, c: char, rep: string)
    ensures ReplaceChar([x], c, rep) == if x == c then rep else [x]
  {
    assert [x][1..] == [];
  }

  /** The passes after the one that produced an entity leave it alone. */
  lemma EntityUntouched(e: string)
    requires NoMarkup(e)
    ensures ReplaceChar(e, '<', "&lt;") == e && ReplaceChar(e, '>', "&gt;") == e
    ensures ReplaceChar(e, '"', "&quot;") == e && ReplaceChar(e, '\'', "&apos;") == e
  {
    ReplaceAbsent(e, '<', "&lt;");
    ReplaceAbsent(e, '>', "&gt;");
    ReplaceAbsent(e, '"', "&quot;");
    ReplaceAbsent(e, '\'', "&apos;");
  }

  /** The five passes on one character give that character's entity. */
  lemma EscapeOneChar(x: char)
    ensures EscapeXml([x]) == EscapeChar(x)
  {
    EscapeCharClean(x);
    ReplaceSingle(x, '&', "&amp;");
    if x == '&' {
      EntityUntouched("&amp;");
    } else {
      ReplaceSingle(x, '<', "&lt;");
      if x == '<' {
        EntityUntouched("&lt;");
      } else {
        ReplaceSingle(x, '>', "&gt;");
        if x == '>' {
          EntityUntouched("&gt;");
        } else {
          ReplaceSingle(x, '"', "&quot;");
          if x == '"' {
            EntityUntouched("&quot;");
          } else {
            ReplaceSingle(x, '\'', "&apos;");
          }
        }
      }
    }
  }

  lemma EscapeAppend(a: string, b: string)
    ensures EscapeXml(a + b) == EscapeXml(a) + EscapeXml(b)
  {
    var s0a, s0b := a, b;
    ReplaceAppend(s0a, s0b, '&', "&amp;");
    var s1a, s1b := ReplaceChar(s0a, '&', "&amp;"), ReplaceChar(s0b, '&', "&amp;");
    ReplaceAppend(s1a, s1b, '<', "&lt;");
    var s2a, s2b := ReplaceChar(s1a, '<', "&lt;"), ReplaceChar(s1b, '<', "&lt;");
    ReplaceAppend(s2a, s2b, '>', "&gt;");
    var s3a, s3b := ReplaceChar(s2a, '>', "&gt;"), ReplaceChar(s2b, '>', "&gt;");
    ReplaceAppend(s3a, s3b, '"', "&quot;");
    var s4a, s4b := ReplaceChar(s3a, '"', "&quot;"), ReplaceChar(s3b, '"', "&quot;");
    ReplaceAppend(s4a, s4b, '\'', "&apos;");
  }

  /** Because `&` is replaced first, no character is escaped twice. */
  lemma {:induction false} EscapeIsPerChar(s: string)
    ensures EscapeXml(s) == EscapeEach(s)
  {
    if s != [] {
      assert s == [s[0]] + s[1..];
      EscapeAppend([s[0]], s[1..]);
      EscapeOneChar(s[0]);
      EscapeIsPerChar(s[1..]);
    }
  }

  predicate IsMarkup(c: char)
  {
    c == '<' || c == '>' || c == '"' || c == '\''
  }

  predicate NoMarkup(t: string)
  {
    forall i :: 0 <= i < |t| ==> !IsMarkup(t[i])
  }

  /** One of the five entities starts at index `i` of `t`. */
  predicate OpensEntity(t: string, i: int)
  {
    StartsAt(t, "&amp;", i) || StartsAt(t, "&lt;", i) || StartsAt(t, "&gt;", i)
    || StartsAt(t, "&quot;", i) || StartsAt(t, "&apos;", i)
  }

  predicate AmpersandsOpenEntities(t: string)
  {
    forall i :: 0 <= i < |t| && t[i] == '&' ==> OpensEntity(t, i)
  }

  lemma EntitiesAppend(a: string, b: string)
    requires NoMarkup(a) && AmpersandsOpenEntities(a)
    requires NoMarkup(b) && AmpersandsOpenEntities(b)
    ensures NoMarkup(a + b) && AmpersandsOpenEntities(a + b)
  {
    var t := a + b;
    forall i | 0 <= i < |t| && t[i] == '&'
      ensures OpensEntity(t, i)
    {
      if i < |a| {
        assert a[i] == '&' && OpensEntity(a, i);
        assert a[i..] <= t[i..];
      } else {
        assert b[i - |a|] == '&' && OpensEntity(b, i - |a|);
        assert t[i..] == b[i - |a|..];
      }
    }
    assert forall i :: 0 <= i < |t| ==> t[i] == if i < |a| then a[i] else b[i - |a|];
  }

  lemma EscapeCharClean(c: char)
    ensures NoMarkup(EscapeChar(c)) && AmpersandsOpenEntities(EscapeChar(c))
  {
    match c
    case '&' => EntityClean("&amp;");
    case '<' => EntityClean("&lt;");
    case '>' => EntityClean("&gt;");
    case '"' => EntityClean("&quot;");
    case '\'' => EntityClean("&apos;");
    case _ =>
  }

  /** An entity: its one `&` opens it, and none of its characters is markup. */
  lemma EntityClean(e: string)
    requires |e| > 0 && e[0] == '&' && OpensEntity(e, 0)
    requires forall i :: 0 <= i < |e| ==> !IsMarkup(e[i]) && (i > 0 ==> e[i] != '&')
    ensures NoMarkup(e) && AmpersandsOpenEntities(e)
  {
  }

  /**
   * The escaped text holds no `<`, `>`, `"` or `'`, and each `&` in it
   * begins one of the five entities.
   */
  lemma {:induction false} EscapedIsClean(s: string)
    ensures NoMarkup(EscapeXml(s)) && AmpersandsOpenEntities(EscapeXml(s))
  {
    EscapeIsPerChar(s);
    EscapeEachClean(s);
  }

  lemma {:induction false} EscapeEachClean(s: string)
    ensures NoMarkup(EscapeEach(s)) && AmpersandsOpenEntities(EscapeEach(s))
  {
    if s != [] {
      EscapeCharClean(s[0]);
      EscapeEachClean(s[1..]);
      EntitiesAppend(EscapeChar(s[0]), EscapeEach(s[1..]));
    }
  }

  function Prepend(c: char, r: Option<string>): Option<string>
  {
    match r
    case None => None
    case Some(t) => Some([c] + t)
  }

  /** Decoding the five entities; a bare `&` or markup character is rejected. */
  function Unescape(t: string): (r: Option<string>)
    decreases |t|
  {
    if t == [] then Some([])
    else if t[0] == '&' then
      if "&amp;" <= t then Prepend('&', Unescape(t[5..]))
      else if "&lt;" <= t then Prepend('<', Unescape(t[4..]))
      else if "&gt;" <= t then Prepend('>', Unescape(t[4..]))
      else if "&quot;" <= t then Prepend('"', Unescape(t[6..]))
      else if "&apos;" <= t then Prepend('\'', Unescape(t[6..]))
      else None
    else if IsMarkup(t[0]) then None
    else Prepend(t[0], Unescape(t[1..]))
  }

  lemma NotPrefix(p: string, t: string, i: nat)
    requires i < |p| && i < |t| && p[i] != t[i]
    ensures !(p <= t)
  {
  }

  lemma UnescapeOne(c: char, rest: string)
    ensures Unescape(EscapeChar(c) + rest) == Prepend(c, Unescape(rest))
  {
    var e := EscapeChar(c);
    var t := e + rest;
    assert t[|e|..] == rest;
    assert e <= t;
    if c == '&' {
    } else if c == '<' {
      NotPrefix("&amp;", t, 1);
    } else if c == '>' {
      NotPrefix("&amp;", t, 1);
      NotPrefix("&lt;", t, 1);
    } else if c == '"' {
      NotPrefix("&amp;", t, 1);
      NotPrefix("&lt;", t, 1);
      NotPrefix("&gt;", t, 1);
    } else if c == '\'' {
      NotPrefix("&amp;", t, 2);
      NotPrefix("&lt;", t, 1);
      NotPrefix("&gt;", t, 1);
      NotPrefix("&quot;", t, 1);
    } else {
      assert t[0] == c && t[1..] == rest;
    }
  }

  /** Unescaping the escaped text gives the original back. */
  lemma {:induction false} UnescapeEscaped(s: string)
    ensures Unescape(EscapeXml(s)) == Some(s)
  {
    EscapeIsPerChar(s);
    UnescapeEach(s);
  }

  lemma {:induction false} UnescapeEach(s: string)
    ensures Unescape(EscapeEach(s)) == Some(s)
  {
    if s != [] {
      UnescapeEach(s[1..]);
      UnescapeOne(s[0], EscapeEach(s[1..]));
      assert [s[0]] + s[1..] == s;
    }
  }

  // ---------------------------------------------------------------------------
  // `to_xml`
  // ---------------------------------------------------------------------------

  const XmlHeader := "<?xml version=\"1.0\" encoding=\"utf-8\"?>\n<!DOCTYPE tv SYSTEM \"xmltv.dtd\">\n<tv generator-info-name=\"NXT\" generator-info-url=\"nxtplay.xyz\">"
  const XmlFooter := "\n</tv>"

  function IconXml(icon: Option<Icon>): string
  {
    match icon
    case None => ""
    case Some(i) => "\n<icon src=\"" + EscapeXml(i.src) + "\"/>"
  }

  function ChannelOpen(c: Channel): string
  {
    "\n<channel id=\"" + EscapeXml(c.id) + "\">"
  }

  function DisplayNameLine(c: Channel): string
  {
    "\n<display-name>" + EscapeXml(c.displayName) + "</display-name>"
  }

  const ChannelClose := "\n</channel>"

  /** One channel block: its id, its display name, and its icon when it has one. */
  function ChannelXml(c: Channel): string
  {
    ChannelOpen(c) + DisplayNameLine(c) + IconXml(c.icon) + ChannelClose
  }

  /** The opening tag with both times in the guide's pattern and the channel id. */
  function ProgrammeOpen(p: Programme): string
  {
    "\n<programme start=\"" + (FormatTimestamp(p.start) + ("\" stop=\"" + (FormatTimestamp(p.stop)
      + ("\" channel=\"" + EscapeXml(p.channel) + "\">"))))
  }

  function TitleLine(p: Programme): string
  {
    "\n<title>" + EscapeXml(p.title) + "</title>"
  }

  function DescLine(p: Programme): string
  {
    "\n<desc>" + EscapeXml(p.desc) + "</desc>"
  }

  const ProgrammeClose := "\n</programme>"

  /** One programme block: opening tag, title, description, closing tag. */
  function ProgrammeXml(p: Programme): string
  {
    ProgrammeOpen(p) + TitleLine(p) + DescLine(p) + ProgrammeClose
  }

  /** The blocks of the items, concatenated in order. */
  function Blocks<T>(xs: seq<T>, block: T -> string): string
  {
    if xs == [] then "" else Blocks(xs[..|xs| - 1], block) + block(xs[|xs| - 1])
  }

  lemma PrefixAndSuffix(h: string, b: string, f: string)
    ensures h <= h + b + f && EndsWith(h + b + f, f)
  {
    assert (h + b + f)[|h + b|..] == f;
  }

  /** The whole document: header, channel blocks, programme blocks, footer. */
  function Xml(cs: seq<Channel>, ps: seq<Programme>): (r: string)
    ensures XmlHeader <= r && EndsWith(r, XmlFooter)
    ensures cs == [] && ps == [] ==> |r| == |XmlHeader| + |XmlFooter|
  {
    var body := Blocks(cs, ChannelXml) + Blocks(ps, ProgrammeXml);
    PrefixAndSuffix(XmlHeader, body, XmlFooter);
    XmlHeader + body + XmlFooter
  }

  /**
   * The blocks follow the list, one block per item, in order: a document
   * written for `a + b` is the one for `a` continued by the one for `b`.
   */
  lemma {:induction false} BlocksAppend<T>(a: seq<T>, b: seq<T>, block: T -> string)
    ensures Blocks(a + b, block) == Blocks(a, block) + Blocks(b, block)
  {
    if b == [] {
      assert a + b == a;
    } else {
      var b1 := b[..|b| - 1];
      assert (a + b)[..|a + b| - 1] == a + b1;
      assert (a + b)[|a + b| - 1] == b[|b| - 1];
      BlocksAppend(a, b1, block);
    }
  }

  lemma BlocksSnoc<T>(xs: seq<T>, i: nat, block: T -> string)
    requires i < |xs|
    ensures Blocks(xs[..i + 1], block) == Blocks(xs[..i], block) + block(xs[i])
  {
    assert xs[..i + 1][..i] == xs[..i];
  }

  lemma BlocksSingle<T>(x: T, block: T -> string)
    ensures Blocks([x], block) == block(x)
  {
    assert [x][..0] == [];
  }

  lemma EscapedNoOpen(s: string)
    ensures multiset(EscapeXml(s))['<'] == 0
  {
    EscapedIsClean(s);
    var t := EscapeXml(s);
    assert forall i :: 0 <= i < |t| ==> t[i] != '<';
    assert '<' !in t;
  }

  lemma LiteralOpens(lit: string, n: nat, x: string, lit2: string, n2: nat)
    requires multiset(lit)['<'] == n && multiset(lit2)['<'] == n2 && multiset(x)['<'] == 0
    ensures multiset(lit + x + lit2)['<'] == n + n2
  {
  }

  lemma OpensChannel()
    ensures multiset("\n<channel id=\"")['<'] == 1
  {
    assert "\n<channel id=\"" == "\n" + "<" + "channel id=\"";
    OneOpen("\n", "channel id=\"");
  }

  lemma OneOpen(a: string, b: string)
    requires '<' !in a && '<' !in b
    ensures multiset(a + "<" + b)['<'] == 1
  {
    assert multiset(a)['<'] == 0 && multiset(b)['<'] == 0;
  }

  lemma OpensNone1()
    ensures multiset("\">")['<'] == 0
  {
  }

  lemma OpensDisplayName()
    ensures multiset("\n<display-name>")['<'] == 1
  {
    assert "\n<display-name>" == "\n" + "<" + "display-name>";
    OneOpen("\n", "display-name>");
  }

  lemma OpensDisplayNameEnd()
    ensures multiset("</display-name>")['<'] == 1
  {
    assert "</display-name>" == "" + "<" + "/display-name>";
    OneOpen("", "/display-name>");
  }

  lemma OpensIcon()
    ensures multiset("\n<icon src=\"")['<'] == 1
  {
    assert "\n<icon src=\"" == "\n" + "<" + "icon src=\"";
    OneOpen("\n", "icon src=\"");
  }

  lemma OpensNone2()
    ensures multiset("\"/>")['<'] == 0
  {
  }

  lemma OpensClose()
    ensures multiset(ChannelClose)['<'] == 1
  {
    assert ChannelClose == "\n" + "<" + "/channel>";
    OneOpen("\n", "/channel>");
  }

  lemma ChannelOpenTags(c: Channel)
    ensures multiset(ChannelOpen(c))['<'] == 1
  {
    OpensChannel();
    OpensNone1();
    EscapedNoOpen(c.id);
    LiteralOpens("\n<channel id=\"", 1, EscapeXml(c.id), "\">", 0);
  }

  lemma DisplayNameTags(c: Channel)
    ensures multiset(DisplayNameLine(c))['<'] == 2
  {
    OpensDisplayName();
    OpensDisplayNameEnd();
    EscapedNoOpen(c.displayName);
    LiteralOpens("\n<display-name>", 1, EscapeXml(c.displayName), "</display-name>", 1);
  }

  lemma IconTags(icon: Option<Icon>)
    ensures multiset(IconXml(icon))['<'] == if icon.Some? then 1 else 0
  {
    if icon.Some? {
      IconSrcTags(icon.value.src);
    }
  }

  lemma IconSrcTags(src: string)
    ensures multiset("\n<icon src=\"" + EscapeXml(src) + "\"/>")['<'] == 1
  {
    OpensIcon();
    OpensNone2();
    EscapedNoOpen(src);
    LiteralOpens("\n<icon src=\"", 1, EscapeXml(src), "\"/>", 0);
  }

  lemma OpensSum(a: string, b: string, c: string, d: string)
    ensures multiset(a + b + c + d)['<'] ==
      multiset(a)['<'] + multiset(b)['<'] + multiset(c)['<'] + multiset(d)['<']
  {
  }

  /**
   * Counting the `<` that open tags: a channel block opens four without an
   * icon and five with one, since escaped text brings none of its own.
   */
  lemma ChannelTags(c: Channel)
    ensures multiset(ChannelXml(c))['<'] == if c.icon.Some? then 5 else 4
  {
    ChannelOpenTags(c);
    DisplayNameTags(c);
    IconTags(c.icon);
    OpensClose();
    OpensSum(ChannelOpen(c), DisplayNameLine(c), IconXml(c.icon), ChannelClose);
  }

  lemma SliceNested(s: string, a: string, x: string, b: string, y: string, c: string)
    requires s == a + (x + (b + (y + c)))
    ensures s[|a|..|a| + |x|] == x
    ensures s[|a| + |x| + |b|..|a| + |x| + |b| + |y|] == y
  {
    assert s[|a|..] == x + (b + (y + c));
    assert s[|a| + |x|..] == b + (y + c);
    assert s[|a| + |x| + |b|..] == y + c;
  }

  lemma SlicePrefix(s: string, o: string, t: string, i: int, j: int)
    requires s == o + t && 0 <= i <= j <= |o|
    ensures s[i..j] == o[i..j]
  {
  }

  /** The start and stop attributes sit at fixed places and read back as the programme's times. */
  lemma ProgrammeTimesReadBack(p: Programme)
    ensures ProgrammeXml(p)[19..39] == FormatTimestamp(p.start)
    ensures ProgrammeXml(p)[47..67] == FormatTimestamp(p.stop)
    ensures ParseTimestamp(ProgrammeXml(p)[19..39]) == Some(p.start)
    ensures ParseTimestamp(ProgrammeXml(p)[47..67]) == Some(p.stop)
  {
    var o := ProgrammeOpen(p);
    SliceNested(o, "\n<programme start=\"", FormatTimestamp(p.start), "\" stop=\"", FormatTimestamp(p.stop),
      "\" channel=\"" + EscapeXml(p.channel) + "\">");
    SlicePrefix(ProgrammeXml(p), o, TitleLine(p) + DescLine(p) + ProgrammeClose, 19, 39);
    SlicePrefix(ProgrammeXml(p), o, TitleLine(p) + DescLine(p) + ProgrammeClose, 47, 67);
    ParseFormatted(p.start);
    ParseFormatted(p.stop);
  }

  lemma Append4(before: string, a: string, b: string, c: string, d: string)
    ensures before + a + b + c + d == before + (a + b + c + d)
  {
  }

  lemma Assoc3(a: string, b: string, c: string)
    ensures a + (b + c) == a + b + c
  {
  }

  lemma Document(header: string, chans: string, progs: string, footer: string)
    ensures header + (chans + progs) + footer == header + chans + progs + footer
  {
  }

  /** One turn of the channel loop extends the written blocks by the next channel's. */
  lemma ChannelsAdvance(cs: seq<Channel>, i: nat, before: string, body: string)
    requires i < |cs| && before == Blocks(cs[..i], ChannelXml)
    requires body == before + ChannelOpen(cs[i]) + DisplayNameLine(cs[i]) + IconXml(cs[i].icon) + ChannelClose
    ensures body == Blocks(cs[..i + 1], ChannelXml)
  {
    ChannelStep(before, cs[i]);
    BlocksSnoc(cs, i, ChannelXml);
  }

  /** One turn of the programme loop extends the written blocks by the next programme's. */
  lemma ProgrammesAdvance(ps: seq<Programme>, i: nat, chans: string, before: string, body: string)
    requires i < |ps| && before == chans + Blocks(ps[..i], ProgrammeXml)
    requires body == before + ProgrammeOpen(ps[i]) + TitleLine(ps[i]) + DescLine(ps[i]) + ProgrammeClose
    ensures body == chans + Blocks(ps[..i + 1], ProgrammeXml)
  {
    ProgrammeStep(before, ps[i]);
    BlocksSnoc(ps, i, ProgrammeXml);
    Assoc3(chans, Blocks(ps[..i], ProgrammeXml), ProgrammeXml(ps[i]));
  }

  /** The four pushes for a channel append exactly its block. */
  lemma ChannelStep(before: string, c: Channel)
    ensures before + ChannelOpen(c) + DisplayNameLine(c) + IconXml(c.icon) + ChannelClose
      == before + ChannelXml(c)
  {
    Append4(before, ChannelOpen(c), DisplayNameLine(c), IconXml(c.icon), ChannelClose);
  }

  /** The four pushes for a programme append exactly its block. */
  lemma ProgrammeStep(before: string, p: Programme)
    ensures before + ProgrammeOpen(p) + TitleLine(p) + DescLine(p) + ProgrammeClose
      == before + ProgrammeXml(p)
  {
    Append4(before, ProgrammeOpen(p), TitleLine(p), DescLine(p), ProgrammeClose);
  }

  // ---------------------------------------------------------------------------
  // The guide object
  // ---------------------------------------------------------------------------

  predicate ChannelKept(keep: seq<string>, c: Channel)
  {
    c.id in keep
  }

  predicate ProgrammeKept(keep: seq<string>, p: Programme)
  {
    p.channel in keep
  }

  class Epg {
    var channels: seq<Channel>
    var programmes: seq<Programme>

    constructor(channels: seq<Channel>, programmes: seq<Programme>)
      ensures this.channels == channels && this.programmes == programmes
    {
      this.channels := channels;
      this.programmes := programmes;
    }

    /** `to_xml`: always succeeds, with the document built block by block. */
    method ToXml() returns (r: Result<string>)
      ensures r == Success(Xml(channels, programmes))
    {
      var body := "";
      for i := 0 to |channels|
        invariant body == Blocks(channels[..i], ChannelXml)
      {
        var c := channels[i];
        var before := body;
        body := body + ChannelOpen(c);
        body := body + DisplayNameLine(c);
        if c.icon.Some? {
          body := body + IconXml(c.icon);
        } else {
          assert body + IconXml(c.icon) == body;
        }
        body := body + ChannelClose;
        ChannelsAdvance(channels, i, before, body);
      }
      assert channels[..|channels|] == channels;
      var chans := body;
      for i := 0 to |programmes|
        invariant body == chans + Blocks(programmes[..i], ProgrammeXml)
      {
        var p := programmes[i];
        var before := body;
        body := body + ProgrammeOpen(p);
        body := body + TitleLine(p);
        body := body + DescLine(p);
        body := body + ProgrammeClose;
        ProgrammesAdvance(programmes, i, chans, before, body);
      }
      assert programmes[..|programmes|] == programmes;
      Document(XmlHeader, chans, Blocks(programmes, ProgrammeXml), XmlFooter);
      r := Success(XmlHeader + body + XmlFooter);
    }

    /** `filter_channels`: keep the listed channels and the programmes on them. */
    method FilterChannels(keep: seq<string>)
      modifies this
      ensures channels == Retain(old(channels), c => ChannelKept(keep, c))
      ensures programmes == Retain(old(programmes), p => ProgrammeKept(keep, p))
    {
      channels := Retain(channels, c => ChannelKept(keep, c));
      programmes := Retain(programmes, p => ProgrammeKept(keep, p));
    }
  }
}
