/**
 * `PlaylistEntry::parse` reads back what `Display` writes. The written
 * record is seen as the text segments of the header joined by `"`; each
 * parser step then finds its own marker at a known place and none of the
 * markers it tries earlier.
 */
module ParseRoundTrip {
  import opened Wrappers
  import opened Strings
  import opened Parse

  const Q: char := '"'
  const Extinf: string := "#EXTINF:"

  /** An attribute value survives the round trip: no quote, no trailing `=`, no record marker. */
  predicate AttributeSafe(v: string)
  {
    Q !in v && (v == [] || v[|v| - 1] != '=') && Absent(Extinf, v)
  }

  /**
   * The entries whose display form parses back to themselves: every attribute
   * value is safe, and name and url contain no quote, no newline and no record
   * marker; the url also contains no NUL.
   */
  predicate RoundTripSafe(e: PlaylistEntry)
  {
    AttributeSafe(e.tvgId) && AttributeSafe(e.tvgName) && AttributeSafe(e.tvgLogo) && AttributeSafe(e.groupTitle)
    && Q !in e.name && '\n' !in e.name && Absent(Extinf, e.name)
    && Q !in e.url && '\n' !in e.url && '\0' !in e.url && Absent(Extinf, e.url)
  }

  /** Everything after the group title's closing quote. */
  function Tail(e: PlaylistEntry): string
  {
    "," + (e.name + ("\n" + e.url))
  }

  /** Segments 0..10 read apart: the values sit at odd positions, the tail last. */
  lemma SegmentValues(e: PlaylistEntry)
    ensures Segments(e)[1] == XuiPlaceholder && Segments(e)[3] == e.tvgId && Segments(e)[5] == e.tvgName
    ensures Segments(e)[7] == e.tvgLogo && Segments(e)[9] == e.groupTitle && Segments(e)[10] == Tail(e)
  {
  }

  /** The quote-separated segments of the display form, after the duration. */
  function Segments(e: PlaylistEntry): (gs: seq<string>)
    ensures |gs| == 11
  {
    [" xui-id=", XuiPlaceholder, " tvg-id=", e.tvgId, " tvg-name=", e.tvgName,
     " tvg-logo=", e.tvgLogo, " group-title=", e.groupTitle, Tail(e)]
  }

  lemma InterleaveStep(gs: seq<string>, k: nat, q: char)
    requires k + 1 < |gs|
    ensures Interleave(gs[k..], q) == gs[k] + [q] + Interleave(gs[k + 1..], q)
  {
    assert gs[k..][1..] == gs[k + 1..];
  }

  lemma InterleaveLast(gs: seq<string>, q: char)
    requires |gs| > 0
    ensures Interleave(gs[|gs| - 1..], q) == gs[|gs| - 1]
  {
  }

  lemma QuotedLiteral(f: string, lit: string, l: string, y: string)
    requires lit == [Q] + l + [Q]
    ensures f + (lit + y) == f + [Q] + (l + [Q] + y)
  {
    assert lit + y == [Q] + (l + [Q] + y);
  }

  lemma {:induction false} InterleaveAppend(gs: seq<string>, q: char, t: string)
    requires |gs| > 0
    ensures Interleave(gs, q) + t == Interleave(gs[..|gs| - 1] + [gs[|gs| - 1] + t], q)
  {
    var hs := gs[..|gs| - 1] + [gs[|gs| - 1] + t];
    if |gs| > 1 {
      InterleaveAppend(gs[1..], q, t);
      assert hs[1..] == gs[1..][..|gs| - 2] + [gs[|gs| - 1] + t];
    }
  }

  lemma SegmentsOfHeader(e: PlaylistEntry)
    ensures Interleave(HeaderSegments(e), Q) + ("\n" + e.url) == Interleave(Segments(e), Q)
  {
    var hs := HeaderSegments(e);
    InterleaveAppend(hs, Q, "\n" + e.url);
    assert ("," + e.name) + ("\n" + e.url) == Tail(e);
    assert hs[..10] + [hs[10] + ("\n" + e.url)] == Segments(e);
  }

  // The header line read backwards from the group title, two segments at a time.

  lemma HeaderFrom9(e: PlaylistEntry)
    ensures Interleave(HeaderSegments(e)[9..], Q) == e.groupTitle + ("\"," + e.name)
  {
    var gs := HeaderSegments(e);
    InterleaveLast(gs, Q);
    InterleaveStep(gs, 9, Q);
  }

  lemma HeaderFrom7(e: PlaylistEntry)
    ensures Interleave(HeaderSegments(e)[7..], Q)
         == e.tvgLogo + ("\" group-title=\"" + (e.groupTitle + ("\"," + e.name)))
  {
    var gs := HeaderSegments(e);
    HeaderFrom9(e);
    InterleaveStep(gs, 8, Q);
    InterleaveStep(gs, 7, Q);
    QuotedLiteral(e.tvgLogo, "\" group-title=\"", " group-title=", Interleave(gs[9..], Q));
  }

  lemma HeaderFrom5(e: PlaylistEntry)
    ensures Interleave(HeaderSegments(e)[5..], Q)
         == e.tvgName + ("\" tvg-logo=\"" + Interleave(HeaderSegments(e)[7..], Q))
  {
    var gs := HeaderSegments(e);
    InterleaveStep(gs, 6, Q);
    InterleaveStep(gs, 5, Q);
    QuotedLiteral(e.tvgName, "\" tvg-logo=\"", " tvg-logo=", Interleave(gs[7..], Q));
  }

  lemma HeaderFrom3(e: PlaylistEntry)
    ensures Interleave(HeaderSegments(e)[3..], Q)
         == e.tvgId + ("\" tvg-name=\"" + Interleave(HeaderSegments(e)[5..], Q))
  {
    var gs := HeaderSegments(e);
    InterleaveStep(gs, 4, Q);
    InterleaveStep(gs, 3, Q);
    QuotedLiteral(e.tvgId, "\" tvg-name=\"", " tvg-name=", Interleave(gs[5..], Q));
  }

  lemma HeaderFrom1(e: PlaylistEntry)
    ensures Interleave(HeaderSegments(e)[1..], Q)
         == XuiPlaceholder + ("\" tvg-id=\"" + Interleave(HeaderSegments(e)[3..], Q))
  {
    var gs := HeaderSegments(e);
    InterleaveStep(gs, 2, Q);
    InterleaveStep(gs, 1, Q);
    QuotedLiteral(XuiPlaceholder, "\" tvg-id=\"", " tvg-id=", Interleave(gs[3..], Q));
  }

  /** The display form starts with the record marker and ends with the url. */
  lemma DisplayEnds(e: PlaylistEntry)
    requires e.url != []
    ensures Display(e)[0] == '#' && Display(e)[|Display(e)| - 1] == e.url[|e.url| - 1]
  {
    var d, tail := Display(e), "\n" + e.url;
    assert d[0] == "#EXTINF:"[0];
    assert d[|d| - |tail|..] == tail;
    assert d[|d| - 1] == d[|d| - |tail|..][|tail| - 1];
  }

  /** The header line is the format string of `Display` up to the name. */
  lemma HeaderLineFormat(e: PlaylistEntry)
    ensures HeaderLine(e) == "#EXTINF:" + (IntToString(e.duration) + (" xui-id=\"" + (XuiPlaceholder
    + ("\" tvg-id=\"" + (e.tvgId + ("\" tvg-name=\"" + (e.tvgName + ("\" tvg-logo=\"" + (e.tvgLogo
    + ("\" group-title=\"" + (e.groupTitle + ("\"," + e.name))))))))))))
  {
    HeaderFrom7(e);
    HeaderFrom5(e);
    HeaderFrom3(e);
    HeaderFrom1(e);
    HeaderFrom0(e);
  }

  lemma HeaderFrom0(e: PlaylistEntry)
    ensures HeaderLine(e) == "#EXTINF:" + (IntToString(e.duration) + (" xui-id=\"" + Interleave(HeaderSegments(e)[1..], Q)))
  {
    var gs := HeaderSegments(e);
    InterleaveStep(gs, 0, Q);
    assert gs[0..] == gs;
    var i1 := Interleave(gs[1..], Q);
    assert Interleave(gs, Q) == " xui-id=\"" + i1 by {
      assert " xui-id=" + [Q] == " xui-id=\"";
      Assoc(" xui-id=", [Q], i1);
    }
    Assoc("#EXTINF:", IntToString(e.duration), Interleave(gs, Q));
  }

  lemma Assoc(a: string, b: string, c: string)
    ensures a + b + c == a + (b + c)
  {
  }

  lemma DisplaySegments(e: PlaylistEntry)
    ensures Display(e) == Extinf + IntToString(e.duration) + Interleave(Segments(e), Q)
  {
    var h := Interleave(HeaderSegments(e), Q);
    SegmentsOfHeader(e);
    assert Display(e) == (Extinf + IntToString(e.duration) + h) + "\n" + e.url;
  }

  lemma ExtinfAbsentFromTail(e: PlaylistEntry)
    requires RoundTripSafe(e)
    ensures Absent(Extinf, Tail(e))
  {
    var parts := ["," + e.name, e.url];
    assert parts[1..][0..] == parts[1..];
    assert Interleave(parts, '\n') == Tail(e);
    AbsentCons(',', e.name, Extinf);
    assert [','] + e.name == "," + e.name;
    InterleavePlainAbsent(parts, '\n', Extinf);
  }

  lemma AttributeNotLabel(v: string, l: string)
    requires v == [] || v[|v| - 1] != '='
    requires |l| > 0 && l[|l| - 1] == '='
    ensures v != l && !EndsWith(v, l)
  {
  }

  // The per-segment facts the marker search relies on.

  lemma SegmentsQuoteFree(e: PlaylistEntry)
    requires RoundTripSafe(e)
    ensures FreeOf(Segments(e), Q)
  {
    var gs := Segments(e);
    forall j | 0 <= j < 11
      ensures Q !in gs[j]
    {
      if j == 10 {
        assert Q !in Tail(e);
      }
    }
  }

  lemma SegmentsNoExtinf(e: PlaylistEntry)
    requires RoundTripSafe(e)
    ensures forall j :: 0 <= j < 11 ==> Absent(Extinf, Segments(e)[j])
  {
    var gs := Segments(e);
    LabelsNoExtinf();
    ExtinfAbsentFromTail(e);
    forall j | 0 <= j < 11
      ensures Absent(Extinf, gs[j])
    {
      if j == 0 {
        assert gs[j] == " xui-id=";
      } else if j == 1 {
        assert gs[j] == XuiPlaceholder;
      } else if j == 2 {
        assert gs[j] == " tvg-id=";
      } else if j == 4 {
        assert gs[j] == " tvg-name=";
      } else if j == 6 {
        assert gs[j] == " tvg-logo=";
      } else if j == 8 {
        assert gs[j] == " group-title=";
      }
    }
  }

  /** The record marker starts with `#`, which none of the literal segments holds. */
  lemma LabelsNoExtinf()
    ensures Absent(Extinf, " xui-id=") && Absent(Extinf, XuiPlaceholder) && Absent(Extinf, " tvg-id=")
    ensures Absent(Extinf, " tvg-name=") && Absent(Extinf, " tvg-logo=") && Absent(Extinf, " group-title=")
  {
    HashFree(" xui-id=");
    HashFree(XuiPlaceholder);
    HashFree(" tvg-id=");
    HashFree(" tvg-name=");
    HashFree(" tvg-logo=");
    HashFree(" group-title=");
  }

  lemma HashFree(s: string)
    requires forall i :: 0 <= i < |s| ==> s[i] != '#'
    ensures Absent(Extinf, s)
  {
    assert Extinf[0] == '#';
    AbsentByChar(Extinf, s, '#');
  }

  lemma SegmentsNoXuiSuffix(e: PlaylistEntry)
    requires RoundTripSafe(e)
    ensures forall j :: 1 <= j < 10 ==> !EndsWith(Segments(e)[j], " xui-id=")
  {
    var gs := Segments(e);
    forall j | 1 <= j < 10
      ensures !EndsWith(gs[j], " xui-id=")
    {
      if j == 1 {
        assert XuiPlaceholder[|XuiPlaceholder| - 1] == '}';
      } else if j % 2 == 1 {
        AttributeNotLabel(gs[j], " xui-id=");
      } else if j == 2 {
        assert gs[j][1] != " xui-id="[1];
      } else {
        assert gs[j][|gs[j]| - 8] != " xui-id="[0];
      }
    }
  }

  lemma SegmentsLabelsDistinct(e: PlaylistEntry)
    requires RoundTripSafe(e)
    ensures forall p, j :: 2 <= p < j < 10 && p % 2 == 0 ==> Segments(e)[j] != Segments(e)[p]
  {
    var gs := Segments(e);
    assert gs[2] == " tvg-id=" && gs[4] == " tvg-name=" && gs[6] == " tvg-logo=" && gs[8] == " group-title=";
    assert gs[3] == e.tvgId && gs[5] == e.tvgName && gs[7] == e.tvgLogo && gs[9] == e.groupTitle;
    LabelsDistinctIn(gs);
  }

  lemma LabelsDistinctIn(gs: seq<string>)
    requires |gs| == 11
    requires gs[2] == " tvg-id=" && gs[4] == " tvg-name=" && gs[6] == " tvg-logo=" && gs[8] == " group-title="
    requires AttributeSafe(gs[3]) && AttributeSafe(gs[5]) && AttributeSafe(gs[7]) && AttributeSafe(gs[9])
    ensures forall p, j :: 2 <= p < j < 10 && p % 2 == 0 ==> gs[j] != gs[p]
  {
    LabelsDistinct();
    var labels := [gs[2], gs[4], gs[6], gs[8]];
    var values := [gs[3], gs[5], gs[7], gs[9]];
    forall a | 0 <= a < 4
      ensures |labels[a]| > 0 && labels[a][|labels[a]| - 1] == '='
    {
      LabelEndsInEquals(labels[a]);
    }
    forall a, b | 0 <= a < 4 && 0 <= b < 4
      ensures values[b] != labels[a]
    {
      AttributeNotLabel(values[b], labels[a]);
    }
    forall p, j | 2 <= p < j < 10 && p % 2 == 0
      ensures gs[j] != gs[p]
    {
      assert gs[p] == labels[p / 2 - 1];
      if j % 2 == 1 {
        assert gs[j] == values[j / 2 - 1];
      }
    }
  }

  lemma LabelEndsInEquals(l: string)
    requires l == " tvg-id=" || l == " tvg-name=" || l == " tvg-logo=" || l == " group-title="
    ensures |l| > 0 && l[|l| - 1] == '='
  {
  }

  /** The four attribute labels differ from one another. */
  lemma LabelsDistinct()
    ensures " tvg-id=" != " tvg-name=" && " tvg-id=" != " tvg-logo=" && " tvg-id=" != " group-title="
    ensures " tvg-name=" != " tvg-logo=" && " tvg-name=" != " group-title=" && " tvg-logo=" != " group-title="
  {
    assert |" tvg-id="| == 8 && |" tvg-name="| == 10 && |" tvg-logo="| == 10 && |" group-title="| == 13;
    assert " tvg-name="[6] != " tvg-logo="[6];
  }

  lemma KeyShapes()
    ensures KeyStrings(EntryKeys)[0] == Extinf
    ensures KeyStrings(EntryKeys)[1] == " xui-id=" + [Q]
    ensures KeyStrings(EntryKeys)[2] == [Q] + " tvg-id=" + [Q]
    ensures KeyStrings(EntryKeys)[3] == [Q] + " tvg-name=" + [Q]
    ensures KeyStrings(EntryKeys)[4] == [Q] + " tvg-logo=" + [Q]
    ensures KeyStrings(EntryKeys)[5] == [Q] + " group-title=" + [Q]
  {
    var keys := KeyStrings(EntryKeys);
    assert keys[0] == Duration.AsStr() && keys[1] == XuiId.AsStr() && keys[2] == TvgId.AsStr();
    assert keys[3] == TvgName.AsStr() && keys[4] == TvgLogo.AsStr() && keys[5] == GroupTitle.AsStr();
    XuiKeyShape();
    QuotedKeyShape(TvgId, " tvg-id=");
    QuotedKeyShape(TvgName, " tvg-name=");
    QuotedKeyShape(TvgLogo, " tvg-logo=");
    QuotedKeyShape(GroupTitle, " group-title=");
  }

  lemma XuiKeyShape()
    ensures XuiId.AsStr() == " xui-id=" + [Q]
  {
  }

  /** A marker between quotes: the quote, the label, the quote. */
  lemma QuotedKeyShape(k: EntryKey, word: string)
    requires k.AsStr() == "\"" + word + "\""
    ensures k.AsStr() == [Q] + word + [Q]
  {
  }

  /** How the markers that `take_until_key` tries relate to the segments. */
  predicate KeysMatch(keys: seq<string>, gs: seq<string>)
    requires |gs| == 11
  {
    |keys| == 6 && keys[0] == Extinf && keys[1] == gs[0] + [Q]
    && forall j :: 2 <= j < 6 ==> keys[j] == [Q] + gs[2 * j - 2] + [Q]
  }

  lemma SegmentsMatchKeys(e: PlaylistEntry)
    ensures KeysMatch(KeyStrings(EntryKeys), Segments(e))
  {
    var keys, gs := KeyStrings(EntryKeys), Segments(e);
    KeyShapes();
    assert gs[0] == " xui-id=" && gs[2] == " tvg-id=" && gs[4] == " tvg-name=";
    assert gs[6] == " tvg-logo=" && gs[8] == " group-title=";
    forall j | 2 <= j < 6
      ensures keys[j] == [Q] + gs[2 * j - 2] + [Q]
    {
    }
  }

  /**
   * Value step `k` (the xui-id, tvg-id, tvg-name and tvg-logo values sit at
   * segments 1, 3, 5, 7): `alt` over the markers stops right before the quote
   * that closes segment `k`, because that marker is the first one present.
   */
  lemma SegmentValueStage(keys: seq<string>, gs: seq<string>, k: nat)
    requires |gs| == 11 && KeysMatch(keys, gs)
    requires k == 1 || k == 3 || k == 5 || k == 7
    requires FreeOf(gs, Q)
    requires forall j :: 0 <= j < 11 ==> Absent(Extinf, gs[j])
    requires forall j :: 1 <= j < 10 ==> !EndsWith(gs[j], gs[0])
    requires forall p, j :: 2 <= p < j < 10 && p % 2 == 0 ==> gs[j] != gs[p]
    ensures TakeUntilAny(keys, Interleave(gs[k..], Q)) == Ok([Q] + Interleave(gs[k + 1..], Q), gs[k])
  {
    var m := (k + 3) / 2;
    var s := Interleave(gs[k..], Q);
    StageFound(keys, gs, k);
    forall j | 0 <= j < m
      ensures Absent(keys[j], s)
    {
      StageAbsent(keys, gs, k, j);
    }
    TakeUntilAnyPicks(keys, s, m, |gs[k]|);
  }

  /** The marker that closes segment `k` is found right after it. */
  lemma StageFound(keys: seq<string>, gs: seq<string>, k: nat)
    requires |gs| == 11 && KeysMatch(keys, gs)
    requires k == 1 || k == 3 || k == 5 || k == 7
    requires FreeOf(gs, Q)
    ensures IndexOf(Interleave(gs[k..], Q), keys[(k + 3) / 2]) == Some(|gs[k]|)
    ensures Interleave(gs[k..], Q)[..|gs[k]|] == gs[k]
    ensures Interleave(gs[k..], Q)[|gs[k]|..] == [Q] + Interleave(gs[k + 1..], Q)
  {
    var key := keys[(k + 3) / 2];
    var next := Interleave(gs[k + 1..], Q);
    var after := Interleave(gs[k + 2..], Q);
    assert key == [Q] + gs[k + 1] + [Q];
    InterleaveStep(gs, k + 1, Q);
    assert [Q] + next == key + after;
    InterleaveStep(gs, k, Q);
    assert Q !in gs[k];
    FoundSplit(gs[k], key, after, next);
  }

  lemma FoundSplit(a: string, key: string, after: string, next: string)
    requires |key| > 0 && key[0] !in a && key[0] == Q && [Q] + next == key + after
    ensures IndexOf(a + [Q] + next, key) == Some(|a|)
    ensures (a + [Q] + next)[..|a|] == a
    ensures (a + [Q] + next)[|a|..] == [Q] + next
  {
    FoundBeforeQuote(a, key, after, next);
    SplitAfterPrefix(a, [Q], next);
  }

  lemma FoundBeforeQuote(a: string, key: string, after: string, next: string)
    requires |key| > 0 && key[0] !in a && [Q] + next == key + after
    ensures IndexOf(a + [Q] + next, key) == Some(|a|)
  {
    SameConcat(a, [Q] + next, key, after);
    FoundIn(a + [Q] + next, a, key, after);
  }

  lemma SameConcat(a: string, b: string, key: string, after: string)
    requires b == key + after
    ensures a + b == a + key + after
  {
  }

  lemma FoundIn(s: string, a: string, key: string, after: string)
    requires |key| > 0 && key[0] !in a && s == a + key + after
    ensures IndexOf(s, key) == Some(|a|)
  {
    FoundAfter(a, key, after);
  }

  lemma SplitAfterPrefix(a: string, b: string, c: string)
    ensures (a + b + c)[..|a|] == a && (a + b + c)[|a|..] == b + c
  {
    assert a + b + c == a + (b + c);
  }

  /** None of the markers tried before that one occurs in the rest of the record. */
  lemma StageAbsent(keys: seq<string>, gs: seq<string>, k: nat, j: nat)
    requires |gs| == 11 && KeysMatch(keys, gs)
    requires k == 1 || k == 3 || k == 5 || k == 7
    requires j < (k + 3) / 2
    requires FreeOf(gs, Q)
    requires forall j :: 0 <= j < 11 ==> Absent(Extinf, gs[j])
    requires forall j :: 1 <= j < 10 ==> !EndsWith(gs[j], gs[0])
    requires forall p, j :: 2 <= p < j < 10 && p % 2 == 0 ==> gs[j] != gs[p]
    ensures Absent(keys[j], Interleave(gs[k..], Q))
  {
    var tail := gs[k..];
    assert FreeOf(tail, Q);
    if j == 0 {
      InterleavePlainAbsent(tail, Q, Extinf);
    } else if j == 1 {
      InterleaveSuffixAbsent(tail, Q, gs[0]);
    } else {
      InterleaveQuotedAbsent(tail, Q, gs[2 * j - 2]);
    }
  }

  lemma ValueStage(e: PlaylistEntry, k: nat)
    requires RoundTripSafe(e)
    requires k == 1 || k == 3 || k == 5 || k == 7
    ensures TakeUntilKey(Interleave(Segments(e)[k..], Q)) == Ok([Q] + Interleave(Segments(e)[k + 1..], Q), Segments(e)[k])
  {
    SegmentsMatchKeys(e);
    SegmentsQuoteFree(e);
    SegmentsNoExtinf(e);
    SegmentsNoXuiSuffix(e);
    SegmentsLabelsDistinct(e);
    SegmentValueStage(KeyStrings(EntryKeys), Segments(e), k);
  }

  /** `tag(marker)` consumes exactly the marker before `take_until_key`. */
  lemma KeyedConsumes(marker: string, x: string)
    ensures ParseKeyed(marker, marker + x) == TakeUntilKey(x)
  {
    assert (marker + x)[|marker|..] == x;
  }

  lemma QuotedSplit(gs: seq<string>, k: nat)
    requires 1 <= k < |gs|
    ensures [Q] + Interleave(gs[k - 1..], Q) == ([Q] + gs[k - 1] + [Q]) + Interleave(gs[k..], Q)
  {
    InterleaveStep(gs, k - 1, Q);
  }

  /** A keyed step: the marker is consumed, then the value is read as in `ValueStage`. */
  lemma KeyedStage(e: PlaylistEntry, k: nat, key: nat)
    requires RoundTripSafe(e)
    requires 2 <= key <= 4 && k == 2 * key - 1
    ensures ParseKeyed(KeyStrings(EntryKeys)[key], [Q] + Interleave(Segments(e)[k - 1..], Q))
         == Ok([Q] + Interleave(Segments(e)[k + 1..], Q), Segments(e)[k])
  {
    var gs := Segments(e);
    SegmentsMatchKeys(e);
    var marker := KeyStrings(EntryKeys)[key];
    assert marker == [Q] + gs[k - 1] + [Q];
    QuotedSplit(gs, k);
    KeyedConsumes(marker, Interleave(gs[k..], Q));
    ValueStage(e, k);
  }

  /** The duration is read up to the first space, which opens the ` xui-id=` marker. */
  lemma DurationReads(d: I32, rest: string)
    requires |rest| > 0 && rest[0] == ' '
    ensures ParseDuration(Extinf + IntToString(d) + rest) == Ok(rest, d)
  {
    var digits := IntToString(d);
    var s := Extinf + digits + rest;
    Assoc(Extinf, digits, rest);
    TagConsumes(Duration.AsStr(), digits + rest, s);
    NoSpaceInInt(d);
    DigitsUntilSpace(digits, rest);
    ParseDisplayedI32(d);
    DurationSteps(s, digits + rest, rest, digits, d);
  }

  lemma TagConsumes(t: string, x: string, s: string)
    requires s == t + x
    ensures Tag(t, s) == Ok(x, t)
  {
    assert s[..|t|] == t && s[|t|..] == x;
  }

  lemma DigitsUntilSpace(digits: string, rest: string)
    requires ' ' !in digits && |rest| > 0 && rest[0] == ' '
    ensures TakeUntil(" ", digits + rest) == Ok(rest, digits)
  {
    assert rest == " " + rest[1..];
    assert digits + rest == digits + " " + rest[1..];
    FoundAfter(digits, " ", rest[1..]);
    SplitAfterPrefix(digits, " ", rest[1..]);
  }

  /** `parse_duration` as the composition of its three steps. */
  lemma DurationSteps(i: string, i1: string, i2: string, text: string, d: I32)
    requires Tag(Duration.AsStr(), i) == Ok(i1, Duration.AsStr())
    requires TakeUntil(" ", i1) == Ok(i2, text)
    requires ParseI32(text) == Some(d)
    ensures ParseDuration(i) == Ok(i2, d)
  {
  }

  lemma XuiStage(e: PlaylistEntry)
    requires RoundTripSafe(e)
    ensures ParseXuiId(Segments(e)[0] + [Q] + Interleave(Segments(e)[1..], Q))
         == Ok([Q] + Interleave(Segments(e)[2..], Q), Segments(e)[1])
  {
    var gs := Segments(e);
    SegmentsMatchKeys(e);
    var marker := KeyStrings(EntryKeys)[1];
    assert gs[0] + [Q] + Interleave(gs[1..], Q) == marker + Interleave(gs[1..], Q);
    KeyedConsumes(marker, Interleave(gs[1..], Q));
    ValueStage(e, 1);
  }

  /** The group title runs to the quote before the comma. */
  lemma GroupTitleReads(gt: string, t: string)
    requires Q !in gt
    ensures ParseGroupTitle("\" group-title=\"" + (gt + ("\"," + t))) == Ok("\"," + t, gt)
  {
    var marker := GroupTitle.AsStr();
    assert marker == "\" group-title=\"";
    var x := gt + ("\"," + t);
    assert (marker + x)[|marker|..] == x;
    assert x == gt + "\"," + t;
    FoundAfter(gt, "\",", t);
    assert x[..|gt|] == gt;
    assert x[|gt|..] == "\"," + t;
  }

  lemma GroupStage(e: PlaylistEntry)
    requires RoundTripSafe(e)
    ensures ParseGroupTitle([Q] + Interleave(Segments(e)[8..], Q))
         == Ok("\"," + (e.name + ("\n" + e.url)), e.groupTitle)
  {
    var gs := Segments(e);
    InterleaveLast(gs, Q);
    InterleaveStep(gs, 9, Q);
    InterleaveStep(gs, 8, Q);
    var t := e.name + ("\n" + e.url);
    assert [Q] + Interleave(gs[8..], Q) == "\" group-title=\"" + (e.groupTitle + ("\"," + t));
    GroupTitleReads(e.groupTitle, t);
  }

  /** Name up to the newline, url to the end of the text. */
  lemma NameAndUrlReads(name: string, url: string)
    requires '\n' !in name && '\n' !in url && '\0' !in url
    ensures ParseNameAndUrl("\"," + (name + ("\n" + url))) == Ok("", (name, url))
  {
    NameTag(name + ("\n" + url));
    NameTake(name, url);
    var i2 := "\n" + url;
    assert i2 != [] && i2[0] == '\n' && i2[1..] == url;
    LineEndWhole(url);
    assert url[|url|..] == "" && url[..|url|] == url;
  }

  lemma NameTag(t: string)
    ensures Tag("\",", "\"," + t) == Ok(t, "\",")
  {
    assert ("\"," + t)[2..] == t;
  }

  lemma NameTake(name: string, url: string)
    requires '\n' !in name
    ensures TakeUntil("\n", name + ("\n" + url)) == Ok("\n" + url, name)
  {
    var i1 := name + ("\n" + url);
    assert i1 == name + "\n" + url;
    FoundAfter(name, "\n", url);
    assert i1[..|name|] == name;
    assert i1[|name|..] == "\n" + url;
  }

  lemma LineEndWhole(s: string)
    requires '\n' !in s && '\0' !in s
    ensures LineEnd(s) == |s|
  {
  }

  /** `PlaylistEntry::parse` as the composition of its steps. */
  lemma EntrySteps(i: string, i1: string, i2: string, i3: string, i4: string, i5: string, i6: string,
                   i7: string, e: PlaylistEntry, xui: string)
    requires ParseDuration(i) == Ok(i1, e.duration)
    requires ParseXuiId(i1) == Ok(i2, xui)
    requires ParseTvgId(i2) == Ok(i3, e.tvgId)
    requires ParseTvgName(i3) == Ok(i4, e.tvgName)
    requires ParseTvgLogo(i4) == Ok(i5, e.tvgLogo)
    requires ParseGroupTitle(i5) == Ok(i6, e.groupTitle)
    requires ParseNameAndUrl(i6) == Ok(i7, (e.name, e.url))
    ensures ParseEntry(i) == Ok(i7, e)
  {
  }

  lemma DisplayStart(e: PlaylistEntry)
    ensures Display(e) == Extinf + IntToString(e.duration)
                          + (Segments(e)[0] + [Q] + Interleave(Segments(e)[1..], Q))
  {
    var gs := Segments(e);
    DisplaySegments(e);
    InterleaveStep(gs, 0, Q);
    assert gs[0..] == gs;
  }

  lemma AttributeStages(e: PlaylistEntry)
    requires RoundTripSafe(e)
    ensures ParseTvgId([Q] + Interleave(Segments(e)[2..], Q)) == Ok([Q] + Interleave(Segments(e)[4..], Q), e.tvgId)
    ensures ParseTvgName([Q] + Interleave(Segments(e)[4..], Q)) == Ok([Q] + Interleave(Segments(e)[6..], Q), e.tvgName)
    ensures ParseTvgLogo([Q] + Interleave(Segments(e)[6..], Q)) == Ok([Q] + Interleave(Segments(e)[8..], Q), e.tvgLogo)
  {
    TvgIdStage(e);
    TvgNameStage(e);
    TvgLogoStage(e);
  }

  lemma TvgIdStage(e: PlaylistEntry)
    requires RoundTripSafe(e)
    ensures ParseTvgId([Q] + Interleave(Segments(e)[2..], Q)) == Ok([Q] + Interleave(Segments(e)[4..], Q), e.tvgId)
  {
    var gs := Segments(e);
    KeyedStage(e, 3, 2);
    SegmentValues(e);
    KeyedTvgId([Q] + Interleave(gs[2..], Q), [Q] + Interleave(gs[4..], Q), gs[3]);
  }

  lemma TvgNameStage(e: PlaylistEntry)
    requires RoundTripSafe(e)
    ensures ParseTvgName([Q] + Interleave(Segments(e)[4..], Q)) == Ok([Q] + Interleave(Segments(e)[6..], Q), e.tvgName)
  {
    var gs := Segments(e);
    KeyedStage(e, 5, 3);
    SegmentValues(e);
    KeyedTvgName([Q] + Interleave(gs[4..], Q), [Q] + Interleave(gs[6..], Q), gs[5]);
  }

  lemma TvgLogoStage(e: PlaylistEntry)
    requires RoundTripSafe(e)
    ensures ParseTvgLogo([Q] + Interleave(Segments(e)[6..], Q)) == Ok([Q] + Interleave(Segments(e)[8..], Q), e.tvgLogo)
  {
    var gs := Segments(e);
    KeyedStage(e, 7, 4);
    SegmentValues(e);
    KeyedTvgLogo([Q] + Interleave(gs[6..], Q), [Q] + Interleave(gs[8..], Q), gs[7]);
  }

  lemma KeyedTvgId(x: string, y: string, v: string)
    requires ParseKeyed(KeyStrings(EntryKeys)[2], x) == Ok(y, v)
    ensures ParseTvgId(x) == Ok(y, v)
  {
    assert KeyStrings(EntryKeys)[2] == EntryKeys[2].AsStr();
  }

  lemma KeyedTvgName(x: string, y: string, v: string)
    requires ParseKeyed(KeyStrings(EntryKeys)[3], x) == Ok(y, v)
    ensures ParseTvgName(x) == Ok(y, v)
  {
    assert KeyStrings(EntryKeys)[3] == EntryKeys[3].AsStr();
  }

  lemma KeyedTvgLogo(x: string, y: string, v: string)
    requires ParseKeyed(KeyStrings(EntryKeys)[4], x) == Ok(y, v)
    ensures ParseTvgLogo(x) == Ok(y, v)
  {
    assert KeyStrings(EntryKeys)[4] == EntryKeys[4].AsStr();
  }

  /** The record written by `Display` parses back to the same entry with nothing left over. */
  lemma ParseDisplay(e: PlaylistEntry)
    requires RoundTripSafe(e)
    ensures ParseEntry(Display(e)) == Ok("", e)
  {
    var gs := Segments(e);
    var i1 := gs[0] + [Q] + Interleave(gs[1..], Q);
    DisplayStart(e);
    DurationReads(e.duration, i1);
    XuiStage(e);
    AttributeStages(e);
    GroupStage(e);
    NameAndUrlReads(e.name, e.url);
    EntrySteps(Display(e), i1, [Q] + Interleave(gs[2..], Q), [Q] + Interleave(gs[4..], Q),
      [Q] + Interleave(gs[6..], Q), [Q] + Interleave(gs[8..], Q), "\"," + (e.name + ("\n" + e.url)), "", e, gs[1]);
  }

  // The `test_parse_playlist_entry` unit test: its record is the display form
  // of the entry it expects, surrounded by a newline and an indented newline.

  const SampleEntry: PlaylistEntry :=
    PlaylistEntry(-1, "ABC.se", "ABC FHD SE", "https://logo.com", "Sweden", "ABC FHD SE",
                  "http://abc.xyz:8080/user/pass/360")

  lemma AttributeSafeByChars(v: string)
    requires Q !in v && '#' !in v && (v == [] || v[|v| - 1] != '=')
    ensures AttributeSafe(v)
  {
    AbsentByChar(Extinf, v, '#');
  }

  lemma SampleAttributesSafe()
    ensures AttributeSafe("ABC.se") && AttributeSafe("ABC FHD SE")
    ensures AttributeSafe("https://logo.com") && AttributeSafe("Sweden")
  {
    AttributeSafeByChars("ABC.se");
    AttributeSafeByChars("ABC FHD SE");
    AttributeSafeByChars("https://logo.com");
    AttributeSafeByChars("Sweden");
  }

  lemma SampleNameSafe()
    ensures Absent(Extinf, "ABC FHD SE")
  {
    AbsentByChar(Extinf, "ABC FHD SE", '#');
  }

  lemma SampleUrlSafe()
    ensures Absent(Extinf, "http://abc.xyz:8080/user/pass/360")
  {
    AbsentByChar(Extinf, "http://abc.xyz:8080/user/pass/360", '#');
  }

  lemma SampleNameChars()
    ensures Q !in "ABC FHD SE" && '\n' !in "ABC FHD SE"
  {
  }

  lemma SampleUrlChars()
    ensures Q !in "http://abc.xyz:8080/user/pass/360" && '\n' !in "http://abc.xyz:8080/user/pass/360"
    ensures '\0' !in "http://abc.xyz:8080/user/pass/360"
  {
    var u := "http://abc.xyz:8080/user/pass/360";
    forall i | 0 <= i < |u|
      ensures u[i] != Q && u[i] != '\n' && u[i] != '\0'
    {
      assert u[i] == '/' || u[i] == ':' || u[i] == '.' || 'a' <= u[i] <= 'z' || '0' <= u[i] <= '9';
    }
  }

  lemma SampleSafe()
    ensures RoundTripSafe(SampleEntry)
  {
    SampleAttributesSafe();
    SampleNameSafe();
    SampleUrlSafe();
    SampleNameChars();
    SampleUrlChars();
  }

  /** The test record, trimmed, reads as the expected entry with nothing left over. */
  lemma SampleRecordParses()
    ensures ParseEntry(Trim("\n" + Display(SampleEntry) + "\n        ")) == Ok("", SampleEntry)
  {
    SampleSafe();
    SampleUrlEnd();
    PaddedRecordParses(SampleEntry);
  }

  lemma SampleUrlEnd()
    ensures SampleEntry.url != [] && !IsWhitespace(SampleEntry.url[|SampleEntry.url| - 1])
  {
  }

  /** A record between the test's padding reads back as its entry. */
  lemma PaddedRecordParses(e: PlaylistEntry)
    requires RoundTripSafe(e) && e.url != [] && !IsWhitespace(e.url[|e.url| - 1])
    ensures ParseEntry(Trim("\n" + Display(e) + "\n        ")) == Ok("", e)
  {
    var d := Display(e);
    DisplayEnds(e);
    PaddingIsWhitespace();
    TrimPadded("\n", d, "\n        ");
    ParseDisplay(e);
  }

  lemma PaddingIsWhitespace()
    ensures AllWhitespace("\n") && AllWhitespace("\n        ") && !IsWhitespace('#')
  {
  }
}
