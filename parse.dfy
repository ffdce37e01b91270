/**
 * One playlist record of the extended M3U feed: the entry type, the
 * combinator parser that reads a record in a fixed field order, and the
 * `Display` form that writes it back with a literal `{XUI_ID}` placeholder.
 */
module Parse {
  import opened Wrappers
  import opened Strings

  datatype PlaylistEntry = PlaylistEntry(
    duration: I32,
    tvgId: string,
    tvgName: string,
    tvgLogo: string,
    groupTitle: string,
    name: string,
    url: string)

  /** nom's `IResult`: the input left over and the value read, or an error. */
  datatype IResult<T> = Ok(rest: string, value: T) | Err

  /** The markers that open the header fields. */
  datatype EntryKey = Duration | XuiId | TvgId | TvgName | TvgLogo | GroupTitle
  {
    function AsStr(): string
    {
      match this
      case Duration => "#EXTINF:"
      case XuiId => " xui-id=\""
      case TvgId => "\" tvg-id=\""
      case TvgName => "\" tvg-name=\""
      case TvgLogo => "\" tvg-logo=\""
      case GroupTitle => "\" group-title=\""
    }
  }

  /** The order in which `take_until_key` tries the markers. */
  const EntryKeys: seq<EntryKey> := [Duration, XuiId, TvgId, TvgName, TvgLogo, GroupTitle]

  /** The text that `Display` writes in place of the discarded `xui-id`. */
  const XuiPlaceholder := "{XUI_ID}"

  // ---------------------------------------------------------------------------
  // Combinators
  // ---------------------------------------------------------------------------

  /** `tag(t)`: `s` must start with `t`, which is consumed. */
  function Tag(t: string, s: string): IResult<string>
  {
    if t <= s then Ok(s[|t|..], t) else Err
  }

  /** `take_until(p)`: everything before the first occurrence of `p`, which stays in the input. */
  function TakeUntil(p: string, s: string): (r: IResult<string>)
    ensures r.Err? <==> Absent(p, s)
    ensures r.Ok? ==> r.value + r.rest == s && p <= r.rest
    ensures r.Ok? ==> forall i :: 0 <= i < |r.value| ==> !StartsAt(s, p, i)
  {
    match IndexOf(s, p)
    case None => Err
    case Some(i) =>
      assert s[..i] + s[i..] == s;
      Ok(s[i..], s[..i])
  }

  /** `alt` over `take_until` of each marker: the first marker that occurs at all decides. */
  function TakeUntilAny(keys: seq<string>, s: string): (r: IResult<string>)
    ensures r.Err? <==> forall k :: 0 <= k < |keys| ==> Absent(keys[k], s)
  {
    if keys == [] then Err
    else
      match TakeUntil(keys[0], s)
      case Ok(rest, v) => Ok(rest, v)
      case Err =>
        var r := TakeUntilAny(keys[1..], s);
        assert forall k :: 1 <= k < |keys| ==> keys[k] == keys[1..][k - 1];
        r
  }

  function KeyStrings(ks: seq<EntryKey>): (r: seq<string>)
    ensures |r| == |ks| && forall k :: 0 <= k < |ks| ==> r[k] == ks[k].AsStr()
  {
    if ks == [] then [] else [ks[0].AsStr()] + KeyStrings(ks[1..])
  }

  lemma TakeUntilAnySplits(keys: seq<string>, s: string)
    ensures TakeUntilAny(keys, s).Ok? ==> TakeUntilAny(keys, s).value + TakeUntilAny(keys, s).rest == s
  {
    if keys != [] && TakeUntil(keys[0], s).Err? {
      TakeUntilAnySplits(keys[1..], s);
    }
  }

  /**
   * `alt` picks the first marker in list order that occurs at all, and the
   * value is the text before that marker's first occurrence.
   */
  lemma {:induction false} TakeUntilAnyPicks(keys: seq<string>, s: string, k: nat, i: nat)
    requires k < |keys| && forall j :: 0 <= j < k ==> Absent(keys[j], s)
    requires IndexOf(s, keys[k]) == Some(i)
    ensures TakeUntilAny(keys, s) == Ok(s[i..], s[..i])
  {
    if k > 0 {
      TakeUntilAnyPicks(keys[1..], s, k - 1, i);
    }
  }

  lemma EndsWithTrans(a: string, b: string, c: string, d: string)
    ensures EndsWith(a, b) && EndsWith(b, c) && EndsWith(c, d) ==> EndsWith(a, d)
  {
  }

  lemma NewlineInSuffix(a: string, b: string)
    ensures EndsWith(a, b) && '\n' in b ==> '\n' in a
  {
    if EndsWith(a, b) && '\n' in b {
      var k :| 0 <= k < |b| && b[k] == '\n';
      assert a[|a| - |b| + k] == '\n';
    }
  }

  /** `take_until_key` */
  function TakeUntilKey(s: string): IResult<string>
  {
    TakeUntilAny(KeyStrings(EntryKeys), s)
  }

  /** Index of the first `\n` or `\0`, or `|s|`. */
  function LineEnd(s: string): (r: nat)
    ensures r <= |s| && forall i :: 0 <= i < r ==> s[i] != '\n' && s[i] != '\0'
    ensures r < |s| ==> s[r] == '\n' || s[r] == '\0'
  {
    if |s| == 0 || s[0] == '\n' || s[0] == '\0' then 0 else 1 + LineEnd(s[1..])
  }

  // ---------------------------------------------------------------------------
  // The field parsers, in the order `PlaylistEntry::parse` runs them
  // ---------------------------------------------------------------------------

  /** `#EXTINF:` then the text up to the first space, read as an `i32`. */
  function ParseDuration(i: string): (r: IResult<I32>)
    ensures r.Ok? ==> EndsWith(i, r.rest)
  {
    match Tag(Duration.AsStr(), i)
    case Err => Err
    case Ok(i1, _) =>
      match TakeUntil(" ", i1)
      case Err => Err
      case Ok(i2, text) =>
        match ParseI32(text)
        case None => Err
        case Some(d) => Ok(i2, d)
  }

  /** `tag(marker)` followed by `take_until_key`. */
  function ParseKeyed(marker: string, i: string): (r: IResult<string>)
    ensures r.Ok? ==> EndsWith(i, r.rest)
  {
    match Tag(marker, i)
    case Err => Err
    case Ok(i1, _) =>
      var r := TakeUntilKey(i1);
      if r.Err? then r
      else
        TakeUntilAnySplits(KeyStrings(EntryKeys), i1);
        SuffixOfRest(i, |marker|, r.value, r.rest);
        r
  }

  /** What is left after a prefix and a value are consumed is a suffix of the input. */
  lemma SuffixOfRest(i: string, n: nat, v: string, rest: string)
    requires n <= |i| && v + rest == i[n..]
    ensures EndsWith(i, rest)
  {
    assert i[|i| - |rest|..] == i[n..][|v|..];
  }

  function ParseXuiId(i: string): IResult<string> { ParseKeyed(XuiId.AsStr(), i) }
  function ParseTvgId(i: string): IResult<string> { ParseKeyed(TvgId.AsStr(), i) }
  function ParseTvgName(i: string): IResult<string> { ParseKeyed(TvgName.AsStr(), i) }
  function ParseTvgLogo(i: string): IResult<string> { ParseKeyed(TvgLogo.AsStr(), i) }

  /** The group title runs to the first `",`. */
  function ParseGroupTitle(i: string): (r: IResult<string>)
    ensures r.Ok? ==> EndsWith(i, r.rest)
  {
    match Tag(GroupTitle.AsStr(), i)
    case Err => Err
    case Ok(i1, _) => TakeUntil("\",", i1)
  }

  /** `",`, the name up to the first newline, the newline, then the url up to `\n`, `\0` or the end. */
  function ParseNameAndUrl(i: string): (r: IResult<(string, string)>)
    ensures r.Ok? ==> '\n' in i
  {
    match Tag("\",", i)
    case Err => Err
    case Ok(i1, _) =>
      match TakeUntil("\n", i1)
      case Err => Err
      case Ok(i2, name) =>
        if i2 == [] || i2[0] != '\n' then Err
        else
          assert i1 == i[2..] && i2 == i1[|name|..];
          assert i[2 + |name|] == '\n';
          var i3 := i2[1..];
          var n := LineEnd(i3);
          Ok(i3[n..], (name, i3[..n]))
  }

  /** `PlaylistEntry::parse`: the seven steps in order; the `xui-id` value is dropped. */
  function ParseEntry(i: string): (r: IResult<PlaylistEntry>)
    ensures r.Ok? ==> '\n' in i
  {
    match ParseDuration(i)
    case Err => Err
    case Ok(i1, duration) =>
    match ParseXuiId(i1)
    case Err => Err
    case Ok(i2, _) =>
    match ParseTvgId(i2)
    case Err => Err
    case Ok(i3, tvgId) =>
    match ParseTvgName(i3)
    case Err => Err
    case Ok(i4, tvgName) =>
    match ParseTvgLogo(i4)
    case Err => Err
    case Ok(i5, tvgLogo) =>
    match ParseGroupTitle(i5)
    case Err => Err
    case Ok(i6, groupTitle) =>
    match ParseNameAndUrl(i6)
    case Err => Err
    case Ok(i7, nameAndUrl) =>
      assert EndsWith(i, i6) by { EndsWithTrans(i, i1, i2, i3); EndsWithTrans(i, i3, i4, i5); EndsWithTrans(i, i5, i5, i6); }
      assert '\n' in i by { NewlineInSuffix(i, i6); }
      Ok(i7, PlaylistEntry(duration, tvgId, tvgName, tvgLogo, groupTitle, nameAndUrl.0, nameAndUrl.1))
  }

  // ---------------------------------------------------------------------------
  // What each step accepts
  // ---------------------------------------------------------------------------

  /**
   * The duration is the text between `#EXTINF:` and the first space; the
   * step fails when the marker, the space or a valid `i32` is missing.
   */
  lemma DurationIsFirstWord(i: string)
    ensures ParseDuration(i).Ok? <==>
      && Duration.AsStr() <= i && IndexOf(i[8..], " ").Some?
      && ParseI32(i[8..][..IndexOf(i[8..], " ").value]).Some?
    ensures ParseDuration(i).Ok? ==>
      var n := IndexOf(i[8..], " ").value;
      ParseDuration(i) == Ok(i[8..][n..], ParseI32(i[8..][..n]).value)
  {
  }

  /**
   * A keyed value runs to the first occurrence of the first marker, in
   * `EntryKeys` order, that occurs at all after the step's own marker.
   */
  lemma KeyedTakesFirstMarker(marker: string, i: string, k: nat, j: nat)
    requires marker <= i && k < |EntryKeys|
    requires forall m :: 0 <= m < k ==> Absent(KeyStrings(EntryKeys)[m], i[|marker|..])
    requires IndexOf(i[|marker|..], KeyStrings(EntryKeys)[k]) == Some(j)
    ensures ParseKeyed(marker, i) == Ok(i[|marker|..][j..], i[|marker|..][..j])
  {
    TakeUntilAnyPicks(KeyStrings(EntryKeys), i[|marker|..], k, j);
  }

  /** A keyed step fails exactly when its marker is missing or no marker follows it. */
  lemma KeyedFails(marker: string, i: string)
    ensures ParseKeyed(marker, i).Err? <==>
      !(marker <= i) || forall m :: 0 <= m < |EntryKeys| ==> Absent(KeyStrings(EntryKeys)[m], i[|marker|..])
  {
    if marker <= i {
      KeyedStepFails(marker, i, KeyStrings(EntryKeys));
    }
  }

  lemma KeyedStepFails(marker: string, i: string, keys: seq<string>)
    requires marker <= i && keys == KeyStrings(EntryKeys)
    ensures ParseKeyed(marker, i).Err? <==> TakeUntilAny(keys, i[|marker|..]).Err?
  {
    assert Tag(marker, i) == Ok(i[|marker|..], marker);
  }

  /**
   * After `",` the name runs to the first newline, and the url from there
   * to the next newline, NUL or the end of the input.
   */
  lemma NameAndUrlFields(i: string)
    requires ParseNameAndUrl(i).Ok?
    ensures var r := ParseNameAndUrl(i);
      && "\"," <= i && i[2..] == r.value.0 + "\n" + r.value.1 + r.rest
      && '\n' !in r.value.0 && '\n' !in r.value.1 && '\0' !in r.value.1
      && (r.rest == [] || r.rest[0] == '\n' || r.rest[0] == '\0')
  {
    var i1 := i[2..];
    var t := TakeUntil("\n", i1);
    var i3 := t.rest[1..];
    var n := LineEnd(i3);
    assert ParseNameAndUrl(i) == Ok(i3[n..], (t.value, i3[..n]));
    NoNewlineBefore(i1, t.value, t.rest);
    UrlLine(i3, n);
    NameLineSplit(i1, t.value, t.rest, i3, n);
  }

  lemma UrlLine(s: string, n: nat)
    requires n == LineEnd(s)
    ensures '\n' !in s[..n] && '\0' !in s[..n]
    ensures n == |s| || s[n..][0] == '\n' || s[n..][0] == '\0'
  {
    assert forall k :: 0 <= k < n ==> s[..n][k] == s[k];
  }

  /** Text before the first newline holds no newline. */
  lemma NoNewlineBefore(s: string, v: string, rest: string)
    requires v + rest == s && forall k :: 0 <= k < |v| ==> !StartsAt(s, "\n", k)
    ensures '\n' !in v
  {
    forall k | 0 <= k < |v|
      ensures v[k] != '\n'
    {
      assert !StartsAt(s, "\n", k);
      assert s[k] == v[k];
    }
  }

  lemma NameLineSplit(s: string, name: string, rest: string, i3: string, n: nat)
    requires name + rest == s && rest != [] && rest[0] == '\n' && i3 == rest[1..] && n <= |i3|
    ensures s == name + "\n" + i3[..n] + i3[n..]
  {
    assert rest == "\n" + i3;
    assert i3 == i3[..n] + i3[n..];
  }

  // ---------------------------------------------------------------------------
  // Display
  // ---------------------------------------------------------------------------

  /**
   * The header line after the duration: the fixed labels and the attribute
   * values in write order, then a comma and the name. Joined by `"`, they
   * give each value its pair of quotes.
   */
  function HeaderSegments(e: PlaylistEntry): (gs: seq<string>)
    ensures |gs| == 11
  {
    [" xui-id=", XuiPlaceholder, " tvg-id=", e.tvgId, " tvg-name=", e.tvgName,
     " tvg-logo=", e.tvgLogo, " group-title=", e.groupTitle, "," + e.name]
  }

  /** The first line of the display form; `HeaderLineFormat` spells it out as one format string. */
  function HeaderLine(e: PlaylistEntry): (r: string)
    ensures "#EXTINF:" <= r
    ensures 8 + |IntToString(e.duration)| <= |r|
    ensures ParseI32(r[8..8 + |IntToString(e.duration)|]) == Some(e.duration)
  {
    var d := IntToString(e.duration);
    var r := "#EXTINF:" + d + Interleave(HeaderSegments(e), '"');
    assert r[8..8 + |d|] == d;
    ParseDisplayedI32(e.duration);
    r
  }

  /** `impl Display for PlaylistEntry`: the header line, a newline, the url. */
  function Display(e: PlaylistEntry): (r: string)
    ensures "#EXTINF:" <= r
    ensures EndsWith(r, "\n" + e.url)
  {
    var h := HeaderLine(e);
    assert (h + "\n" + e.url)[|h|..] == "\n" + e.url;
    h + "\n" + e.url
  }
}
