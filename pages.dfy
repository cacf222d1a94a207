/** The server-rendered video list: the duration text, the mark-read button
    and the round trip it makes, the row of one video, and the list query the
    page runs. */
module Pages {
  import opened Wrappers
  import opened Strings
  import opened Clock
  import opened VideoTypes
  import Queries
  import Format

  /** The text written for hours, minutes and seconds: hours only when
      positive, unpadded and followed by ':', then minutes and seconds with
      at least two digits each. */
  function ClockText(h: int, m: int, s: int): string {
    (if h > 0 then IntToString(h) + ":" else "") + ZeroPadInt(m, 2) + ":" + ZeroPadInt(s, 2)
  }

  /** The text `VideoDuration` appends. A missing duration counts as 0, and
      the parts divide with truncation as Rust's `/` and `%` do. */
  function DurationText(duration: Option<int>): string {
    var d := duration.GetOr(0);
    ClockText(Hours(d), Minutes(d), Seconds(d))
  }

  /** `render_to`: the buffer grows by the duration text. */
  method RenderTo(duration: Option<int>, buffer: string) returns (out: string)
    ensures out == buffer + DurationText(duration)
  {
    var d := duration.GetOr(0);
    var hours := Hours(d);
    var minutes := Minutes(d);
    var seconds := Seconds(d);
    out := buffer;
    if hours > 0 {
      out := out + IntToString(hours) + ":";
    }
    out := out + ZeroPadInt(minutes, 2) + ":" + ZeroPadInt(seconds, 2);
    AppendClockText(buffer, hours, minutes, seconds);
  }

  /** Appending the pieces one at a time appends the whole text. */
  lemma AppendClockText(buffer: string, h: int, m: int, s: int)
    ensures h > 0 ==> (buffer + IntToString(h) + ":" + ZeroPadInt(m, 2) + ":" + ZeroPadInt(s, 2)
      == buffer + ClockText(h, m, s))
    ensures h <= 0 ==> buffer + ZeroPadInt(m, 2) + ":" + ZeroPadInt(s, 2) == buffer + ClockText(h, m, s)
  {
    AppendThree(buffer, IntToString(h), ZeroPadInt(m, 2), ZeroPadInt(s, 2));
    AppendTwo(buffer, ZeroPadInt(m, 2), ZeroPadInt(s, 2));
  }

  lemma AppendThree(buffer: string, a: string, b: string, c: string)
    ensures buffer + a + ":" + b + ":" + c == buffer + ((a + ":") + b + ":" + c)
  {
  }

  lemma AppendTwo(buffer: string, b: string, c: string)
    ensures buffer + b + ":" + c == buffer + ("" + b + ":" + c)
  {
  }

  /** The minutes and seconds of a non-negative part are padded as the web
      app pads them. */
  lemma ZeroPadOfNat(n: nat)
    ensures ZeroPadInt(n, 2) == Pad2(n)
  {
  }

  /** The text of non-negative parts, piece by piece. */
  lemma ClockTextOfNats(h: nat, m: nat, s: nat)
    ensures h > 0 ==> ClockText(h, m, s) == Decimal(h) + ":" + Pad2(m) + ":" + Pad2(s)
    ensures h == 0 ==> ClockText(h, m, s) == Pad2(m) + ":" + Pad2(s)
  {
    ZeroPadOfNat(m);
    ZeroPadOfNat(s);
    AppendTwo("", Pad2(m), Pad2(s));
  }

  /** A video without a duration shows "00:00". */
  lemma NoDurationText()
    ensures DurationText(None) == "00:00"
  {
    assert DurationText(None) == ClockText(0, 0, 0) by { ZeroParts(); }
    var z := Pad2(0);
    assert z == ['0', '0'] by { Pad2OfDigit(0); }
    assert ClockText(0, 0, 0) == z + ":" + z by { ClockTextOfNats(0, 0, 0); }
    ZerosText(z);
  }

  lemma ZeroParts()
    ensures Hours(0) == 0 && Minutes(0) == 0 && Seconds(0) == 0
  {
  }

  lemma ZerosText(z: string)
    requires z == ['0', '0']
    ensures z + ":" + z == "00:00"
  {
  }

  /** The fields of the text for non-negative parts. */
  function ClockFields(h: nat, m: nat, s: nat): (r: seq<string>)
    ensures |r| == if h > 0 then 3 else 2
  {
    if h > 0 then [Decimal(h), Pad2(m), Pad2(s)] else [Pad2(m), Pad2(s)]
  }

  lemma JoinOfThree(a: string, b: string, c: string)
    ensures Join([a, b, c], ":") == a + ":" + b + ":" + c
  {
    assert [a, b, c][1..] == [b, c];
    JoinOfTwo(b, c);
  }

  lemma JoinOfTwo(b: string, c: string)
    ensures Join([b, c], ":") == b + ":" + c
  {
    assert [b, c][1..] == [c];
  }

  /** For non-negative parts the text is its fields joined by ':'. */
  lemma ClockTextJoin(h: nat, m: nat, s: nat)
    ensures ClockText(h, m, s) == Join(ClockFields(h, m, s), ":")
  {
    ClockTextOfNats(h, m, s);
    if h > 0 {
      JoinOfThree(Decimal(h), Pad2(m), Pad2(s));
    } else {
      JoinOfTwo(Pad2(m), Pad2(s));
    }
  }

  /** Every field is a digit string without ':'. */
  lemma ClockFieldsDigits(h: nat, m: nat, s: nat)
    ensures forall i :: 0 <= i < |ClockFields(h, m, s)| ==> AllDigits(ClockFields(h, m, s)[i]) && ':' !in ClockFields(h, m, s)[i]
  {
    var pm, ps := Pad2(m), Pad2(s);
    assert AllDigits(pm) && ':' !in pm by { Pad2Digits(m); }
    assert AllDigits(ps) && ':' !in ps by { Pad2Digits(s); }
    if h > 0 {
      var dh := Decimal(h);
      assert AllDigits(dh) && ':' !in dh by { DigitsHaveNoColon(dh); }
      assert ClockFields(h, m, s) == [dh, pm, ps];
      PlainFieldsOfThree(dh, pm, ps);
    } else {
      assert ClockFields(h, m, s) == [pm, ps];
      PlainFieldsOfTwo(pm, ps);
    }
  }

  /** Digit strings without ':' stay so when listed as fields. */
  lemma PlainFieldsOfThree(a: string, b: string, c: string)
    requires AllDigits(a) && AllDigits(b) && AllDigits(c)
    requires ':' !in a && ':' !in b && ':' !in c
    ensures forall i :: 0 <= i < |[a, b, c]| ==> AllDigits([a, b, c][i]) && ':' !in [a, b, c][i]
  {
  }

  lemma PlainFieldsOfTwo(b: string, c: string)
    requires AllDigits(b) && AllDigits(c)
    requires ':' !in b && ':' !in c
    ensures forall i :: 0 <= i < |[b, c]| ==> AllDigits([b, c][i]) && ':' !in [b, c][i]
  {
  }

  /** Every field is a digit string without ':'; read back in base 60 they
      give the parts' seconds. */
  lemma ClockFieldsValue(h: nat, m: nat, s: nat)
    ensures forall i :: 0 <= i < |ClockFields(h, m, s)| ==> AllDigits(ClockFields(h, m, s)[i]) && ':' !in ClockFields(h, m, s)[i]
    ensures ClockValue(ClockFields(h, m, s)) == h * 3600 + m * 60 + s
  {
    ClockFieldsDigits(h, m, s);
    Pad2Digits(m);
    Pad2Digits(s);
    if h > 0 {
      ClockOfThreeValues(Decimal(h), Pad2(m), Pad2(s), h, m, s);
    } else {
      ClockOfTwoValues(Pad2(m), Pad2(s), m, s);
    }
  }

  /** Three digit fields of values x, y and z read back as x hours, y
      minutes and z seconds. */
  lemma ClockOfThreeValues(a: string, b: string, c: string, x: nat, y: nat, z: nat)
    requires AllDigits(a) && AllDigits(b) && AllDigits(c)
    requires Value(a) == x && Value(b) == y && Value(c) == z
    ensures ClockValue([a, b, c]) == x * 3600 + y * 60 + z
  {
    ClockOfThree(a, b, c);
  }

  /** Two digit fields of values y and z read back as y minutes and z
      seconds. */
  lemma ClockOfTwoValues(b: string, c: string, y: nat, z: nat)
    requires AllDigits(b) && AllDigits(c)
    requires Value(b) == y && Value(c) == z
    ensures ClockValue([b, c]) == y * 60 + z
  {
    ClockOfTwo(b, c);
  }

  /** The text of a non-negative duration splits on ':' into two fields
      below an hour and three from an hour on; minutes and seconds have two
      digits each; and the fields read back in base 60 give the duration. */
  lemma DurationRoundTrip(d: nat)
    ensures var fields := Split(DurationText(Some(d)), ':');
      && |fields| == (if d < 3600 then 2 else 3)
      && (forall i :: 0 <= i < |fields| ==> AllDigits(fields[i]))
      && |fields[|fields| - 2]| == 2 && |fields[|fields| - 1]| == 2
      && ClockValue(fields) == d
  {
    PartsRecompose(d);
    var h, m, s := Hours(d), Minutes(d), Seconds(d);
    ClockTextJoin(h, m, s);
    ClockFieldsValue(h, m, s);
    SplitJoin(ClockFields(h, m, s), ':');
    Pad2Digits(m);
    Pad2Digits(s);
  }

  /** A number of two or more digits is not padded. */
  lemma Pad2OfTwoDigits(n: nat)
    requires n >= 10
    ensures Pad2(n) == Decimal(n)
  {
    assert |Decimal(n)| == |Decimal(n / 10)| + 1;
  }

  /** Below an hour both pages show the same text. */
  lemma AgreeBelowAnHour(d: nat)
    requires d < 3600
    ensures DurationText(Some(d)) == Format.FormatDuration(d)
  {
    PartsRecompose(d);
    ClockTextJoin(0, Minutes(d), Seconds(d));
    assert Format.Segments(d) == [Minutes(d), Seconds(d)];
    Format.FieldsOfTwo(Minutes(d), Seconds(d));
  }

  /** From an hour on the two differ only in the hours field: the Rust page
      writes it unpadded, the web app pads it to two digits. */
  lemma AgreeFromAnHour(d: nat)
    requires d >= 3600
    ensures Format.FormatDuration(d)
      == Pad2(Hours(d)) + ":" + Pad2(Minutes(d)) + ":" + Pad2(Seconds(d))
    ensures DurationText(Some(d))
      == Decimal(Hours(d)) + ":" + Pad2(Minutes(d)) + ":" + Pad2(Seconds(d))
  {
    PartsRecompose(d);
    var h, m, s := Hours(d), Minutes(d), Seconds(d);
    ClockTextJoin(h, m, s);
    JoinOfThree(Decimal(h), Pad2(m), Pad2(s));
    assert Format.Segments(d) == [h, m, s];
    Format.FieldsOfThree(h, m, s);
    JoinOfThree(Pad2(h), Pad2(m), Pad2(s));
  }

  lemma Regroup(a: string, b: string, c: string)
    ensures a + ":" + b + ":" + c == a + (":" + b + ":" + c)
  {
  }

  lemma ZeroInFront(a: string, rest: string)
    ensures ("0" + a) + rest == "0" + (a + rest)
  {
  }

  /** From ten hours on the hours field has two digits in both texts. */
  lemma AgreeFromTenHours(d: nat)
    requires d >= 36000
    ensures DurationText(Some(d)) == Format.FormatDuration(d)
  {
    AgreeFromAnHour(d);
    assert Hours(d) >= 10;
    Pad2OfTwoDigits(Hours(d));
  }

  /** From one to ten hours the web app pads the single hours digit. */
  lemma ZeroBelowTenHours(d: nat)
    requires 3600 <= d < 36000
    ensures Format.FormatDuration(d) == "0" + DurationText(Some(d))
  {
    AgreeFromAnHour(d);
    PartsRecompose(d);
    var h, m, s := Hours(d), Minutes(d), Seconds(d);
    assert h < 10;
    Pad2OfDigit(h);
    assert Pad2(h) == "0" + Decimal(h);
    var rest := ":" + Pad2(m) + ":" + Pad2(s);
    Regroup(Pad2(h), Pad2(m), Pad2(s));
    Regroup(Decimal(h), Pad2(m), Pad2(s));
    ZeroInFront(Decimal(h), rest);
  }

  /** The Rust duration text and the web app's `formatDuration` agree below
      one hour and from ten hours on; between them the web app's text has
      one more leading zero. */
  lemma DurationAgreesWithFormat(d: nat)
    ensures d < 3600 || d >= 36000 ==> DurationText(Some(d)) == Format.FormatDuration(d)
    ensures 3600 <= d < 36000 ==> Format.FormatDuration(d) == "0" + DurationText(Some(d))
  {
    if d < 3600 {
      AgreeBelowAnHour(d);
    } else if d >= 36000 {
      AgreeFromTenHours(d);
    } else {
      ZeroBelowTenHours(d);
    }
  }

  /** The values the button posts back: the read flag to store and the
      list's mode. */
  datatype MarkReadPayload = MarkReadPayload(read: bool, unreadOnly: bool)

  /** The two icons: an envelope offers "mark read", an open envelope
      "mark unread". */
  datatype Icon = Email | Drafts

  function MarkReadIcon(read: bool): (r: Icon)
    ensures r == Email <==> read
  {
    if read then Email else Drafts
  }

  /** Rust's `Display` of a `bool`. */
  function BoolText(b: bool): (r: string)
    ensures |r| == 4 || |r| == 5
  {
    if b then "true" else "false"
  }

  /** A leading "true" or "false" and what follows it. */
  function ParseBool(s: string): (r: Option<(bool, string)>)
    ensures r.Some? ==> s == BoolText(r.value.0) + r.value.1
  {
    if |s| >= 4 && s[..4] == "true" then
      assert s == s[..4] + s[4..];
      Some((true, s[4..]))
    else if |s| >= 5 && s[..5] == "false" then
      assert s == s[..5] + s[5..];
      Some((false, s[5..]))
    else None
  }

  lemma ParseBoolText(b: bool, rest: string)
    ensures ParseBool(BoolText(b) + rest) == Some((b, rest))
  {
    var s := BoolText(b) + rest;
    if b {
      assert s[..4] == "true";
    } else {
      assert s[..4] != "true" by { assert s[0] == 'f'; }
      assert s[..5] == "false";
    }
  }

  const ValsOpen: string := "{\"read\":"
  const ValsMiddle: string := ",\"unread_only\":"
  const ValsClose: string := "}"

  /** The `hx-vals` JSON object the button carries. */
  function ValsText(p: MarkReadPayload): string {
    ValsOpen + BoolText(p.read) + ValsMiddle + BoolText(p.unreadOnly) + ValsClose
  }

  /** What follows `pre` at the front of `s`, when `s` starts with it. */
  function StripPrefix(s: string, pre: string): (r: Option<string>)
    ensures r.Some? ==> s == pre + r.value
  {
    if |s| >= |pre| && s[..|pre|] == pre then
      assert s == pre + s[|pre|..];
      Some(s[|pre|..])
    else None
  }

  lemma StripPrefixOf(pre: string, rest: string)
    ensures StripPrefix(pre + rest, pre) == Some(rest)
  {
    var s := pre + rest;
    assert s[..|pre|] == pre && s[|pre|..] == rest;
  }

  lemma Rebracket(a: string, b: string, c: string, d: string, e: string)
    ensures a + (b + (c + (d + e))) == a + b + c + d + e
  {
  }

  /** The form the handler receives for an `hx-vals` object of this shape:
      both fields are required booleans. */
  function ParseVals(s: string): (r: Option<MarkReadPayload>)
    ensures r.Some? ==> s == ValsText(r.value)
  {
    match StripPrefix(s, ValsOpen)
    case None => None
    case Some(s1) =>
      match ParseBool(s1)
      case None => None
      case Some((read, s2)) =>
        match StripPrefix(s2, ValsMiddle)
        case None => None
        case Some(s3) =>
          match ParseBool(s3)
          case None => None
          case Some((unreadOnly, s4)) =>
            if s4 != ValsClose then None
            else
              Rebracket(ValsOpen, BoolText(read), ValsMiddle, BoolText(unreadOnly), s4);
              Some(MarkReadPayload(read, unreadOnly))
  }

  /** The button's values read back as the payload they were written from. */
  lemma ValsRoundTrip(p: MarkReadPayload)
    ensures ParseVals(ValsText(p)) == Some(p)
  {
    var s3 := BoolText(p.unreadOnly) + ValsClose;
    var s2 := ValsMiddle + s3;
    var s1 := BoolText(p.read) + s2;
    Rebracket(ValsOpen, BoolText(p.read), ValsMiddle, BoolText(p.unreadOnly), ValsClose);
    StripPrefixOf(ValsOpen, s1);
    ParseBoolText(p.read, s2);
    StripPrefixOf(ValsMiddle, s3);
    ParseBoolText(p.unreadOnly, ValsClose);
  }

  /** The mark-read button as rendered. */
  datatype MarkReadButton = MarkReadButton(
    ariaLabel: string,
    hxPost: string,
    hxSwap: string,
    hxTarget: string,
    hxVals: string,
    icon: Icon)

  /** `mark_read_action_fragment`: the button offers the opposite of the
      current read state. When it would mark a video read in an unread-only
      list it deletes its row; otherwise it replaces itself. */
  function MarkReadFragment(id: string, read: bool, unreadOnly: bool): (r: MarkReadButton)
    ensures ParseVals(r.hxVals) == Some(MarkReadPayload(!read, unreadOnly))
    ensures (r.hxTarget, r.hxSwap) == (if unreadOnly && !read then ("closest li", "delete") else ("this", "outerHTML"))
    ensures r.icon == Email <==> !read
  {
    var nextRead := !read;
    var (target, swap) := if unreadOnly && nextRead then ("closest li", "delete") else ("this", "outerHTML");
    ValsRoundTrip(MarkReadPayload(nextRead, unreadOnly));
    MarkReadButton(
      "Mark" + (if nextRead then "Read" else "Unread"),
      "_action/mark_read/" + id,
      swap,
      target,
      ValsText(MarkReadPayload(nextRead, unreadOnly)),
      MarkReadIcon(nextRead))
  }

  /** `mark_read_action`: the video's read flag becomes the posted one and
      the answer is the button for the new state. */
  function MarkReadAction(v: VideoListResult, p: MarkReadPayload): (r: (VideoListResult, MarkReadButton))
    ensures r.0 == v.(read := p.read)
    ensures r.1 == MarkReadFragment(v.id, p.read, p.unreadOnly)
  {
    (v.(read := p.read), MarkReadFragment(v.id, p.read, p.unreadOnly))
  }

  /** A click flips the stored flag and keeps the list's mode; the new button
      offers the flip back, so a second click restores the video. */
  lemma ClickToggles(v: VideoListResult, unreadOnly: bool)
    ensures var b := MarkReadFragment(v.id, v.read, unreadOnly);
      var p := ParseVals(b.hxVals);
      && p == Some(MarkReadPayload(!v.read, unreadOnly))
      && var (after, next) := MarkReadAction(v, p.value);
         && after.read == !v.read && after.id == v.id
         && next == MarkReadFragment(v.id, !v.read, unreadOnly)
         && var q := ParseVals(next.hxVals);
            q.Some? && MarkReadAction(after, q.value).0 == v
  {
  }

  /** `home_page`: the list shows unread videos only unless the query says
      otherwise. */
  function HomeUnreadOnly(query: Option<bool>): (r: bool)
    ensures query.None? ==> r
    ensures query.Some? ==> r == query.value
  {
    query.GetOr(true)
  }

  /** The query `video_list` runs: 50 per page, newest created first, and
      only unread videos in unread-only mode. */
  function VideoListFilters(unreadOnly: bool): (f: Queries.ListQueryFilters)
    ensures f.read == (if unreadOnly then Some(false) else None)
    ensures f.perPage == Some(50) && f.orderBy == Some("-created_at")
  {
    Queries.ListQueryFilters(None, Some(50), Some("-created_at"), [],
      if unreadOnly then Some(false) else None, None, None, None, None)
  }

  /** The `read = $n` condition: a video is listed when there is no read
      filter or its flag equals the filter's. */
  predicate Listed(f: Queries.ListQueryFilters, read: bool) {
    f.read.None? || f.read.value == read
  }

  /** "-created_at" orders the newest first. */
  lemma NewestFirst()
    ensures Queries.OrderClause(Some("-created_at")) == Ok("created_at DESC")
  {
    Queries.ParseOrderByOfName(Queries.CreatedAt);
    assert "-" + "created_at" == "-created_at";
    assert "created_at" + " " + "DESC" == "created_at DESC";
  }

  /** The list query has the read condition as its only filter in unread-only
      mode and none otherwise, is ordered by creation time descending and
      binds the first page of 50. */
  lemma VideoListQuery(unreadOnly: bool)
    ensures var f := VideoListFilters(unreadOnly);
      && Queries.Present(f) == (if unreadOnly then [("read", Queries.Eq, Queries.ReadValue(false))] else [])
      && Queries.OrderClause(f.orderBy) == Ok("created_at DESC")
      && Queries.ListBindings(f) == [Queries.OrganizationId, Queries.ActorIds, Queries.IntValue(50), Queries.IntValue(0)]
           + (if unreadOnly then [Queries.ReadValue(false)] else [])
  {
    var f := VideoListFilters(unreadOnly);
    NewestFirst();
    Queries.PresentOnlyRead(f);
    if unreadOnly {
      assert Queries.Values(Queries.Present(f)) == [Queries.ReadValue(false)];
    } else {
      assert Queries.Values(Queries.Present(f)) == [];
    }
  }

  /** The button deletes its row exactly when the click takes the video out
      of the list being shown, and otherwise only redraws itself. */
  lemma RowRemovedIffUnlisted(id: string, read: bool, unreadOnly: bool)
    ensures var b := MarkReadFragment(id, read, unreadOnly);
      && (b.hxSwap == "delete" <==> !Listed(VideoListFilters(unreadOnly), !read))
      && (b.hxTarget == "closest li" <==> b.hxSwap == "delete")
  {
  }

  /** The link that switches the list's mode. */
  function ToggleHref(unreadOnly: bool): string {
    "/?unread_only=" + BoolText(!unreadOnly)
  }

  const ToggleQueryKey: string := "/?unread_only="

  /** The `unread_only` the home page reads from such a link; anything else
      leaves it absent. */
  function HrefUnreadOnly(href: string): (r: Option<bool>)
  {
    if |href| >= |ToggleQueryKey| && href[..|ToggleQueryKey|] == ToggleQueryKey then
      match ParseBool(href[|ToggleQueryKey|..])
      case Some((b, rest)) => if rest == "" then Some(b) else None
      case None => None
    else None
  }

  /** Following the switch link shows the other mode. */
  lemma ToggleFlips(unreadOnly: bool)
    ensures HomeUnreadOnly(HrefUnreadOnly(ToggleHref(unreadOnly))) == !unreadOnly
  {
    var href := ToggleHref(unreadOnly);
    assert href[..|ToggleQueryKey|] == ToggleQueryKey;
    assert href[|ToggleQueryKey|..] == BoolText(!unreadOnly) + "";
    ParseBoolText(!unreadOnly, "");
  }

  /** One row of the list. */
  datatype Row = Row(
    id: string,
    hxGet: string,
    trigger: string,
    heading: string,
    detail: string,
    link: Option<string>,
    markRead: Option<MarkReadButton>)

  /** `video_row_fragment`: a row that is not ready refetches itself every
      five seconds and shows the title, else the url, and its state; a ready
      row links to the document, shows the title and the duration, and has
      the mark-read button. */
  function VideoRow(v: VideoListResult, unreadOnly: bool): (r: Row)
    ensures r.trigger == "none" <==> v.processingState == Ready
    ensures r.trigger != "none" ==> r.trigger == "load delay:5s"
    ensures r.markRead.Some? <==> v.processingState == Ready
    ensures r.link.Some? <==> v.processingState == Ready
    ensures r.markRead.Some? ==> r.markRead.value == MarkReadFragment(v.id, v.read, unreadOnly)
    ensures v.processingState == Ready ==> r.heading == v.title.GetOr("") && r.detail == DurationText(v.duration)
    ensures v.processingState != Ready ==>
      r.heading == (if v.title.Some? then v.title.value else v.url.GetOr(""))
      && r.detail == Display(v.processingState)
  {
    var ready := v.processingState == Ready;
    var trigger := if ready then "none" else "load delay:5s";
    if ready then
      Row(v.id, "_action/videos/" + v.id, trigger, v.title.GetOr(""), DurationText(v.duration),
        Some("docs/" + v.id), Some(MarkReadFragment(v.id, v.read, unreadOnly)))
    else
      Row(v.id, "_action/videos/" + v.id, trigger, v.title.Or(v.url).GetOr(""), Display(v.processingState),
        None, None)
  }

  /** A row stops polling exactly when its video is ready, and only a ready
      row offers the mark-read button, which then deletes the row exactly
      when the click takes the video out of the list. */
  lemma RowLifecycle(v: VideoListResult, unreadOnly: bool)
    requires Listed(VideoListFilters(unreadOnly), v.read)
    ensures var r := VideoRow(v, unreadOnly);
      && (r.trigger == "load delay:5s" <==> r.markRead.None?)
      && (r.markRead.Some? ==> (r.markRead.value.hxSwap == "delete" <==> unreadOnly))
  {
    RowRemovedIffUnlisted(v.id, v.read, unreadOnly);
  }
}
