/** The greedy grouping of timed transcript pieces into chunks, shared by
    the viewer's and the app's `align`: a piece joins the current chunk
    unless it starts more than one image interval after the chunk's start,
    in which case it opens a new chunk. A chunk's text is its pieces' texts
    joined by the space rule, and its end the latest end among them. */
module Chunking {
  /** `Math.floor` and `Math.ceil` on finite numbers. */
  function Floor(x: real): (r: int)
    ensures r as real <= x < r as real + 1.0
  {
    x.Floor
  }

  function Ceil(x: real): (r: int)
    ensures r as real - 1.0 < x <= r as real
  {
    -((-x).Floor)
  }

  function MaxReal(a: real, b: real): (r: real)
    ensures r >= a && r >= b && (r == a || r == b)
  {
    if a >= b then a else b
  }

  function MinInt(a: int, b: int): (r: int)
    ensures r <= a && r <= b && (r == a || r == b)
  {
    if a <= b then a else b
  }

  function MaxInt(a: int, b: int): (r: int)
    ensures r >= a && r >= b && (r == a || r == b)
  {
    if a >= b then a else b
  }

  /** `imageTimestamp`: the time of image `index`. */
  function ImageTimestamp(index: int, interval: real): real {
    index as real * interval
  }

  /** A transcript piece: `timestamp: [start, end]` and its text. */
  datatype TextPiece = TextPiece(start: real, end: real, text: string)

  /** An output chunk: `timestamp: [start, end]`, text and image range. */
  datatype ViewerChunk = ViewerChunk(start: real, end: real, text: string, images: seq<int>)

  /** Appending a piece's text: a space goes between only when the chunk
      already has text, the piece does not start with a space and the
      chunk does not end with one. */
  function JoinText(acc: string, add: string): (r: string)
    ensures acc == "" ==> r == add
    ensures r == acc + " " + add <==> acc != "" && (add == "" || add[0] != ' ') && acc[|acc| - 1] != ' '
    ensures r != acc + " " + add ==> r == acc + add
  {
    if acc != "" && (add == "" || add[0] != ' ') && acc[|acc| - 1] != ' ' then acc + " " + add else acc + add
  }

  /** The chunk a piece opens: starting and ending at the piece's start. */
  function Open(p: TextPiece): ViewerChunk {
    ViewerChunk(p.start, p.start, "", [])
  }

  /** Adding a piece to a chunk. */
  function Absorb(c: ViewerChunk, p: TextPiece): ViewerChunk {
    ViewerChunk(c.start, MaxReal(p.end, c.end), JoinText(c.text, p.text), c.images)
  }

  function Fill(c: ViewerChunk, pieces: seq<TextPiece>): ViewerChunk
    decreases |pieces|
  {
    if pieces == [] then c else Absorb(Fill(c, pieces[..|pieces| - 1]), pieces[|pieces| - 1])
  }

  /** The chunk a group of pieces makes. */
  function ChunkOf(group: seq<TextPiece>): ViewerChunk
    requires |group| > 0
  {
    Fill(Open(group[0]), group)
  }

  /** The grouping: consecutive runs of the pieces, a run ending where a
      piece starts more than `interval` after the run's first piece. */
  function Groups(texts: seq<TextPiece>, interval: real): (g: seq<seq<TextPiece>>)
    requires |texts| > 0
    ensures 1 <= |g| <= |texts|
    ensures forall i :: 0 <= i < |g| ==> |g[i]| > 0
    decreases |texts|
  {
    if |texts| == 1 then [texts]
    else
      var prev := Groups(texts[..|texts| - 1], interval);
      var p := texts[|texts| - 1];
      var last := prev[|prev| - 1];
      if p.start > last[0].start + interval then prev + [[p]]
      else prev[..|prev| - 1] + [last + [p]]
  }

  function ChunksOf(groups: seq<seq<TextPiece>>): (r: seq<ViewerChunk>)
    requires forall i :: 0 <= i < |groups| ==> |groups[i]| > 0
    ensures |r| == |groups|
  {
    seq(|groups|, i requires 0 <= i < |groups| => ChunkOf(groups[i]))
  }

  /** The chunks the grouping loop builds from `texts`. */
  function Chunks(texts: seq<TextPiece>, interval: real): (r: seq<ViewerChunk>)
    requires |texts| > 0
    ensures 1 <= |r| <= |texts|
  {
    ChunksOf(Groups(texts, interval))
  }

  function Flatten(groups: seq<seq<TextPiece>>): seq<TextPiece>
    decreases |groups|
  {
    if groups == [] then [] else Flatten(groups[..|groups| - 1]) + groups[|groups| - 1]
  }

  lemma FlattenAppend(groups: seq<seq<TextPiece>>, g: seq<TextPiece>)
    ensures Flatten(groups + [g]) == Flatten(groups) + g
  {
    assert (groups + [g])[..|groups|] == groups;
  }

  /** The groups are the pieces, in order, split into consecutive runs. */
  lemma {:induction false} GroupsPartition(texts: seq<TextPiece>, interval: real)
    requires |texts| > 0
    ensures Flatten(Groups(texts, interval)) == texts
    decreases |texts|
  {
    if |texts| > 1 {
      var front := texts[..|texts| - 1];
      var p := texts[|texts| - 1];
      assert texts == front + [p];
      var prev := Groups(front, interval);
      var m := |prev| - 1;
      var last := prev[m];
      GroupsPartition(front, interval);
      GroupsSnoc(front, p, interval);
      if p.start > last[0].start + interval {
        FlattenAppend(prev, [p]);
        assert Flatten(prev + [[p]]) == front + [p];
      } else {
        SplitLast(prev);
        FlattenAppend(prev[..m], last);
        FlattenAppend(prev[..m], last + [p]);
        assert Flatten(prev[..m] + [last + [p]]) == (Flatten(prev[..m]) + last) + [p];
      }
    } else {
      assert Groups(texts, interval) == [] + [texts];
      FlattenAppend([], texts);
    }
  }

  /** Every piece of a group starts within one interval of the group's
      first piece. */
  ghost predicate InWindow(g: seq<seq<TextPiece>>, interval: real)
    requires forall i :: 0 <= i < |g| ==> |g[i]| > 0
  {
    forall i, k :: 0 <= i < |g| && 0 <= k < |g[i]| ==> g[i][k].start <= g[i][0].start + interval
  }

  /** Each group after the first starts more than one interval after the
      previous group's first piece. */
  ghost predicate Separated(g: seq<seq<TextPiece>>, interval: real)
    requires forall i :: 0 <= i < |g| ==> |g[i]| > 0
  {
    forall i :: 0 < i < |g| ==> g[i][0].start > g[i - 1][0].start + interval
  }

  /** Opening a new group for a piece that starts past the last group's
      window keeps both properties. */
  lemma OpenKeepsWindows(prev: seq<seq<TextPiece>>, p: TextPiece, interval: real)
    requires |prev| > 0 && forall i :: 0 <= i < |prev| ==> |prev[i]| > 0
    requires InWindow(prev, interval) && Separated(prev, interval)
    requires p.start > prev[|prev| - 1][0].start + interval
    ensures forall i :: 0 <= i < |prev + [[p]]| ==> |(prev + [[p]])[i]| > 0
    ensures InWindow(prev + [[p]], interval) && Separated(prev + [[p]], interval)
  {
    var g := prev + [[p]];
    assert forall i :: 0 <= i < |prev| ==> g[i] == prev[i];
    assert g[|prev|] == [p];
  }

  /** Adding a piece within the last group's window to that group keeps
      both properties. */
  lemma JoinKeepsWindows(prev: seq<seq<TextPiece>>, p: TextPiece, interval: real)
    requires |prev| > 0 && forall i :: 0 <= i < |prev| ==> |prev[i]| > 0
    requires InWindow(prev, interval) && Separated(prev, interval)
    requires p.start <= prev[|prev| - 1][0].start + interval
    ensures var g := prev[..|prev| - 1] + [prev[|prev| - 1] + [p]];
      && (forall i :: 0 <= i < |g| ==> |g[i]| > 0)
      && InWindow(g, interval) && Separated(g, interval)
  {
    var m := |prev| - 1;
    var last := prev[m];
    var g := prev[..m] + [last + [p]];
    assert forall i :: 0 <= i < m ==> g[i] == prev[i];
    assert g[m] == last + [p];
    assert forall k :: 0 <= k < |last| ==> g[m][k] == last[k];
    assert g[m][|last|] == p;
    assert forall i :: 0 <= i < |g| ==> g[i][0] == prev[i][0];
  }

  lemma {:induction false} GroupsWindows(texts: seq<TextPiece>, interval: real)
    requires |texts| > 0 && interval >= 0.0
    ensures InWindow(Groups(texts, interval), interval)
    ensures Separated(Groups(texts, interval), interval)
    decreases |texts|
  {
    if |texts| > 1 {
      var front := texts[..|texts| - 1];
      var prev: seq<seq<TextPiece>> := Groups(front, interval);
      var p := texts[|texts| - 1];
      GroupsWindows(front, interval);
      if p.start > prev[|prev| - 1][0].start + interval {
        OpenKeepsWindows(prev, p, interval);
      } else {
        JoinKeepsWindows(prev, p, interval);
      }
    }
  }

  /** Chunk starts strictly increase. */
  lemma ChunkStartsIncrease(texts: seq<TextPiece>, interval: real, i: nat)
    requires |texts| > 0 && interval >= 0.0
    requires 0 < i < |Chunks(texts, interval)|
    ensures Chunks(texts, interval)[i - 1].start < Chunks(texts, interval)[i].start
  {
    var g: seq<seq<TextPiece>> := Groups(texts, interval);
    GroupsWindows(texts, interval);
    assert g[i][0].start > g[i - 1][0].start + interval;
    ChunkSpan(g[i]);
    ChunkSpan(g[i - 1]);
  }

  /** A filled chunk ends at the latest of its own end and its pieces' ends. */
  lemma {:induction false} FillEnd(c: ViewerChunk, pieces: seq<TextPiece>)
    ensures Fill(c, pieces).end >= c.end
    ensures forall k :: 0 <= k < |pieces| ==> Fill(c, pieces).end >= pieces[k].end
    ensures Fill(c, pieces).end == c.end || exists k :: 0 <= k < |pieces| && Fill(c, pieces).end == pieces[k].end
    ensures Fill(c, pieces).start == c.start && Fill(c, pieces).images == c.images
    decreases |pieces|
  {
    if pieces != [] {
      var front := pieces[..|pieces| - 1];
      FillEnd(c, front);
      var p := pieces[|pieces| - 1];
      if Fill(c, pieces).end != p.end && Fill(c, pieces).end != c.end {
        var k :| 0 <= k < |front| && Fill(c, front).end == front[k].end;
        assert pieces[k] == front[k];
      }
    }
  }

  /** A chunk starts at its first piece's start and ends at the latest end
      among its pieces (never before its start). */
  lemma ChunkSpan(group: seq<TextPiece>)
    requires |group| > 0
    ensures ChunkOf(group).start == group[0].start
    ensures ChunkOf(group).end >= group[0].start
    ensures forall k :: 0 <= k < |group| ==> ChunkOf(group).end >= group[k].end
    ensures ChunkOf(group).end == group[0].start ||
      exists k :: 0 <= k < |group| && ChunkOf(group).end == group[k].end
  {
    FillEnd(Open(group[0]), group);
  }

  /** Absorbing one more piece into the last group is absorbing it into
      the last chunk. */
  lemma ChunkOfSnoc(group: seq<TextPiece>, p: TextPiece)
    requires |group| > 0
    ensures ChunkOf(group + [p]) == Absorb(ChunkOf(group), p)
  {
    assert (group + [p])[..|group|] == group;
  }

  /** The chunks the loop has built after seeing the first `idx` pieces. */
  function Partial(texts: seq<TextPiece>, interval: real, idx: nat): (r: seq<ViewerChunk>)
    requires idx <= |texts|
    ensures idx > 0 ==> |r| >= 1
  {
    if idx == 0 then [] else Chunks(texts[..idx], interval)
  }

  /** One step of the loop on the chunks built so far: the next piece
      either opens a new chunk (which it then joins) or joins the last one. */
  lemma PartialStep(texts: seq<TextPiece>, interval: real, idx: nat)
    requires 0 < idx < |texts|
    ensures var prev := Partial(texts, interval, idx);
      var p := texts[idx];
      var cur := prev[|prev| - 1];
      Partial(texts, interval, idx + 1) ==
        if p.start > cur.start + interval then prev + [Absorb(Open(p), p)]
        else prev[..|prev| - 1] + [Absorb(cur, p)]
  {
    var front := texts[..idx];
    var p := texts[idx];
    assert texts[..idx + 1] == front + [p];
    var g := Groups(front, interval);
    var m := |g| - 1;
    var last := g[m];
    var prev := ChunksOf(g);
    assert Partial(texts, interval, idx) == prev;
    assert Partial(texts, interval, idx + 1) == ChunksOf(Groups(front + [p], interval));
    ChunkSpan(last);
    assert prev[m] == ChunkOf(last);
    GroupsSnoc(front, p, interval);
    if p.start > last[0].start + interval {
      assert Groups(front + [p], interval) == g + [[p]];
      ChunkOfSingle(p);
      ChunksOfSnoc(g, [p]);
    } else {
      assert Groups(front + [p], interval) == g[..m] + [last + [p]];
      ChunkOfSnoc(last, p);
      SplitLast(g);
      ChunksOfSnoc(g[..m], last);
      assert prev[..m] == ChunksOf(g[..m]);
      ChunksOfSnoc(g[..m], last + [p]);
    }
  }

  /** A non-empty sequence is its front and its last element. */
  lemma SplitLast<T>(s: seq<T>)
    requires |s| > 0
    ensures s == s[..|s| - 1] + [s[|s| - 1]]
  {
  }

  lemma ChunksOfSnoc(groups: seq<seq<TextPiece>>, g: seq<TextPiece>)
    requires |g| > 0 && forall i :: 0 <= i < |groups| ==> |groups[i]| > 0
    ensures ChunksOf(groups + [g]) == ChunksOf(groups) + [ChunkOf(g)]
  {
    var gs := groups + [g];
    assert forall i :: 0 <= i < |groups| ==> gs[i] == groups[i];
  }

  /** Piece `idx` starts beyond the window of the last chunk built so far. */
  predicate OpensChunk(texts: seq<TextPiece>, interval: real, idx: nat)
    requires 0 < idx < |texts|
  {
    var prev := Partial(texts, interval, idx);
    texts[idx].start > prev[|prev| - 1].start + interval
  }

  lemma ChunkOfSingle(p: TextPiece)
    ensures ChunkOf([p]) == Absorb(Open(p), p)
  {
    assert [p][..0] == [];
    assert Fill(Open(p), []) == Open(p);
  }

  /** Before any piece is seen the loop holds the first piece's opened
      chunk, which the first piece then joins. */
  lemma PartialFirst(texts: seq<TextPiece>, interval: real)
    requires 0 < |texts|
    ensures Partial(texts, interval, 1) == [Absorb(Open(texts[0]), texts[0])]
  {
    assert texts[..1] == [texts[0]];
    ChunkOfSingle(texts[0]);
    assert Groups([texts[0]], interval) == [[texts[0]]];
  }

  /** The pieces of the `multiple chunks smaller than image size` unit
      test. */
  function SmallPieces(): seq<TextPiece> {
    [TextPiece(0.0, 1.0, "a"), TextPiece(1.0, 2.0, "b"), TextPiece(2.0, 11.0, "c"),
     TextPiece(11.0, 12.0, "d"), TextPiece(12.0, 12.0, "e"), TextPiece(13.0, 14.0, "f")]
  }

  /** Adding a piece at the end extends the grouping of the others. */
  lemma GroupsSnoc(texts: seq<TextPiece>, p: TextPiece, interval: real)
    requires |texts| > 0
    ensures var prev := Groups(texts, interval);
      Groups(texts + [p], interval) ==
        if p.start > prev[|prev| - 1][0].start + interval then prev + [[p]]
        else prev[..|prev| - 1] + [prev[|prev| - 1] + [p]]
  {
    assert (texts + [p])[..|texts|] == texts;
  }

  lemma ChunkOfThree(p: TextPiece, q: TextPiece, r: TextPiece)
    ensures ChunkOf([p, q, r]) == Absorb(Absorb(Absorb(Open(p), p), q), r)
  {
    var g := [p, q, r];
    assert g[..2] == [p, q] && [p, q][..1] == [p] && [p][..0] == [];
    assert Fill(Open(p), [p]) == Absorb(Open(p), p);
    assert Fill(Open(p), [p, q]) == Absorb(Fill(Open(p), [p]), q);
    assert Fill(Open(p), g) == Absorb(Fill(Open(p), [p, q]), r);
  }

  /** A piece within the interval of the last group's first start joins it. */
  lemma GroupsJoin(texts: seq<TextPiece>, p: TextPiece, interval: real, g: seq<seq<TextPiece>>, last: seq<TextPiece>)
    requires |texts| > 0 && |last| > 0
    requires Groups(texts, interval) == g + [last]
    requires p.start <= last[0].start + interval
    ensures Groups(texts + [p], interval) == g + [last + [p]]
  {
    GroupsSnoc(texts, p, interval);
    assert (g + [last])[..|g|] == g;
  }

  /** A piece beyond the interval of the last group's first start opens a
      new group. */
  lemma GroupsOpen(texts: seq<TextPiece>, p: TextPiece, interval: real, g: seq<seq<TextPiece>>)
    requires |texts| > 0 && |g| > 0 && |g[|g| - 1]| > 0
    requires Groups(texts, interval) == g
    requires p.start > g[|g| - 1][0].start + interval
    ensures Groups(texts + [p], interval) == g + [[p]]
  {
    GroupsSnoc(texts, p, interval);
  }

  /** Three pieces whose starts fall in one window form one group. */
  lemma GroupsOfThree(a: TextPiece, b: TextPiece, c: TextPiece, interval: real)
    requires b.start <= a.start + interval && c.start <= a.start + interval
    ensures Groups([a] + [b] + [c], interval) == [[a] + [b] + [c]]
  {
    GroupsJoin([a], b, interval, [], [a]);
    GroupsJoin([a] + [b], c, interval, [], [a] + [b]);
  }

  /** After a first group, three pieces whose starts fall in a later window
      form a second group. */
  lemma GroupsOfSecondThree(first: seq<TextPiece>, d: TextPiece, e: TextPiece, f: TextPiece, interval: real)
    requires |first| > 0 && Groups(first, interval) == [first]
    requires d.start > first[0].start + interval
    requires e.start <= d.start + interval && f.start <= d.start + interval
    ensures Groups(first + [d] + [e] + [f], interval) == [first] + [[d] + [e] + [f]]
  {
    GroupsOpen(first, d, interval, [first]);
    GroupsJoin(first + [d], e, interval, [first], [d]);
    GroupsJoin(first + [d] + [e], f, interval, [first], [d] + [e]);
  }

  /** Six pieces whose starts fall into two windows form two groups of three. */
  lemma GroupsOfSix(a: TextPiece, b: TextPiece, c: TextPiece, d: TextPiece, e: TextPiece, f: TextPiece,
                    interval: real)
    requires b.start <= a.start + interval && c.start <= a.start + interval
    requires d.start > a.start + interval
    requires e.start <= d.start + interval && f.start <= d.start + interval
    ensures Groups([a, b, c, d, e, f], interval) == [[a, b, c], [d, e, f]]
  {
    GroupsOfThree(a, b, c, interval);
    GroupsOfSecondThree([a] + [b] + [c], d, e, f, interval);
    assert [a] + [b] + [c] + [d] + [e] + [f] == [a, b, c, d, e, f];
    assert [a] + [b] + [c] == [a, b, c] && [d] + [e] + [f] == [d, e, f];
  }

  lemma SmallPiecesGroups()
    ensures Groups(SmallPieces(), 10.0) ==
      [[SmallPieces()[0], SmallPieces()[1], SmallPieces()[2]], [SmallPieces()[3], SmallPieces()[4], SmallPieces()[5]]]
  {
    var t := SmallPieces();
    GroupsOfSix(t[0], t[1], t[2], t[3], t[4], t[5], 10.0);
    assert t == [t[0], t[1], t[2], t[3], t[4], t[5]];
  }

  /** Three pieces of single words make a chunk from the first start to the
      latest end whose text is the words separated by single spaces. */
  lemma ChunkOfWords(p: TextPiece, q: TextPiece, r: TextPiece)
    requires p.text != "" && q.text != "" && r.text != ""
    requires q.text[0] != ' ' && r.text[0] != ' '
    requires p.text[|p.text| - 1] != ' ' && q.text[|q.text| - 1] != ' '
    ensures ChunkOf([p, q, r]) == ViewerChunk(p.start, MaxReal(r.end, MaxReal(q.end, MaxReal(p.end, p.start))),
      p.text + " " + q.text + " " + r.text, [])
  {
    ChunkOfThree(p, q, r);
    var pq := p.text + " " + q.text;
    assert JoinText(p.text, q.text) == pq;
    assert pq[|pq| - 1] == q.text[|q.text| - 1];
    assert JoinText(pq, r.text) == pq + " " + r.text;
  }

  /** With a 10-second interval they form two chunks: "a b c" from 0 to 11
      and "d e f" from 11 to 14. */
  lemma SmallPiecesChunks()
    ensures Chunks(SmallPieces(), 10.0) ==
      [ViewerChunk(0.0, 11.0, "a b c", []), ViewerChunk(11.0, 14.0, "d e f", [])]
  {
    var t := SmallPieces();
    SmallPiecesGroups();
    var g := Groups(t, 10.0);
    assert Chunks(t, 10.0) == [ChunkOf(g[0]), ChunkOf(g[1])];
    ChunkOfWords(t[0], t[1], t[2]);
    ChunkOfWords(t[3], t[4], t[5]);
    assert "a" + " " + "b" + " " + "c" == "a b c";
    assert "d" + " " + "e" + " " + "f" == "d e f";
  }
  /** One piece of a single word makes a chunk over the piece with its word. */
  lemma ChunkOfWord(p: TextPiece)
    ensures ChunkOf([p]) == ViewerChunk(p.start, MaxReal(p.end, p.start), p.text, [])
  {
    ChunkOfSingle(p);
  }

  /** Two pieces of single words make a chunk from the first start to the
      latest end whose text is the two words separated by a space. */
  lemma ChunkOfTwoWords(p: TextPiece, q: TextPiece)
    requires p.text != "" && q.text != "" && q.text[0] != ' ' && p.text[|p.text| - 1] != ' '
    ensures ChunkOf([p, q]) == ViewerChunk(p.start, MaxReal(q.end, MaxReal(p.end, p.start)), p.text + " " + q.text, [])
  {
    assert [p, q][..1] == [p] && [p][..0] == [];
    assert Fill(Open(p), [p]) == Absorb(Open(p), p);
    assert Fill(Open(p), [p, q]) == Absorb(Fill(Open(p), [p]), q);
  }

  /** The pieces of the `text chunks somewhat larger than image interval`
      unit test. */
  function LargerPieces(): seq<TextPiece> {
    [TextPiece(0.0, 1.0, "a"), TextPiece(1.0, 15.0, "b"), TextPiece(15.0, 31.0, "c"),
     TextPiece(31.0, 38.0, "d"), TextPiece(38.0, 45.0, "e"), TextPiece(45.0, 50.0, "f")]
  }

  /** After earlier groups, a piece beyond the last group's window opens a
      group that the next piece, within the new window, joins. */
  lemma GroupsOfLaterPair(texts: seq<TextPiece>, g: seq<seq<TextPiece>>, d: TextPiece, e: TextPiece, interval: real)
    requires |texts| > 0 && |g| > 0 && |g[|g| - 1]| > 0 && Groups(texts, interval) == g
    requires d.start > g[|g| - 1][0].start + interval && e.start <= d.start + interval
    ensures Groups(texts + [d] + [e], interval) == g + [[d] + [e]]
  {
    GroupsOpen(texts, d, interval, g);
    GroupsJoin(texts + [d], e, interval, g, [d]);
  }

  /** After earlier groups, a piece within the last group's window joins it
      and the next piece, beyond that window, opens a new group. */
  lemma GroupsJoinThenOpen(texts: seq<TextPiece>, g: seq<seq<TextPiece>>, last: seq<TextPiece>,
                           p: TextPiece, q: TextPiece, interval: real)
    requires |texts| > 0 && |last| > 0 && Groups(texts, interval) == g + [last]
    requires p.start <= last[0].start + interval && q.start > last[0].start + interval
    ensures Groups(texts + [p] + [q], interval) == g + [last + [p]] + [[q]]
  {
    var g1 := g + [last + [p]];
    assert Groups(texts + [p], interval) == g1 by {
      GroupsJoin(texts, p, interval, g, last);
    }
    assert |g1| > 0 && g1[|g1| - 1] == last + [p];
    GroupsOpen(texts + [p], q, interval, g1);
  }

  /** After earlier groups, a piece beyond the last group's window opens a
      group that the next piece joins, and the piece after that opens
      another. */
  lemma GroupsOfLaterPairThenOne(texts: seq<TextPiece>, g: seq<seq<TextPiece>>, d: TextPiece, e: TextPiece,
                                 f: TextPiece, interval: real)
    requires |texts| > 0 && |g| > 0 && |g[|g| - 1]| > 0 && Groups(texts, interval) == g
    requires d.start > g[|g| - 1][0].start + interval
    requires e.start <= d.start + interval && f.start > d.start + interval
    ensures Groups(texts + [d] + [e] + [f], interval) == g + [[d] + [e]] + [[f]]
  {
    var g1 := g + [[d] + [e]];
    assert Groups(texts + [d] + [e], interval) == g1 by {
      GroupsOfLaterPair(texts, g, d, e, interval);
    }
    assert |g1| > 0 && g1[|g1| - 1] == [d] + [e];
    GroupsOpen(texts + [d] + [e], f, interval, g1);
  }

  /** Six pieces whose starts open, join, open, open, join and open form
      four groups. */
  lemma GroupsOfFour(a: TextPiece, b: TextPiece, c: TextPiece, d: TextPiece, e: TextPiece, f: TextPiece,
                     interval: real)
    requires b.start <= a.start + interval && c.start > a.start + interval
    requires d.start > c.start + interval
    requires e.start <= d.start + interval && f.start > d.start + interval
    ensures Groups([a] + [b] + [c] + [d] + [e] + [f], interval) == [[a] + [b]] + [[c]] + [[d] + [e]] + [[f]]
  {
    var g2 := [[a] + [b]] + [[c]];
    assert Groups([a] + [b] + [c], interval) == g2 by {
      GroupsJoinThenOpen([a], [], [a], b, c, interval);
      assert [] + [[a] + [b]] == [[a] + [b]];
    }
    GroupsOfLaterPairThenOne([a] + [b] + [c], g2, d, e, f, interval);
  }

  lemma LargerPiecesGroups()
    ensures var t := LargerPieces();
      Groups(t, 10.0) == [[t[0], t[1]], [t[2]], [t[3], t[4]], [t[5]]]
  {
    var t := LargerPieces();
    GroupsOfFour(t[0], t[1], t[2], t[3], t[4], t[5], 10.0);
    assert t == [t[0]] + [t[1]] + [t[2]] + [t[3]] + [t[4]] + [t[5]];
    assert [t[0]] + [t[1]] == [t[0], t[1]] && [t[3]] + [t[4]] == [t[3], t[4]];
    assert [[t[0], t[1]]] + [[t[2]]] + [[t[3], t[4]]] + [[t[5]]] ==
      [[t[0], t[1]], [t[2]], [t[3], t[4]], [t[5]]];
  }

  /** With a 10-second interval they form four chunks: "a b" from 0 to 15,
      "c" from 15 to 31, "d e" from 31 to 45 and "f" from 45 to 50. */
  lemma LargerPiecesChunks()
    ensures Chunks(LargerPieces(), 10.0) ==
      [ViewerChunk(0.0, 15.0, "a b", []), ViewerChunk(15.0, 31.0, "c", []),
       ViewerChunk(31.0, 45.0, "d e", []), ViewerChunk(45.0, 50.0, "f", [])]
  {
    var t := LargerPieces();
    LargerPiecesGroups();
    var g := Groups(t, 10.0);
    assert Chunks(t, 10.0) == [ChunkOf(g[0]), ChunkOf(g[1]), ChunkOf(g[2]), ChunkOf(g[3])];
    ChunkOfTwoWords(t[0], t[1]);
    ChunkOfWord(t[2]);
    ChunkOfTwoWords(t[3], t[4]);
    ChunkOfWord(t[5]);
    assert "a" + " " + "b" == "a b";
    assert "d" + " " + "e" == "d e";
  }

  /** The pieces of the `text chunks span multiple image intervals` unit
      test (`start` 0) and of the `no text at start of video` unit test
      (`start` 15). */
  function SpanningPieces(start: real): seq<TextPiece> {
    [TextPiece(start, 33.0, "a"), TextPiece(33.0, 35.0, "b"), TextPiece(35.0, 50.0, "c")]
  }

  /** Three pieces whose second starts beyond the first's window, and whose
      third joins the second, form two groups. */
  lemma GroupsOfOneThenTwo(a: TextPiece, b: TextPiece, c: TextPiece, interval: real)
    requires b.start > a.start + interval && c.start <= b.start + interval
    ensures Groups([a, b, c], interval) == [[a], [b, c]]
  {
    GroupsOpen([a], b, interval, [[a]]);
    assert [a] + [b] == [a, b];
    GroupsJoin([a, b], c, interval, [[a]], [b]);
    assert [a, b] + [c] == [a, b, c];
    assert [b] + [c] == [b, c];
    assert [[a]] + [[b] + [c]] == [[a], [b, c]];
  }

  /** When the first piece starts before 23 seconds, a 10-second interval
      makes two chunks: "a" from its start to 33 and "b c" from 33 to 50. */
  lemma SpanningPiecesChunks(start: real)
    requires start <= 33.0 && start + 10.0 < 33.0
    ensures Chunks(SpanningPieces(start), 10.0) ==
      [ViewerChunk(start, 33.0, "a", []), ViewerChunk(33.0, 50.0, "b c", [])]
  {
    var t := SpanningPieces(start);
    GroupsOfOneThenTwo(t[0], t[1], t[2], 10.0);
    assert t == [t[0], t[1], t[2]];
    var g := Groups(t, 10.0);
    assert Chunks(t, 10.0) == [ChunkOf(g[0]), ChunkOf(g[1])];
    ChunkOfWord(t[0]);
    ChunkOfTwoWords(t[1], t[2]);
    assert "b" + " " + "c" == "b c";
  }
}
