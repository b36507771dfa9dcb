/**
 * The /chat command of src/commands/textgen/chat.ts: the splitText chunker
 * that cuts the model's answer into Discord-sized messages, and the assembly
 * of the user's turn (text attachments, image names, the stored
 * conversation).
 *
 * Lengths are counted in characters; JavaScript counts UTF-16 code units,
 * which differ only for characters outside the Basic Multilingual Plane.
 */
module ChatCommand {
  import opened Text
  import opened TextGen

  // ---------------------------------------------------------------------------
  // splitText: specification

  /** The chunker's state: the chunks emitted so far, the chunk being built
      and whether a code fence is open. */
  datatype Splitter = Splitter(chunks: seq<string>, current: string, open: bool)

  const Start := Splitter([], "", false)

  /** text.split(/\r?\n/): the pieces between line feeds, each without the
      carriage return that may precede its line feed. */
  function SplitLines(text: string): (lines: seq<string>)
    ensures |lines| == |Split(text, '\n')|
  {
    var pieces := Split(text, '\n');
    seq(|pieces|, i requires 0 <= i < |pieces| =>
      if i < |pieces| - 1 && pieces[i] != [] && pieces[i][|pieces[i]| - 1] == '\r'
      then pieces[i][..|pieces[i]| - 1] else pieces[i])
  }

  /** Whether a line opens or closes a code block. */
  predicate IsFence(line: string) {
    StartsWith(Trim(line), "```")
  }

  /** pushChunk: emits the current chunk, trimmed. With a fence open the
      chunk is closed with a fence first and the next chunk reopens it. */
  function Flush(s: Splitter): Splitter {
    if s.open then Splitter(s.chunks + [Trim(s.current + "```\n")], "```\n", true)
    else Splitter(s.chunks + [Trim(s.current)], "", false)
  }

  /** The hard-split loop over the rest of an over-long line: each pass
      appends as much as fits (JavaScript slice with the possibly negative
      space left) and flushes while something of the line remains. */
  function HardSplit(s: Splitter, rest: string, maxLength: int): Splitter
    requires maxLength > 5
    decreases |rest|, if |s.current| + 1 >= maxLength then 1 else 0
  {
    if rest == [] then s
    else
      var cut := SliceIndex(|rest|, maxLength - |s.current| - 1);
      var s' := s.(current := s.current + rest[..cut]);
      if rest[cut..] == [] then s'
      else HardSplit(Flush(s'), rest[cut..], maxLength)
  }

  /** The segments the hard-split loop consumes, in order. */
  function Segments(s: Splitter, rest: string, maxLength: int): seq<string>
    requires maxLength > 5
    decreases |rest|, if |s.current| + 1 >= maxLength then 1 else 0
  {
    if rest == [] then []
    else
      var cut := SliceIndex(|rest|, maxLength - |s.current| - 1);
      var s' := s.(current := s.current + rest[..cut]);
      if rest[cut..] == [] then [rest[..cut]]
      else [rest[..cut]] + Segments(Flush(s'), rest[cut..], maxLength)
  }

  /** The fence toggle at the top of the for loop, done before the line is
      placed. */
  function Toggle(s: Splitter, line: string): Splitter {
    if IsFence(line) then s.(open := !s.open) else s
  }

  /** Append the line to the current chunk if it fits, hard-split it if it
      is longer than a chunk, or flush and start a new chunk with it. */
  function Place(t: Splitter, line: string, maxLength: int): Splitter
    requires maxLength > 5
  {
    if |t.current| + |line| + 1 > maxLength then
      if |line| + 1 > maxLength then
        var h := HardSplit(t, line, maxLength);
        h.(current := h.current + "\n")
      else
        var f := Flush(t);
        f.(current := f.current + line + "\n")
    else t.(current := t.current + line + "\n")
  }

  /** One pass of the for loop. */
  function PlaceLine(s: Splitter, line: string, maxLength: int): Splitter
    requires maxLength > 5
  {
    Place(Toggle(s, line), line, maxLength)
  }

  /** The state after the for loop has placed the given lines. */
  function Feed(s: Splitter, lines: seq<string>, maxLength: int): Splitter
    requires maxLength > 5
  {
    if lines == [] then s
    else PlaceLine(Feed(s, lines[..|lines| - 1], maxLength), lines[|lines| - 1], maxLength)
  }

  /** The trailing chunk is emitted only if it has non-white-space content,
      closed with a fence if one is open. */
  function Finish(s: Splitter): seq<string> {
    if Trim(s.current) != [] then
      s.chunks + [Trim(if s.open then s.current + "```" else s.current)]
    else s.chunks
  }

  /** What splitText returns. */
  function Chunks(text: string, maxLength: int): seq<string>
    requires maxLength > 5
  {
    Finish(Feed(Start, SplitLines(text), maxLength))
  }

  // ---------------------------------------------------------------------------
  // splitText: properties

  /** A line that fits is appended with its line break and nothing is
      emitted. */
  lemma PlaceLineFits(s: Splitter, line: string, maxLength: int)
    requires maxLength > 5 && |s.current| + |line| + 1 <= maxLength
    ensures PlaceLine(s, line, maxLength) == Splitter(s.chunks, s.current + line + "\n", s.open != IsFence(line))
  {
  }

  /** The first segment of a hard split is what fits of the line; the
      rest of the line is split from the flushed state. */
  lemma SegmentsFirst(s: Splitter, rest: string, maxLength: int, cut: int)
    requires maxLength > 5 && rest != []
    requires cut == SliceIndex(|rest|, maxLength - |s.current| - 1)
    ensures 0 <= cut <= |rest|
    ensures rest[cut..] == [] ==> Segments(s, rest, maxLength) == [rest[..cut]]
    ensures rest[cut..] != [] ==>
      Segments(s, rest, maxLength) == [rest[..cut]] + Segments(Flush(s.(current := s.current + rest[..cut])), rest[cut..], maxLength)
  {
  }

  /** Flattening a list that starts with x starts with x. */
  lemma FlattenCons(x: string, parts: seq<string>)
    ensures Flatten([x] + parts) == x + Flatten(parts)
  {
    assert ([x] + parts)[1..] == parts;
  }

  /** Cutting a string and gluing the pieces gives it back. */
  lemma TakeDrop(s: string, k: int)
    requires 0 <= k <= |s|
    ensures s[..k] + s[k..] == s
  {
  }

  /** A hard split consumes the whole line, segment after segment. */
  lemma {:induction false} SegmentsCoverLine(s: Splitter, rest: string, maxLength: int)
    requires maxLength > 5
    ensures Flatten(Segments(s, rest, maxLength)) == rest
    decreases |rest|, if |s.current| + 1 >= maxLength then 1 else 0
  {
    if rest != [] {
      var cut := SliceIndex(|rest|, maxLength - |s.current| - 1);
      SegmentsFirst(s, rest, maxLength, cut);
      if rest[cut..] == [] {
        FlattenCons(rest[..cut], []);
        assert rest[..cut] == rest;
      } else {
        var s' := s.(current := s.current + rest[..cut]);
        SegmentsCoverLine(Flush(s'), rest[cut..], maxLength);
        FlattenCons(rest[..cut], Segments(Flush(s'), rest[cut..], maxLength));
        TakeDrop(rest, cut);
      }
    }
  }

  /** The hard split flushes once between consecutive segments. */
  lemma {:induction false} HardSplitFlushes(s: Splitter, rest: string, maxLength: int)
    requires maxLength > 5 && rest != []
    ensures |HardSplit(s, rest, maxLength).chunks| == |s.chunks| + |Segments(s, rest, maxLength)| - 1
    decreases |rest|, if |s.current| + 1 >= maxLength then 1 else 0
  {
    var cut := SliceIndex(|rest|, maxLength - |s.current| - 1);
    var s' := s.(current := s.current + rest[..cut]);
    if rest[cut..] != [] {
      HardSplitFlushes(Flush(s'), rest[cut..], maxLength);
    }
  }

  /** What a flushed chunk starts with: the reopened fence, or nothing. */
  function Reopen(open: bool): string {
    if open then "```\n" else ""
  }

  /** The chunk a flush emits with a fence open: the text closed with a
      fence, trimmed. */
  function FenceClosed(x: string): string {
    Trim(x + "```\n")
  }

  /** What a flush makes of the text of a chunk. */
  function Closer(open: bool): string -> string {
    if open then FenceClosed else Trim
  }

  /** The chunk a flush emits for the text x. */
  function Closed(open: bool, x: string): string {
    Closer(open)(x)
  }

  /** f applied to every text, in order. */
  function Each(f: string -> string, xs: seq<string>): (r: seq<string>)
    ensures |r| == |xs|
  {
    if xs == [] then [] else [f(xs[0])] + Each(f, xs[1..])
  }

  /** The chunks emitted for the texts xs, in order. */
  function Closes(open: bool, xs: seq<string>): seq<string> {
    Each(Closer(open), xs)
  }

  lemma {:induction false} EachAppend(f: string -> string, a: seq<string>, b: seq<string>)
    ensures Each(f, a + b) == Each(f, a) + Each(f, b)
  {
    if a != [] {
      assert (a + b)[1..] == a[1..] + b;
      EachAppend(f, a[1..], b);
      AppendAssoc([f(a[0])], Each(f, a[1..]), Each(f, b));
    } else {
      assert a + b == b;
    }
  }

  lemma EachCons(f: string -> string, x: string, xs: seq<string>)
    ensures Each(f, [x] + xs) == [f(x)] + Each(f, xs)
  {
    assert ([x] + xs)[1..] == xs;
  }

  lemma EachSnoc(f: string -> string, xs: seq<string>, x: string)
    ensures Each(f, xs + [x]) == Each(f, xs) + [f(x)]
  {
    EachAppend(f, xs, [x]);
    assert [x][1..] == [];
  }

  /** A flush emits the current text closed and starts over from the
      reopened fence. */
  lemma FlushForm(s: Splitter)
    ensures Flush(s) == Splitter(s.chunks + [Closed(s.open, s.current)], Reopen(s.open), s.open)
  {
  }

  /** The texts of the chunks a hard split builds: the current text with
      the first segment, then each later segment after the reopened fence.
      All but the last are flushed; the last is left as the current
      chunk. */
  function Pieces(head: string, segs: seq<string>, open: bool): (r: seq<string>)
    requires segs != []
    ensures |r| == |segs|
    decreases |segs|
  {
    if |segs| == 1 then [head + segs[0]]
    else [head + segs[0]] + Pieces(Reopen(open), segs[1..], open)
  }

  /** Without a fence the pieces are the segments, the first one after the
      current text. */
  lemma {:induction false} PiecesFlatten(head: string, segs: seq<string>)
    requires segs != []
    ensures Flatten(Pieces(head, segs, false)) == head + Flatten(segs)
    decreases |segs|
  {
    if |segs| == 1 {
      FlattenSingle(head + segs[0]);
      FlattenSingle(segs[0]);
    } else {
      PiecesFlatten("", segs[1..]);
      FlattenCons(head + segs[0], Pieces("", segs[1..], false));
      assert segs == [segs[0]] + segs[1..];
      FlattenCons(segs[0], segs[1..]);
    }
  }

  /** One more flushed piece in front. */
  lemma PiecesStep(s: Splitter, seg: string, later: seq<string>)
    requires later != []
    ensures var p := Pieces(s.current, [seg] + later, s.open);
            var q := Pieces(Reopen(s.open), later, s.open);
            p == [s.current + seg] + q && p[..|p| - 1] == [s.current + seg] + q[..|q| - 1] && p[|p| - 1] == q[|q| - 1]
  {
    assert ([seg] + later)[1..] == later;
  }

  /** The last segment of a hard split is left as the current chunk. */
  lemma HardSplitLastSegment(s: Splitter, rest: string, maxLength: int, cut: int)
    requires maxLength > 5 && rest != []
    requires cut == SliceIndex(|rest|, maxLength - |s.current| - 1)
    requires 0 <= cut <= |rest| && rest[cut..] == []
    ensures Segments(s, rest, maxLength) == [rest]
    ensures var p := Pieces(s.current, Segments(s, rest, maxLength), s.open);
            HardSplit(s, rest, maxLength) == Splitter(s.chunks + Closes(s.open, p[..|p| - 1]), p[|p| - 1], s.open)
  {
    assert rest[..cut] == rest;
    assert s.chunks + Closes(s.open, []) == s.chunks;
  }

  /** A hard split that goes on after its first segment continues from the
      flushed state. */
  lemma HardSplitFirstFlush(s: Splitter, rest: string, maxLength: int, cut: int)
    requires maxLength > 5 && rest != []
    requires cut == SliceIndex(|rest|, maxLength - |s.current| - 1)
    requires 0 <= cut <= |rest| && rest[cut..] != []
    ensures var f := Splitter(s.chunks + [Closed(s.open, s.current + rest[..cut])], Reopen(s.open), s.open);
            HardSplit(s, rest, maxLength) == HardSplit(f, rest[cut..], maxLength)
            && Segments(s, rest, maxLength) == [rest[..cut]] + Segments(f, rest[cut..], maxLength)
  {
    SegmentsFirst(s, rest, maxLength, cut);
    HardSplitStep(s, rest, maxLength, cut);
    FlushForm(s.(current := s.current + rest[..cut]));
  }

  /** The chunks a hard split emits and the chunk it leaves: the pieces of
      the line, each but the last flushed after the chunks already
      there. */
  lemma {:induction false} HardSplitContents(s: Splitter, rest: string, maxLength: int)
    requires maxLength > 5 && rest != []
    ensures Segments(s, rest, maxLength) != []
    ensures var p := Pieces(s.current, Segments(s, rest, maxLength), s.open);
            HardSplit(s, rest, maxLength) == Splitter(s.chunks + Closes(s.open, p[..|p| - 1]), p[|p| - 1], s.open)
    decreases |rest|, if |s.current| + 1 >= maxLength then 1 else 0
  {
    var cut := SliceIndex(|rest|, maxLength - |s.current| - 1);
    if rest[cut..] == [] {
      HardSplitLastSegment(s, rest, maxLength, cut);
    } else {
      var f := Splitter(s.chunks + [Closed(s.open, s.current + rest[..cut])], Reopen(s.open), s.open);
      HardSplitFirstFlush(s, rest, maxLength, cut);
      HardSplitContents(f, rest[cut..], maxLength);
      ContentsAfterFlush(s.chunks, s.current, rest[..cut], Segments(f, rest[cut..], maxLength), s.open, Closer(s.open), HardSplit(f, rest[cut..], maxLength));
    }
  }

  /** The step of HardSplitContents: what the split after the first flush
      emits, put after the first flushed piece. */
  lemma ContentsAfterFlush(chunks: seq<string>, head: string, seg: string, later: seq<string>, open: bool, f: string -> string, h: Splitter)
    requires later != []
    requires var q := Pieces(Reopen(open), later, open);
             h == Splitter(chunks + [f(head + seg)] + Each(f, q[..|q| - 1]), q[|q| - 1], open)
    ensures var p := Pieces(head, [seg] + later, open);
            h == Splitter(chunks + Each(f, p[..|p| - 1]), p[|p| - 1], open)
  {
    var q := Pieces(Reopen(open), later, open);
    PiecesStep(Splitter(chunks, head, open), seg, later);
    EachCons(f, head + seg, q[..|q| - 1]);
    AppendAssoc(chunks, [f(head + seg)], Each(f, q[..|q| - 1]));
  }

  lemma AppendAssoc(a: seq<string>, b: seq<string>, c: seq<string>)
    ensures a + (b + c) == a + b + c
  {
  }

  /** Whether b extends a: chunks are only ever appended. */
  predicate Extends(b: seq<string>, a: seq<string>) {
    |a| <= |b| && b[..|a|] == a
  }

  lemma ExtendsTransitive(c: seq<string>, b: seq<string>, a: seq<string>)
    requires Extends(c, b) && Extends(b, a)
    ensures Extends(c, a)
  {
    assert c[..|a|] == c[..|b|][..|a|];
  }

  /** A flush appends one chunk and keeps the fence. */
  lemma FlushExtends(s: Splitter)
    ensures Extends(Flush(s).chunks, s.chunks) && |Flush(s).chunks| == |s.chunks| + 1 && Flush(s).open == s.open
  {
    var c := if s.open then Trim(s.current + "```\n") else Trim(s.current);
    assert Flush(s).chunks == s.chunks + [c];
    assert (s.chunks + [c])[..|s.chunks|] == s.chunks;
  }

  /** A hard split emits after the chunks already there and leaves the
      fence as it was. */
  lemma {:induction false} HardSplitKeepsFence(s: Splitter, rest: string, maxLength: int)
    requires maxLength > 5
    ensures Extends(HardSplit(s, rest, maxLength).chunks, s.chunks)
    ensures HardSplit(s, rest, maxLength).open == s.open
    decreases |rest|, if |s.current| + 1 >= maxLength then 1 else 0
  {
    if rest != [] {
      var cut := SliceIndex(|rest|, maxLength - |s.current| - 1);
      var s' := s.(current := s.current + rest[..cut]);
      if rest[cut..] != [] {
        HardSplitKeepsFence(Flush(s'), rest[cut..], maxLength);
        FlushExtends(s');
        ExtendsTransitive(HardSplit(s, rest, maxLength).chunks, Flush(s').chunks, s.chunks);
      }
    }
  }

  /** Placing a line after the toggle keeps the fence and only appends
      chunks. */
  lemma PlaceKeepsFence(t: Splitter, line: string, maxLength: int)
    requires maxLength > 5
    ensures Place(t, line, maxLength).open == t.open
    ensures Extends(Place(t, line, maxLength).chunks, t.chunks)
  {
    if |t.current| + |line| + 1 > maxLength {
      if |line| + 1 > maxLength {
        HardSplitKeepsFence(t, line, maxLength);
      } else {
        FlushExtends(t);
      }
    }
  }

  /** Placing a line toggles the fence exactly when the line is a fence
      line, and only appends chunks. */
  lemma PlaceLineFence(s: Splitter, line: string, maxLength: int)
    requires maxLength > 5
    ensures PlaceLine(s, line, maxLength).open == (s.open != IsFence(line))
    ensures Extends(PlaceLine(s, line, maxLength).chunks, s.chunks)
  {
    PlaceKeepsFence(Toggle(s, line), line, maxLength);
  }

  /** Whether an odd number of the lines are fence lines. */
  function OddFences(lines: seq<string>): bool {
    if lines == [] then false
    else OddFences(lines[..|lines| - 1]) != IsFence(lines[|lines| - 1])
  }

  /** A fence is open after the lines exactly when it was open before and an
      even number of them are fence lines, or closed and an odd number are;
      and chunks are only ever appended. */
  lemma {:induction false} FeedFence(s: Splitter, lines: seq<string>, maxLength: int)
    requires maxLength > 5
    ensures Feed(s, lines, maxLength).open == (s.open != OddFences(lines))
    ensures Extends(Feed(s, lines, maxLength).chunks, s.chunks)
  {
    if lines != [] {
      var init, line := lines[..|lines| - 1], lines[|lines| - 1];
      FeedFence(s, init, maxLength);
      var p := Feed(s, init, maxLength);
      PlaceLineFence(p, line, maxLength);
      ExtendsTransitive(PlaceLine(p, line, maxLength).chunks, p.chunks, s.chunks);
    }
  }

  /** No white space at either end. */
  predicate Trimmed(c: string) {
    c == [] || (!IsSpace(c[0]) && !IsSpace(c[|c| - 1]))
  }

  predicate AllTrimmed(chunks: seq<string>) {
    forall i :: 0 <= i < |chunks| ==> Trimmed(chunks[i])
  }

  lemma AppendTrimmed(chunks: seq<string>, x: string)
    requires AllTrimmed(chunks)
    ensures AllTrimmed(chunks + [Trim(x)])
  {
    var t := TrimStart(x);
    var r := TrimEnd(t);
    assert r == [] || r[0] == t[0];
    assert Trimmed(r);
  }

  lemma FlushTrimmed(s: Splitter)
    requires AllTrimmed(s.chunks)
    ensures AllTrimmed(Flush(s).chunks)
  {
    if s.open {
      AppendTrimmed(s.chunks, s.current + "```\n");
    } else {
      AppendTrimmed(s.chunks, s.current);
    }
  }

  lemma {:induction false} HardSplitTrimmed(s: Splitter, rest: string, maxLength: int)
    requires maxLength > 5 && AllTrimmed(s.chunks)
    ensures AllTrimmed(HardSplit(s, rest, maxLength).chunks)
    decreases |rest|, if |s.current| + 1 >= maxLength then 1 else 0
  {
    if rest != [] {
      var cut := SliceIndex(|rest|, maxLength - |s.current| - 1);
      var s' := s.(current := s.current + rest[..cut]);
      HardSplitStep(s, rest, maxLength, cut);
      if rest[cut..] != [] {
        FlushTrimmed(s');
        HardSplitTrimmed(Flush(s'), rest[cut..], maxLength);
      }
    }
  }

  lemma PlaceLineTrimmed(s: Splitter, line: string, maxLength: int)
    requires maxLength > 5 && AllTrimmed(s.chunks)
    ensures AllTrimmed(PlaceLine(s, line, maxLength).chunks)
  {
    PlaceTrimmed(Toggle(s, line), line, maxLength);
  }

  lemma PlaceTrimmed(t: Splitter, line: string, maxLength: int)
    requires maxLength > 5 && AllTrimmed(t.chunks)
    ensures AllTrimmed(Place(t, line, maxLength).chunks)
  {
    if |t.current| + |line| + 1 > maxLength {
      if |line| + 1 > maxLength {
        HardSplitTrimmed(t, line, maxLength);
      } else {
        FlushTrimmed(t);
      }
    }
  }

  lemma {:induction false} FeedTrimmed(s: Splitter, lines: seq<string>, maxLength: int)
    requires maxLength > 5 && AllTrimmed(s.chunks)
    ensures AllTrimmed(Feed(s, lines, maxLength).chunks)
  {
    if lines != [] {
      FeedTrimmed(s, lines[..|lines| - 1], maxLength);
      PlaceLineTrimmed(Feed(s, lines[..|lines| - 1], maxLength), lines[|lines| - 1], maxLength);
    }
  }

  /** Every chunk splitText returns has no white space at either end. */
  lemma ChunksTrimmed(text: string, maxLength: int)
    requires maxLength > 5
    ensures AllTrimmed(Chunks(text, maxLength))
  {
    var s := Feed(Start, SplitLines(text), maxLength);
    FeedTrimmed(Start, SplitLines(text), maxLength);
    if Trim(s.current) != [] {
      AppendTrimmed(s.chunks, if s.open then s.current + "```" else s.current);
    }
  }

  /** The trailing chunk is emitted, after all others, exactly when the
      chunk being built has non-white-space content. */
  lemma FinishTrailing(s: Splitter)
    ensures Finish(s)[..|s.chunks|] == s.chunks
    ensures |Finish(s)| == |s.chunks| + (if AllSpace(s.current) then 0 else 1)
    ensures !AllSpace(s.current) && s.open ==> Finish(s)[|s.chunks|] == Trim(s.current + "```")
    ensures !AllSpace(s.current) && !s.open ==> Finish(s)[|s.chunks|] == Trim(s.current)
  {
    TrimEmptyIffAllSpace(s.current);
  }

  /** Without carriage returns the lines are exactly the pieces between
      line feeds. */
  lemma SplitLinesPlain(text: string)
    requires '\r' !in text
    ensures SplitLines(text) == Split(text, '\n')
  {
    SplitAvoids(text, '\n', '\r');
  }

  /** None of the lines is a fence line. */
  predicate NoFences(lines: seq<string>) {
    lines == [] || (NoFences(lines[..|lines| - 1]) && !IsFence(lines[|lines| - 1]))
  }

  /** The for loop's last pass places the last line. */
  lemma FeedLast(s: Splitter, lines: seq<string>, maxLength: int)
    requires maxLength > 5 && lines != []
    ensures Feed(s, lines, maxLength) == PlaceLine(Feed(s, lines[..|lines| - 1], maxLength), lines[|lines| - 1], maxLength)
  {
  }

  /** While everything placed so far fits, the lines accumulate in the
      current chunk, each followed by its line break, and the fence is open
      exactly when an odd number of them are fence lines. */
  lemma {:induction false} FeedFits(lines: seq<string>, maxLength: int)
    requires maxLength > 5 && |Terminated(lines, '\n')| <= maxLength
    ensures Feed(Start, lines, maxLength) == Splitter([], Terminated(lines, '\n'), OddFences(lines))
  {
    if lines != [] {
      var init, line := lines[..|lines| - 1], lines[|lines| - 1];
      TerminatedSnoc(lines, '\n');
      var before := Terminated(init, '\n');
      assert before + line + "\n" == Terminated(lines, '\n');
      FeedFits(init, maxLength);
      FeedFitsStep(lines, maxLength, before, OddFences(init));
    }
  }

  lemma FeedFitsStep(lines: seq<string>, maxLength: int, before: string, open: bool)
    requires maxLength > 5 && lines != []
    requires Feed(Start, lines[..|lines| - 1], maxLength) == Splitter([], before, open)
    requires |before| + |lines[|lines| - 1]| + 1 <= maxLength
    ensures Feed(Start, lines, maxLength) == Splitter([], before + lines[|lines| - 1] + "\n", open != IsFence(lines[|lines| - 1]))
  {
    FeedLast(Start, lines, maxLength);
    PlaceLineFits(Splitter([], before, open), lines[|lines| - 1], maxLength);
  }

  /** A text without carriage returns whose length plus one fits in a
      chunk comes back as at most one chunk: nothing when it is all white
      space, otherwise the text trimmed, closed with a fence when an odd
      number of its lines are fence lines. */
  lemma ShortTextOneChunk(text: string, maxLength: int)
    requires maxLength > 5 && |text| + 1 <= maxLength && '\r' !in text
    ensures Chunks(text, maxLength) ==
      if AllSpace(text) then []
      else if OddFences(Split(text, '\n')) then [Trim(text + "\n```")]
      else [Trim(text)]
  {
    var lines := Split(text, '\n');
    SplitLinesPlain(text);
    TerminatedSplit(text, '\n');
    FeedFits(lines, maxLength);
    FinishSingle(text, OddFences(lines));
  }

  /** A flush does not check that the chunk it emits has any content: a
      line of white space that fits, followed by a line that does not fit
      beside it, makes the first chunk empty (two spaces, a line feed and
      eight letters with a limit of ten come back as "" and the letters). */
  lemma BlankChunkEmitted(blank: string, word: string, maxLength: int)
    requires maxLength > 5 && AllSpace(blank) && |blank| + 1 <= maxLength
    requires |blank| + |word| + 2 > maxLength && |word| + 1 <= maxLength
    requires '\n' !in blank && '\r' !in blank && '\n' !in word && '\r' !in word
    requires !IsFence(word) && !AllSpace(word)
    ensures Chunks(blank + "\n" + word, maxLength) == ["", Trim(word)]
  {
    TwoLines(blank, word);
    BlankFeed(blank, word, maxLength);
    TrimEmptyIffAllSpace(word);
    TrimAppendSpace(word, '\n');
  }

  lemma TwoLines(a: string, b: string)
    requires '\n' !in a && '\r' !in a && '\n' !in b && '\r' !in b
    ensures SplitLines(a + "\n" + b) == [a, b]
  {
    var text := a + "\n" + b;
    SplitFirstPiece(a, '\n', b);
    SplitWithoutSeparator(b, '\n');
    assert forall x :: x in text ==> x in a || x == '\n' || x in b;
    SplitLinesPlain(text);
  }

  lemma BlankFeed(blank: string, word: string, maxLength: int)
    requires maxLength > 5 && AllSpace(blank) && |blank| + 1 <= maxLength
    requires |blank| + |word| + 2 > maxLength && |word| + 1 <= maxLength
    requires !IsFence(word)
    ensures Feed(Start, [blank, word], maxLength) == Splitter([""], word + "\n", false)
  {
    var lines := [blank, word];
    assert lines[..1] == [blank] && lines[..0] == [];
    TrimEmptyIffAllSpace(blank);
    TrimAppendSpace(blank, '\n');
    assert !IsFence(blank);
    assert Feed(Start, lines[..1], maxLength) == Splitter([], blank + "\n", false);
  }

  lemma FinishSingle(text: string, open: bool)
    ensures Finish(Splitter([], text + ['\n'], open)) ==
      if AllSpace(text) then []
      else if open then [Trim(text + "\n```")]
      else [Trim(text)]
  {
    TrimAppendSpace(text, '\n');
    TrimEmptyIffAllSpace(text);
    assert (text + ['\n']) + "```" == text + "\n```";
  }

  /** The chunks of fence-free lines, as pieces of their text: every piece
      but the last has been emitted trimmed, the last is the chunk being
      built, and the pieces together spell the lines, each followed by a
      line feed. */
  lemma {:induction false} FeedContents(lines: seq<string>, maxLength: int) returns (raw: seq<string>)
    requires maxLength > 5 && NoFences(lines)
    ensures raw != [] && Flatten(raw) == Terminated(lines, '\n')
    ensures Feed(Start, lines, maxLength) == Splitter(Closes(false, raw[..|raw| - 1]), raw[|raw| - 1], false)
  {
    if lines == [] {
      raw := [""];
      FlattenSingle("");
    } else {
      var init, line := lines[..|lines| - 1], lines[|lines| - 1];
      var raw0 := FeedContents(init, maxLength);
      TerminatedSnoc(lines, '\n');
      FeedLast(Start, lines, maxLength);
      raw := PlaceContents(raw0, line, maxLength);
    }
  }

  /** The last piece is the chunk being built. */
  lemma FlattenSnoc(parts: seq<string>)
    requires parts != []
    ensures Flatten(parts) == Flatten(parts[..|parts| - 1]) + parts[|parts| - 1]
  {
    assert parts == parts[..|parts| - 1] + [parts[|parts| - 1]];
    FlattenAppend(parts[..|parts| - 1], [parts[|parts| - 1]]);
    FlattenSingle(parts[|parts| - 1]);
  }

  /** Placing a line that is no fence line, in the three cases of Place. */
  lemma PlaceContents(raw0: seq<string>, line: string, maxLength: int) returns (raw: seq<string>)
    requires maxLength > 5 && raw0 != [] && !IsFence(line)
    ensures raw != [] && Flatten(raw) == Flatten(raw0) + (line + "\n")
    ensures PlaceLine(Splitter(Closes(false, raw0[..|raw0| - 1]), raw0[|raw0| - 1], false), line, maxLength)
      == Splitter(Closes(false, raw[..|raw| - 1]), raw[|raw| - 1], false)
  {
    var init, cur := raw0[..|raw0| - 1], raw0[|raw0| - 1];
    FlattenSnoc(raw0);
    PlaceLineNoFence(Splitter(Closes(false, init), cur, false), line, maxLength);
    raw := PlaceCases(init, cur, line, maxLength);
  }

  lemma PlaceLineNoFence(s: Splitter, line: string, maxLength: int)
    requires maxLength > 5 && !IsFence(line)
    ensures PlaceLine(s, line, maxLength) == Place(s, line, maxLength)
  {
  }

  lemma PlaceCases(init: seq<string>, cur: string, line: string, maxLength: int) returns (raw: seq<string>)
    requires maxLength > 5
    ensures raw != [] && Flatten(raw) == Flatten(init) + cur + (line + "\n")
    ensures Place(Splitter(Closes(false, init), cur, false), line, maxLength)
      == Splitter(Closes(false, raw[..|raw| - 1]), raw[|raw| - 1], false)
  {
    if |cur| + |line| + 1 > maxLength {
      if |line| + 1 > maxLength {
        raw := PlaceHardContents(init, cur, line, maxLength);
      } else {
        raw := PlaceFlushContents(init, cur, line, maxLength);
      }
    } else {
      raw := PlaceFitsContents(init, cur, line, maxLength);
    }
  }

  lemma InitLast(xs: seq<string>)
    requires xs != []
    ensures xs == xs[..|xs| - 1] + [xs[|xs| - 1]]
  {
  }

  lemma PlaceFitsContents(init: seq<string>, cur: string, line: string, maxLength: int) returns (raw: seq<string>)
    requires maxLength > 5 && |cur| + |line| + 1 <= maxLength
    ensures raw != [] && Flatten(raw) == Flatten(init) + cur + (line + "\n")
    ensures Place(Splitter(Closes(false, init), cur, false), line, maxLength)
      == Splitter(Closes(false, raw[..|raw| - 1]), raw[|raw| - 1], false)
  {
    raw := init + [cur + line + "\n"];
    assert raw[..|raw| - 1] == init;
    FlattenSnoc(raw);
    Regroup(Flatten(init), cur, line + "\n", cur + (line + "\n"), "");
  }

  lemma PlaceFlushContents(init: seq<string>, cur: string, line: string, maxLength: int) returns (raw: seq<string>)
    requires maxLength > 5 && |cur| + |line| + 1 > maxLength && |line| + 1 <= maxLength
    ensures raw != [] && Flatten(raw) == Flatten(init) + cur + (line + "\n")
    ensures Place(Splitter(Closes(false, init), cur, false), line, maxLength)
      == Splitter(Closes(false, raw[..|raw| - 1]), raw[|raw| - 1], false)
  {
    raw := init + [cur] + [line + "\n"];
    assert raw[..|raw| - 1] == init + [cur];
    PlaceFlushes(init, cur, line, maxLength);
    EachSnoc(Closer(false), init, cur);
    FlattenTwoMore(init, cur, line + "\n");
  }

  lemma PlaceFlushes(init: seq<string>, cur: string, line: string, maxLength: int)
    requires maxLength > 5 && |cur| + |line| + 1 > maxLength && |line| + 1 <= maxLength
    ensures Place(Splitter(Closes(false, init), cur, false), line, maxLength)
      == Splitter(Closes(false, init) + [Closed(false, cur)], line + "\n", false)
  {
    FlushForm(Splitter(Closes(false, init), cur, false));
  }

  lemma FlattenTwoMore(init: seq<string>, x: string, y: string)
    ensures Flatten(init + [x] + [y]) == Flatten(init) + x + y
  {
    FlattenSnoc(init + [x] + [y]);
    FlattenSnoc(init + [x]);
    assert (init + [x] + [y])[..|init| + 1] == init + [x];
    assert (init + [x])[..|init|] == init;
  }

  lemma PlaceHardContents(init: seq<string>, cur: string, line: string, maxLength: int) returns (raw: seq<string>)
    requires maxLength > 5 && line != []
    ensures raw != [] && Flatten(raw) == Flatten(init) + cur + (line + "\n")
    ensures var h := HardSplit(Splitter(Closes(false, init), cur, false), line, maxLength);
      h.(current := h.current + "\n") == Splitter(Closes(false, raw[..|raw| - 1]), raw[|raw| - 1], false)
  {
    var t := Splitter(Closes(false, init), cur, false);
    HardSplitContents(t, line, maxLength);
    var segs := Segments(t, line, maxLength);
    var p := Pieces(cur, segs, false);
    SegmentsCoverLine(t, line, maxLength);
    PiecesFlatten(cur, segs);
    FlattenSnoc(p);
    var body := p[..|p| - 1];
    raw := init + body + [p[|p| - 1] + "\n"];
    assert raw[..|raw| - 1] == init + body;
    EachAppend(Closer(false), init, body);
    FlattenSnoc(raw);
    FlattenAppend(init, body);
    Regroup(Flatten(init), Flatten(body), p[|p| - 1], cur + line, "\n");
    Regroup(Flatten(init), cur, line, cur + line, "\n");
  }

  /** Regrouping a concatenation. */
  lemma Regroup(a: string, b: string, c: string, d: string, e: string)
    requires b + c == d
    ensures a + b + (c + e) == a + d + e
  {
  }

  /** What splitText returns for a text without fence lines: the pieces
      of the text, in order and each trimmed, where the pieces spell the
      lines each followed by a line feed (the text plus one line feed when
      it has no carriage return); the last piece is left out when it is
      all white space. */
  lemma ChunksContents(text: string, maxLength: int) returns (raw: seq<string>)
    requires maxLength > 5 && NoFences(SplitLines(text))
    ensures raw != [] && Flatten(raw) == Terminated(SplitLines(text), '\n')
    ensures '\r' !in text ==> Flatten(raw) == text + "\n"
    ensures Chunks(text, maxLength) == Closes(false, if AllSpace(raw[|raw| - 1]) then raw[..|raw| - 1] else raw)
  {
    raw := FeedContents(SplitLines(text), maxLength);
    if '\r' !in text {
      TerminatedLinesPlain(text);
    }
    FinishContents(raw);
  }

  /** Without carriage returns the terminated lines are the text plus one
      line feed. */
  lemma TerminatedLinesPlain(text: string)
    requires '\r' !in text
    ensures Terminated(SplitLines(text), '\n') == text + "\n"
  {
    SplitLinesPlain(text);
    TerminatedSplit(text, '\n');
  }

  /** The trailing piece is emitted, trimmed, unless it is all white
      space. */
  lemma FinishContents(raw: seq<string>)
    requires raw != []
    ensures Finish(Splitter(Closes(false, raw[..|raw| - 1]), raw[|raw| - 1], false))
      == Closes(false, if AllSpace(raw[|raw| - 1]) then raw[..|raw| - 1] else raw)
  {
    TrimEmptyIffAllSpace(raw[|raw| - 1]);
    InitLast(raw);
    EachSnoc(Closer(false), raw[..|raw| - 1], raw[|raw| - 1]);
  }

  // ---------------------------------------------------------------------------
  // splitText: the loops

  /** pushChunk, which updates the loop's chunks and current chunk in
      place: the imperative counterpart of Flush. */
  method PushChunk(chunks: seq<string>, currentChunk: string, codeBlockOpen: bool)
    returns (chunks': seq<string>, currentChunk': string)
    ensures Splitter(chunks', currentChunk', codeBlockOpen) == Flush(Splitter(chunks, currentChunk, codeBlockOpen))
  {
    if codeBlockOpen {
      var closed := currentChunk + "```\n";
      chunks' := chunks + [Trim(closed)];
      currentChunk' := "```\n";
    } else {
      chunks' := chunks + [Trim(currentChunk)];
      currentChunk' := "";
    }
  }

  /** One pass of the hard-split loop. */
  lemma HardSplitStep(s: Splitter, rest: string, maxLength: int, cut: int)
    requires maxLength > 5 && rest != []
    requires cut == SliceIndex(|rest|, maxLength - |s.current| - 1)
    ensures 0 <= cut <= |rest|
    ensures HardSplit(s, rest, maxLength) ==
      var s' := s.(current := s.current + rest[..cut]);
      if rest[cut..] == [] then s' else HardSplit(Flush(s'), rest[cut..], maxLength)
  {
  }

  /** The hard-split loop of splitText for one over-long line. */
  method HardSplitLine(chunks: seq<string>, currentChunk: string, codeBlockOpen: bool, line: string, maxLength: int)
    returns (chunks': seq<string>, currentChunk': string)
    requires maxLength > 5
    ensures Splitter(chunks', currentChunk', codeBlockOpen) ==
      HardSplit(Splitter(chunks, currentChunk, codeBlockOpen), line, maxLength)
  {
    chunks', currentChunk' := chunks, currentChunk;
    var remainingLine := line;
    while |remainingLine| > 0
      invariant HardSplit(Splitter(chunks', currentChunk', codeBlockOpen), remainingLine, maxLength)
        == HardSplit(Splitter(chunks, currentChunk, codeBlockOpen), line, maxLength)
      decreases |remainingLine|, if |currentChunk'| + 1 >= maxLength then 1 else 0
    {
      var spaceLeft := maxLength - |currentChunk'| - 1;
      var cut := SliceIndex(|remainingLine|, spaceLeft);
      HardSplitStep(Splitter(chunks', currentChunk', codeBlockOpen), remainingLine, maxLength, cut);
      currentChunk' := currentChunk' + remainingLine[..cut];
      remainingLine := remainingLine[cut..];
      if |remainingLine| > 0 {
        chunks', currentChunk' := PushChunk(chunks', currentChunk', codeBlockOpen);
      }
    }
  }

  /** One pass of splitText's for loop, placing one line. */
  method PlaceLineStep(chunks: seq<string>, currentChunk: string, codeBlockOpen: bool, line: string, maxLength: int)
    returns (chunks': seq<string>, currentChunk': string, codeBlockOpen': bool)
    requires maxLength > 5
    ensures Splitter(chunks', currentChunk', codeBlockOpen') ==
      PlaceLine(Splitter(chunks, currentChunk, codeBlockOpen), line, maxLength)
  {
    chunks', currentChunk', codeBlockOpen' := chunks, currentChunk, codeBlockOpen;
    if IsFence(line) {
      codeBlockOpen' := !codeBlockOpen';
    }
    if |currentChunk'| + |line| + 1 > maxLength {
      if |line| + 1 > maxLength {
        chunks', currentChunk' := HardSplitLine(chunks', currentChunk', codeBlockOpen', line, maxLength);
        currentChunk' := currentChunk' + "\n";
      } else {
        chunks', currentChunk' := PushChunk(chunks', currentChunk', codeBlockOpen');
        currentChunk' := currentChunk' + line + "\n";
      }
    } else {
      currentChunk' := currentChunk' + line + "\n";
    }
  }

  /** Feeding one more line is one more pass of the for loop. */
  lemma FeedSnoc(lines: seq<string>, i: nat, maxLength: int)
    requires maxLength > 5 && i < |lines|
    ensures Feed(Start, lines[..i + 1], maxLength) == PlaceLine(Feed(Start, lines[..i], maxLength), lines[i], maxLength)
  {
    assert lines[..i + 1][..i] == lines[..i];
  }

  /** The code after the for loop: emit the trailing chunk. */
  method FinishStep(chunks: seq<string>, currentChunk: string, codeBlockOpen: bool) returns (r: seq<string>)
    ensures r == Finish(Splitter(chunks, currentChunk, codeBlockOpen))
  {
    r := chunks;
    var last := currentChunk;
    if Trim(last) != [] {
      if codeBlockOpen {
        last := last + "```";
      }
      r := r + [Trim(last)];
    }
  }

  /** splitText, for a chunk size above 5 (below it the hard-split loop
      does not terminate once a fence is open). */
  method SplitText(text: string, maxLength: int) returns (chunks: seq<string>)
    requires maxLength > 5
    ensures chunks == Chunks(text, maxLength)
  {
    var lines := SplitLines(text);
    chunks := [];
    var currentChunk := "";
    var codeBlockOpen := false;
    for i := 0 to |lines|
      invariant Splitter(chunks, currentChunk, codeBlockOpen) == Feed(Start, lines[..i], maxLength)
    {
      FeedSnoc(lines, i, maxLength);
      chunks, currentChunk, codeBlockOpen := PlaceLineStep(chunks, currentChunk, codeBlockOpen, lines[i], maxLength);
    }
    assert lines[..|lines|] == lines;
    chunks := FinishStep(chunks, currentChunk, codeBlockOpen);
  }

  // ---------------------------------------------------------------------------
  // The user's turn

  const TextPrefix := "\n\nText Attachments:\n\n"
  const ImagePrefix := "\n\nImage attachments (please use your imageask tool call to describe it):\n\n"
  const SystemPrompt := "You are RoTunes, a helpful AI powered discord bot made by the Rodevs. You are here to help people with their problems (more specifically roblox issues). Your own website is https://www.rodevs.com/. Please make sure to use your tools and function calls whenever useful. You can search the internet, scrape websites, and execute luau (Roblox) code."

  /** The bytes of an image attachment. */
  datatype Image = Image(bytes: seq<bv8>)

  /** The template literal `image${i}`. */
  function ImageName(i: nat): string {
    "image" + NatToString(i)
  }

  /** The names image0 ... image(count - 1). */
  function ImageNames(count: nat): (names: seq<string>)
    ensures |names| == count
  {
    seq(count, i requires 0 <= i => ImageName(i))
  }

  /** What the user's message becomes: the message, then the text
      attachments if there are any, then, if new images came with it, the
      names of all images of the conversation, old and new. */
  function UserContent(message: string, texts: seq<string>, oldImages: nat, newImages: nat): string {
    var withTexts := if |texts| > 0 then message + (TextPrefix + Join(texts, "\n\n")) else message;
    if newImages > 0 then withTexts + (ImagePrefix + Join(ImageNames(oldImages + newImages), ", "))
    else withTexts
  }

  /** Different indices name different images. */
  lemma ImageNamesDistinct(count: nat, i: nat, j: nat)
    requires i < count && j < count && i != j
    ensures ImageNames(count)[i] != ImageNames(count)[j]
  {
    if ImageName(i) == ImageName(j) {
      assert NatToString(i) == ImageName(i)[5..];
      assert NatToString(j) == ImageName(j)[5..];
      NatToStringInjective(i, j);
    }
  }

  /** The names of a longer list extend those of a shorter one: the names
      already shown for old images are kept. */
  lemma ImageNamesExtend(count: nat, more: nat)
    ensures ImageNames(count + more)[..count] == ImageNames(count)
  {
  }

  /** The user's own text always comes first, and with no attachments it
      is the whole content. */
  lemma UserContentStartsWithMessage(message: string, texts: seq<string>, oldImages: nat, newImages: nat)
    ensures StartsWith(UserContent(message, texts, oldImages, newImages), message)
    ensures texts == [] && newImages == 0 ==> UserContent(message, texts, oldImages, newImages) == message
  {
    var withTexts := if |texts| > 0 then message + (TextPrefix + Join(texts, "\n\n")) else message;
    assert withTexts[..|message|] == message;
    if newImages > 0 {
      var all := withTexts + (ImagePrefix + Join(ImageNames(oldImages + newImages), ", "));
      assert all[..|message|] == withTexts[..|message|];
    }
  }

  /** Image names are listed only when images came with the message, and
      then they follow the text part, which is kept unchanged. */
  lemma UserContentImageSection(message: string, texts: seq<string>, oldImages: nat, newImages: nat)
    requires newImages > 0
    ensures StartsWith(UserContent(message, texts, oldImages, newImages), UserContent(message, texts, oldImages, 0))
    ensures UserContent(message, texts, oldImages, newImages)
         == UserContent(message, texts, oldImages, 0) + (ImagePrefix + Join(ImageNames(oldImages + newImages), ", "))
  {
  }

  /** The stored record of one user's conversation. */
  class ChatData {
    var userId: string
    var messages: seq<Message>
    var images: seq<Image>

    /** A fresh conversation: the system prompt alone, and no images. */
    constructor Fresh(userId: string)
      ensures this.userId == userId
      ensures messages == [Message(System, SystemPrompt, [])] && images == []
    {
      this.userId := userId;
      messages := [Message(System, SystemPrompt, [])];
      images := [];
    }
  }

  /** The first stored conversation of the user, or a fresh one when none is
      stored (the database query is the parameter stored). */
  method LoadConversation(userId: string, stored: seq<ChatData>) returns (data: ChatData)
    ensures |stored| > 0 ==> data == stored[0]
    ensures |stored| == 0 ==> (fresh(data) && data.userId == userId
      && data.messages == [Message(System, SystemPrompt, [])] && data.images == [])
  {
    if |stored| > 0 {
      data := stored[0];
    } else {
      data := new ChatData.Fresh(userId);
    }
  }

  /** The for loop naming the images of the conversation. */
  method ListImageNames(count: nat) returns (names: seq<string>)
    ensures names == ImageNames(count)
  {
    names := [];
    var i := 0;
    while i != count
      invariant i <= count && names == ImageNames(i)
    {
      names := names + [ImageName(i)];
      i := i + 1;
    }
  }

  /** The text of the user's message: the message, then the text
      attachments, then the names of all images when new ones came. */
  method ComposeUserContent(message: string, texts: seq<string>, oldImages: nat, newImages: nat) returns (content: string)
    ensures content == UserContent(message, texts, oldImages, newImages)
  {
    content := message;
    if |texts| > 0 {
      content := content + (TextPrefix + Join(texts, "\n\n"));
    }
    if newImages > 0 {
      var names := ListImageNames(newImages + oldImages);
      content := content + (ImagePrefix + Join(names, ", "));
    }
  }

  /** Adds the user's turn: the new images after the existing ones and the
      user message, with its attachments, at the end of the transcript. */
  method AddUserTurn(data: ChatData, message: string, texts: seq<string>, newImages: seq<Image>)
    modifies data
    ensures data.userId == old(data.userId)
    ensures data.images == old(data.images) + newImages
    ensures data.messages == old(data.messages)
      + [Message(User, UserContent(message, texts, |old(data.images)|, |newImages|), [])]
  {
    var newMessage := ComposeUserContent(message, texts, |data.images|, |newImages|);
    data.images := data.images + newImages;
    data.messages := data.messages + [Message(User, newMessage, [])];
  }
}
