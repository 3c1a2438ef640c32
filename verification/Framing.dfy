// Newline framing with a size limit (src/protocol/message.js:116-174).
module Framing {
  import opened Wrappers
  import opened Text

  const MAX_FRAME_SIZE := 64 * 1024

  // What a stream of text splits into at its newlines: the complete lines and the unfinished rest.
  datatype Split = Split(lines: seq<string>, partial: string)

  // text.split('\n') with its last element taken off.
  function SplitLines(text: string): (r: Split)
    ensures '\n' !in r.partial
    ensures forall l :: l in r.lines ==> '\n' !in l
  {
    if text == "" then Split([], "")
    else
      var r := SplitLines(text[..|text| - 1]);
      var c := text[|text| - 1];
      if c == '\n' then Split(r.lines + [r.partial], "") else Split(r.lines, r.partial + [c])
  }

  // The text a split came from.
  function Unsplit(lines: seq<string>, partial: string): string {
    if lines == [] then partial else lines[0] + "\n" + Unsplit(lines[1..], partial)
  }

  predicate Fits(line: string, max: nat) {
    ByteLength(line) <= max
  }

  predicate AllFit(lines: seq<string>, max: nat) {
    forall l :: l in lines ==> Fits(l, max)
  }

  datatype FrameTooLargeError = FrameTooLargeError(maxFrameSize: nat)

  class LineBuffer {
    var buffer: string
    const maxFrameSize: nat

    constructor (maxFrameSize: nat := MAX_FRAME_SIZE)
      ensures this.maxFrameSize == maxFrameSize && buffer == ""
    {
      this.maxFrameSize := maxFrameSize;
      buffer := "";
    }

    method Append(chunk: string) returns (r: Result<seq<string>, FrameTooLargeError>)
      modifies this
      ensures (r, buffer) == Fed(old(buffer), chunk, maxFrameSize)
      ensures exists lines, rest :: IsSplit(old(buffer) + chunk, lines, rest) &&
                if (forall l :: l in lines + [rest] ==> ByteLength(l) <= maxFrameSize)
                then r == Success(lines) && buffer == rest
                else r == Failure(FrameTooLargeError(maxFrameSize)) && buffer == ""
    {
      SplitExactly(buffer + chunk, SplitLines(buffer + chunk).lines, SplitLines(buffer + chunk).partial);
      buffer := buffer + chunk;
      var split := SplitLines(buffer);
      assert forall l :: l in split.lines + [split.partial] <==> l in split.lines || l == split.partial;
      var tooLarge := exists i :: 0 <= i < |split.lines| && !Fits(split.lines[i], maxFrameSize);
      if !Fits(split.partial, maxFrameSize) || tooLarge {
        buffer := "";
        return Failure(FrameTooLargeError(maxFrameSize));
      }
      buffer := split.partial;
      return Success(split.lines);
    }
  }

  // The pieces of a text between its newlines.
  predicate IsSplit(text: string, lines: seq<string>, rest: string) {
    Unsplit(lines, rest) == text && '\n' !in rest && forall l :: l in lines ==> '\n' !in l
  }

  // There is one way to take a text apart at its newlines, and this is it.
  lemma SplitExactly(text: string, lines: seq<string>, rest: string)
    ensures SplitLines(text) == Split(lines, rest) <==> IsSplit(text, lines, rest)
  {
    UnsplitSplit(text);
    if IsSplit(text, lines, rest) {
      SplitUnsplit(lines, rest);
    }
  }

  // The result of one append and the buffer it leaves.
  function Fed(buffer: string, chunk: string, max: nat): (Result<seq<string>, FrameTooLargeError>, string) {
    var split := SplitLines(buffer + chunk);
    if Fits(split.partial, max) && AllFit(split.lines, max) then (Success(split.lines), split.partial)
    else (Failure(FrameTooLargeError(max)), "")
  }

  // A whole connection: the lines handed out up to the first error, after which the caller
  // closes the connection and discards the remaining chunks.
  datatype Stream = Stream(delivered: seq<string>, residue: string, failed: bool)

  function FeedAll(buffer: string, chunks: seq<string>, max: nat): Stream
    decreases |chunks|
  {
    if chunks == [] then Stream([], buffer, false)
    else
      var (r, rest) := Fed(buffer, chunks[0], max);
      match r
      case Failure(_) => Stream([], rest, true)
      case Success(lines) =>
        var tail := FeedAll(rest, chunks[1..], max);
        Stream(lines + tail.delivered, tail.residue, tail.failed)
  }

  function Concat(chunks: seq<string>): string {
    if chunks == [] then "" else chunks[0] + Concat(chunks[1..])
  }

  // ---- The split of a concatenation -----------------------------------------

  // Splitting s + t resumes from the unfinished line of s.
  lemma {:induction false} SplitResumes(s: string, t: string)
    ensures SplitLines(s + t).lines == SplitLines(s).lines + SplitLines(SplitLines(s).partial + t).lines
    ensures SplitLines(s + t).partial == SplitLines(SplitLines(s).partial + t).partial
  {
    var p := SplitLines(s).partial;
    if t == "" {
      assert s + t == s && p + t == p;
      SplitUnbroken(p);
    } else {
      var t0, c := t[..|t| - 1], t[|t| - 1];
      SplitResumes(s, t0);
      assert (s + t)[..|s + t| - 1] == s + t0;
      assert (p + t)[..|p + t| - 1] == p + t0;
    }
  }

  lemma {:induction false} SplitUnbroken(p: string)
    requires '\n' !in p
    ensures SplitLines(p) == Split([], p)
  {
    if p != "" {
      SplitUnbroken(p[..|p| - 1]);
      assert p == p[..|p| - 1] + [p[|p| - 1]];
    }
  }

  // Nothing is lost: joining the split back gives the text, and it is the only split that does.
  lemma {:induction false} UnsplitSplit(text: string)
    ensures Unsplit(SplitLines(text).lines, SplitLines(text).partial) == text
  {
    if text != "" {
      var t0, c := text[..|text| - 1], text[|text| - 1];
      UnsplitSplit(t0);
      var r := SplitLines(t0);
      UnsplitExtends(r.lines, r.partial, c);
      assert text == t0 + [c];
    }
  }

  lemma {:induction false} UnsplitExtends(lines: seq<string>, partial: string, c: char)
    ensures Unsplit(lines, partial + [c]) == Unsplit(lines, partial) + [c]
    ensures Unsplit(lines + [partial], "") == Unsplit(lines, partial) + "\n"
  {
    if lines != [] {
      UnsplitExtends(lines[1..], partial, c);
      assert (lines + [partial])[1..] == lines[1..] + [partial];
    }
  }

  lemma {:induction false} SplitUnsplit(lines: seq<string>, partial: string)
    requires '\n' !in partial && forall l :: l in lines ==> '\n' !in l
    ensures SplitLines(Unsplit(lines, partial)) == Split(lines, partial)
  {
    if lines == [] {
      SplitUnbroken(partial);
    } else {
      var head, rest := lines[0] + "\n", Unsplit(lines[1..], partial);
      SplitUnbroken(lines[0]);
      assert head[..|head| - 1] == lines[0];
      assert SplitLines(head) == Split([lines[0]], "");
      SplitUnsplit(lines[1..], partial);
      SplitResumes(head, rest);
      assert "" + rest == rest;
      assert head + rest == Unsplit(lines, partial);
      assert lines == [lines[0]] + lines[1..];
    }
  }

  // ---- Chunking invariance ----------------------------------------------------

  // The frames of a text, with the unfinished one at the end.
  function Frames(text: string): seq<string> {
    SplitLines(text).lines + [SplitLines(text).partial]
  }

  // Some frame of the text, finished or not, is over the limit.
  predicate Oversized(text: string, max: nat) {
    !AllFit(Frames(text), max)
  }

  // Feeding more text never makes an oversized frame acceptable.
  lemma OversizedPersists(s: string, t: string, max: nat)
    requires Oversized(s, max)
    ensures Oversized(s + t, max)
  {
    SplitResumes(s, t);
    var p := SplitLines(s).partial;
    var whole := SplitLines(s + t);
    var bad :| bad in Frames(s) && !Fits(bad, max);
    if bad in SplitLines(s).lines {
      assert bad in whole.lines;
      assert bad in Frames(s + t);
    } else {
      assert bad == p;
      FirstFrameGrows(p, t);
      var f := Frames(p + t)[0];
      Utf8Concat(p, f[|p|..]);
      assert f == p + f[|p|..];
      assert f in Frames(p + t);
      assert f in Frames(s + t);
    }
  }

  lemma {:induction false} FirstFrameGrows(p: string, t: string)
    requires '\n' !in p
    ensures p <= Frames(p + t)[0]
  {
    if t == "" {
      assert p + t == p;
      SplitUnbroken(p);
    } else {
      var t0 := t[..|t| - 1];
      FirstFrameGrows(p, t0);
      assert (p + t)[..|p + t| - 1] == p + t0;
    }
  }

  // The main statement. However a text is chunked, feeding it chunk by chunk fails exactly when
  // some frame of the whole text is over the limit. Without failure the delivered lines and the
  // residue are the split of the whole text. With failure the delivered lines are a prefix of the
  // true lines, all within the limit.
  lemma {:induction false} ChunkingInvariance(buffer: string, chunks: seq<string>, max: nat)
    requires '\n' !in buffer && Fits(buffer, max)
    ensures var whole := buffer + Concat(chunks);
            var got := FeedAll(buffer, chunks, max);
            && (got.failed <==> Oversized(whole, max))
            && (!got.failed ==> Split(got.delivered, got.residue) == SplitLines(whole))
            && got.delivered <= SplitLines(whole).lines
            && AllFit(got.delivered, max)
    decreases |chunks|
  {
    var whole := buffer + Concat(chunks);
    SplitUnbroken(buffer);
    if chunks == [] {
      assert whole == buffer;
    } else {
      var fed := buffer + chunks[0];
      var tail := Concat(chunks[1..]);
      assert whole == fed + tail;
      var (r, rest) := Fed(buffer, chunks[0], max);
      var lines := SplitLines(fed).lines;
      FramesFit(fed, max);
      if r.Success? {
        ChunkingInvariance(rest, chunks[1..], max);
        SplitResumes(fed, tail);
        OversizedLater(fed, tail, max);
      } else {
        OversizedPersists(fed, tail, max);
      }
    }
  }

  lemma FramesFit(text: string, max: nat)
    ensures Oversized(text, max) <==> !(Fits(SplitLines(text).partial, max) && AllFit(SplitLines(text).lines, max))
  {
    var r := SplitLines(text);
    assert forall l :: l in Frames(text) <==> l in r.lines || l == r.partial;
  }

  // Once the lines of s are known to fit, only what follows them can be oversized.
  lemma OversizedLater(s: string, t: string, max: nat)
    requires AllFit(SplitLines(s).lines, max)
    ensures Oversized(s + t, max) <==> Oversized(SplitLines(s).partial + t, max)
  {
    SplitResumes(s, t);
    var p := SplitLines(s).partial;
    assert Frames(s + t) == SplitLines(s).lines + Frames(p + t);
    assert forall l :: l in Frames(s + t) <==> l in SplitLines(s).lines || l in Frames(p + t);
  }

  // Two ways of cutting the same text: both fail or neither does, and when neither does they
  // deliver the same lines and keep the same residue.
  lemma AnyTwoChunkingsAgree(chunks: seq<string>, chunks': seq<string>, max: nat)
    requires Concat(chunks) == Concat(chunks')
    ensures var got, got' := FeedAll("", chunks, max), FeedAll("", chunks', max);
            got.failed == got'.failed && (!got.failed ==> got == got')
  {
    ChunkingInvariance("", chunks, max);
    ChunkingInvariance("", chunks', max);
  }

  // The residue is always within the limit, so at most one frame is buffered between appends.
  lemma {:induction false} BufferBounded(buffer: string, chunks: seq<string>, max: nat)
    requires Fits(buffer, max)
    ensures Fits(FeedAll(buffer, chunks, max).residue, max)
    decreases |chunks|
  {
    if chunks != [] {
      var (r, rest) := Fed(buffer, chunks[0], max);
      BufferBounded(rest, chunks[1..], max);
    }
  }
}
