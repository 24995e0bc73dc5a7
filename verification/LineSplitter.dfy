/** Splitting a chunked byte stream into lines. */
module LineSplitter {
  import Seqs

  const DELIM: char := '\n'

  /** Position of the first newline, or the length if there is none. */
  function Find(s: string): (i: nat)
    ensures i <= |s|
    ensures i < |s| ==> s[i] == DELIM
    ensures DELIM !in s[..i]
  {
    if s == [] || s[0] == DELIM then 0
    else
      var i := Find(s[1..]);
      assert s[..i + 1] == [s[0]] + s[1..][..i];
      i + 1
  }

  /** The complete lines of a string, without their newlines, and what is left behind the last newline. */
  function Lines(s: string): (ls: seq<string>)
    decreases |s|
  {
    var i := Find(s);
    if i == |s| then [] else [s[..i]] + Lines(s[i + 1..])
  }

  function Rest(s: string): (r: string)
    decreases |s|
  {
    var i := Find(s);
    if i == |s| then s else Rest(s[i + 1..])
  }

  /** The lines with their newlines again. */
  function Unlines(ls: seq<string>): (s: string) {
    if ls == [] then [] else ls[0] + [DELIM] + Unlines(ls[1..])
  }

  function Newlines(s: string): (n: nat) {
    if s == [] then 0 else (if s[0] == DELIM then 1 else 0) + Newlines(s[1..])
  }

  lemma {:induction false} FindIn(a: string, b: string)
    ensures '\n' !in a ==> Find(a + ['\n'] + b) == |a|
    ensures '\n' !in a ==> Find(a) == |a|
  {
    if a != [] && DELIM !in a {
      FindIn(a[1..], b);
      assert (a + [DELIM] + b)[1..] == a[1..] + [DELIM] + b;
      assert a[0] in a;
    }
  }

  lemma CutAt(s: string, i: nat)
    requires i < |s| && s[i] == '\n'
    ensures s == s[..i] + ['\n'] + s[i + 1..]
  {
  }

  lemma {:induction false} NoNewlines(s: string)
    ensures '\n' !in Rest(s) && forall k :: 0 <= k < |Lines(s)| ==> '\n' !in Lines(s)[k]
    decreases |s|
  {
    var i := Find(s);
    if i < |s| {
      NoNewlines(s[i + 1..]);
    } else {
      assert s[..i] == s;
    }
  }

  /** Nothing is lost: the lines, each followed by a newline, and the rest are the input. */
  lemma {:induction false} Reconstruct(s: string)
    ensures Unlines(Lines(s)) + Rest(s) == s
    decreases |s|
  {
    var i := Find(s);
    if i < |s| {
      var tail := s[i + 1..];
      Reconstruct(tail);
      CutAt(s, i);
      assert Lines(s)[1..] == Lines(tail);
      Seqs.Assoc(s[..i] + [DELIM], Unlines(Lines(tail)), Rest(tail));
    }
  }

  lemma FirstLine(a: string, tail: string)
    requires '\n' !in a
    ensures Lines(a + ['\n'] + tail) == [a] + Lines(tail) && Rest(a + ['\n'] + tail) == Rest(tail)
  {
    FindIn(a, tail);
    Seqs.Around(a, DELIM, tail);
  }

  /** No other list of newline-free lines with a newline-free rest makes up the same input. */
  lemma {:induction false} Unambiguous(ls: seq<string>, r: string)
    requires '\n' !in r && forall k :: 0 <= k < |ls| ==> '\n' !in ls[k]
    ensures Lines(Unlines(ls) + r) == ls && Rest(Unlines(ls) + r) == r
    decreases |ls|
  {
    if ls == [] {
      FindIn(r, []);
      assert Unlines(ls) + r == r;
    } else {
      Unambiguous(ls[1..], r);
      Seqs.Assoc(ls[0] + [DELIM], Unlines(ls[1..]), r);
      FirstLine(ls[0], Unlines(ls[1..]) + r);
    }
  }

  lemma {:induction false} UnlinesAppend(a: seq<string>, b: seq<string>)
    ensures Unlines(a + b) == Unlines(a) + Unlines(b)
  {
    if a == [] {
      assert a + b == b;
    } else {
      assert (a + b)[0] == a[0] && (a + b)[1..] == a[1..] + b;
      UnlinesAppend(a[1..], b);
      assert Unlines(a + b) == a[0] + [DELIM] + (Unlines(a[1..]) + Unlines(b));
    }
  }

  /** Splitting in two steps, carrying the rest over, is splitting at once. */
  lemma SplitAgain(a: string, b: string)
    ensures Lines(a + b) == Lines(a) + Lines(Rest(a) + b)
    ensures Rest(a + b) == Rest(Rest(a) + b)
  {
    var c := Rest(a) + b;
    var ls := Lines(a) + Lines(c);
    Reconstruct(a);
    NoNewlines(a);
    Reconstruct(c);
    NoNewlines(c);
    UnlinesAppend(Lines(a), Lines(c));
    Seqs.Assoc(Unlines(Lines(a)), Rest(a), b);
    Seqs.Assoc(Unlines(Lines(a)), Unlines(Lines(c)), Rest(c));
    Unambiguous(ls, Rest(c));
  }

  lemma {:induction false} NewlinesSplit(s: string, i: nat)
    requires i < |s|
    ensures Newlines(s) == Newlines(s[..i]) + Newlines(s[i..])
  {
    if i > 0 {
      NewlinesSplit(s[1..], i - 1);
      assert s[..i][1..] == s[1..][..i - 1];
    } else {
      assert s[..i] == [] && s[i..] == s;
    }
  }

  /** Chunks up to the first empty one, which ends the reading. */
  function UntilEmpty(chunks: seq<string>): (cs: seq<string>) {
    if chunks == [] || chunks[0] == [] then [] else [chunks[0]] + UntilEmpty(chunks[1..])
  }

  function Concat(chunks: seq<string>): (s: string) {
    if chunks == [] then [] else chunks[0] + Concat(chunks[1..])
  }

  /** What the generator yields from a buffer on, chunk by chunk, and what it is left with. The empty chunk that
      ends the reading is still fed. */
  function Generate(buffer: string, chunks: seq<string>): (r: (seq<string>, string))
    decreases |chunks|
  {
    if chunks == [] then ([], buffer)
    else
      var t := buffer + chunks[0];
      if chunks[0] == [] then (Lines(t), Rest(t))
      else
        var (more, rest) := Generate(Rest(t), chunks[1..]);
        (Lines(t) + more, rest)
  }

  lemma NoLines(s: string)
    requires '\n' !in s
    ensures Lines(s) == [] && Rest(s) == s
  {
    FindIn(s, []);
  }

  /** Feeding chunk by chunk is splitting everything that was read at once. */
  lemma {:induction false} GenerateSplits(buffer: string, chunks: seq<string>)
    requires '\n' !in buffer
    ensures var s := buffer + Concat(UntilEmpty(chunks)); Generate(buffer, chunks) == (Lines(s), Rest(s))
    decreases |chunks|
  {
    if chunks == [] || chunks[0] == [] {
      NoLines(buffer);
      assert buffer + [] == buffer;
    } else {
      var t, tail := buffer + chunks[0], Concat(UntilEmpty(chunks[1..]));
      NoNewlines(t);
      GenerateSplits(Rest(t), chunks[1..]);
      SplitAgain(t, tail);
      Seqs.Assoc(buffer, chunks[0], tail);
    }
  }

  class LineReader {
    var buffer: string

    constructor ()
      ensures buffer == ""
    {
      buffer := "";
    }

    /** One chunk: every complete line is yielded, each round takes one newline out of the buffer. */
    method Feed(data: string) returns (lines: seq<string>)
      modifies this
      ensures lines == Lines(old(buffer) + data) && buffer == Rest(old(buffer) + data)
    {
      buffer := buffer + data;
      lines := [];
      while Find(buffer) != |buffer|
        invariant lines + Lines(buffer) == Lines(old(buffer) + data)
        invariant Rest(buffer) == Rest(old(buffer) + data)
        decreases Newlines(buffer)
      {
        var i := Find(buffer);
        NewlinesSplit(buffer, i);
        var line := buffer[..i];
        buffer := buffer[i + 1..];
        lines := lines + [line];
      }
    }

    /** The whole generator on the chunks that the socket or the serial port returns. */
    method ReadLines(chunks: seq<string>) returns (lines: seq<string>)
      requires buffer == ""
      modifies this
      ensures (lines, buffer) == Generate("", chunks)
    {
      lines := [];
      var i := 0;
      var data := true;
      assert chunks[0..] == chunks && lines + Generate(buffer, chunks).0 == Generate(buffer, chunks).0;
      while data && i < |chunks|
        invariant i <= |chunks|
        invariant Generate("", chunks) ==
          if data then (lines + Generate(buffer, chunks[i..]).0, Generate(buffer, chunks[i..]).1) else (lines, buffer)
        decreases |chunks| - i
      {
        var chunk := chunks[i];
        assert chunks[i..][1..] == chunks[i + 1..];
        Seqs.Assoc(lines, Lines(buffer + chunk), Generate(Rest(buffer + chunk), chunks[i + 1..]).0);
        var more := Feed(chunk);
        lines := lines + more;
        data := chunk != "";
        i := i + 1;
      }
      assert data ==> chunks[i..] == [] && lines + [] == lines;
    }
  }

  lemma {:induction false} UntilEmptyOfNonEmpty(chunks: seq<string>)
    requires forall k :: 0 <= k < |chunks| ==> chunks[k] != []
    ensures UntilEmpty(chunks) == chunks && UntilEmpty(chunks + [""]) == chunks
  {
    if chunks == [] {
      assert chunks + [""] == [""];
    } else {
      UntilEmptyOfNonEmpty(chunks[1..]);
      assert (chunks + [""])[1..] == chunks[1..] + [""];
    }
  }

  lemma {:induction false} UntilFirstEmpty(a: seq<string>, b: seq<string>)
    requires forall k :: 0 <= k < |a| ==> a[k] != []
    ensures UntilEmpty(a + [""] + b) == a
  {
    if a == [] {
      assert a + [""] + b == [""] + b;
    } else {
      UntilFirstEmpty(a[1..], b);
      assert (a + [""] + b)[1..] == a[1..] + [""] + b;
    }
  }

  /** The first empty chunk ends the reading: whatever comes behind it is never looked at. */
  lemma EmptyChunkEnds(a: seq<string>, b: seq<string>)
    requires forall k :: 0 <= k < |a| ==> a[k] != []
    ensures Generate("", a + [""] + b) == (Lines(Concat(a)), Rest(Concat(a)))
  {
    UntilFirstEmpty(a, b);
    GenerateSplits("", a + [""] + b);
    assert "" + Concat(a) == Concat(a);
  }

  /** However a stream is cut into non-empty chunks in front of its end, the generator yields the same lines and
      keeps the same rest, and both are those of the whole stream. */
  lemma ChunkingIsInvisible(a: seq<string>, b: seq<string>)
    requires forall k :: 0 <= k < |a| ==> a[k] != []
    requires forall k :: 0 <= k < |b| ==> b[k] != []
    requires Concat(a) == Concat(b)
    ensures Generate("", a) == Generate("", b) == (Lines(Concat(a)), Rest(Concat(a)))
    ensures Generate("", a + [""]) == Generate("", a) && Generate("", b + [""]) == Generate("", b)
  {
    UntilEmptyOfNonEmpty(a);
    UntilEmptyOfNonEmpty(b);
    GenerateSplits("", a);
    GenerateSplits("", b);
    GenerateSplits("", a + [""]);
    GenerateSplits("", b + [""]);
    assert "" + Concat(a) == Concat(a);
  }
}
