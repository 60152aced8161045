/** Lines out of a chunked response: the last line may still be incomplete when a chunk ends. */
module LineReader {
  import opened Sequences

  type Byte = x | 0 <= x < 256

  type Text = seq<Byte>

  const NEWLINE: Byte := 10

  /** The position of the first newline, or the length. */
  function FirstNewline(s: Text): (n: nat)
    ensures n <= |s| && NEWLINE !in s[..n] && (n < |s| ==> s[n] == NEWLINE)
  {
    if |s| == 0 || s[0] == NEWLINE then 0 else 1 + FirstNewline(s[1..])
  }

  /** The complete lines of a text. */
  function Lines(s: Text): seq<Text>
    decreases |s|
  {
    var n := FirstNewline(s);
    if n == |s| then [] else [s[..n]] + Lines(s[n + 1..])
  }

  /** What follows the last newline. */
  function Rest(s: Text): Text
    decreases |s|
  {
    var n := FirstNewline(s);
    if n == |s| then s else Rest(s[n + 1..])
  }

  /** Each line with a newline after it. */
  function Frame(lines: seq<Text>): Text {
    if |lines| == 0 then [] else lines[0] + [NEWLINE] + Frame(lines[1..])
  }

  function Concat(chunks: seq<Text>): Text {
    if |chunks| == 0 then [] else Concat(chunks[..|chunks| - 1]) + chunks[|chunks| - 1]
  }

  lemma {:induction false} FirstNewlineIs(s: Text, n: nat)
    requires n < |s| && s[n] == NEWLINE && NEWLINE !in s[..n]
    ensures FirstNewline(s) == n
  {
    if n > 0 {
      assert s[0] in s[..n];
      assert s[1..][..n - 1] == s[..n][1..];
      FirstNewlineIs(s[1..], n - 1);
    }
  }

  lemma NoNewline(s: Text)
    ensures NEWLINE !in s <==> FirstNewline(s) == |s|
  {
    assert s[..|s|] == s;
  }

  /** A line of its own in front. */
  lemma LinesCons(line: Text, s: Text)
    requires NEWLINE !in line
    ensures Lines(line + [NEWLINE] + s) == [line] + Lines(s) && Rest(line + [NEWLINE] + s) == Rest(s)
  {
    var text := line + [NEWLINE] + s;
    assert text[..|line|] == line && text[|line| + 1..] == s;
    FirstNewlineIs(text, |line|);
  }

  lemma AppendStep(line: Text, tail: Text, t: Text)
    requires NEWLINE !in line && Lines(tail + t) == Lines(tail) + Lines(Rest(tail) + t)
    requires Rest(tail + t) == Rest(Rest(tail) + t)
    ensures var s := line + [NEWLINE] + tail;
            Lines(s + t) == Lines(s) + Lines(Rest(s) + t) && Rest(s + t) == Rest(Rest(s) + t)
  {
    LinesCons(line, tail);
    LinesCons(line, tail + t);
    Assoc(line + [NEWLINE], tail, t);
    Assoc([line], Lines(tail), Lines(Rest(tail) + t));
  }

  /** Reading on after a text is reading on after its rest. */
  lemma {:induction false} LinesAppend(s: Text, t: Text)
    ensures Lines(s + t) == Lines(s) + Lines(Rest(s) + t)
    ensures Rest(s + t) == Rest(Rest(s) + t)
    decreases |s|
  {
    var n := FirstNewline(s);
    if n < |s| {
      LinesAppend(s[n + 1..], t);
      AppendStep(s[..n], s[n + 1..], t);
      SplitAt(s, n);
    }
  }

  /** Framed lines read back as they were, with nothing left over. */
  lemma {:induction false} LinesOfFrame(lines: seq<Text>)
    requires forall i :: 0 <= i < |lines| ==> NEWLINE !in lines[i]
    ensures Lines(Frame(lines)) == lines && Rest(Frame(lines)) == []
    decreases |lines|
  {
    if |lines| > 0 {
      LinesOfFrame(lines[1..]);
      LinesCons(lines[0], Frame(lines[1..]));
    }
  }

  /** Framing the lines of a text gives it back up to its last newline. */
  lemma {:induction false} FrameOfLines(s: Text)
    ensures Frame(Lines(s)) + Rest(s) == s
    decreases |s|
  {
    var n := FirstNewline(s);
    if n < |s| {
      var t := s[n + 1..];
      FrameOfLines(t);
      FrameCons(s[..n], Lines(t));
      Assoc(s[..n] + [NEWLINE], Frame(Lines(t)), Rest(t));
      SplitAt(s, n);
    }
  }

  lemma SplitAt(s: Text, n: nat)
    requires n < |s|
    ensures s[..n] + [s[n]] + s[n + 1..] == s
  {
  }

  lemma FrameCons(line: Text, lines: seq<Text>)
    ensures Frame([line] + lines) == line + [NEWLINE] + Frame(lines)
  {
    assert ([line] + lines)[1..] == lines;
  }

  /** chunked_line_iterator, which only keeps what it has not split off yet. */
  method ReadLines(chunks: seq<Text>) returns (lines: seq<Text>, buffer: Text)
    ensures lines == Lines(Concat(chunks)) && buffer == Rest(Concat(chunks))
  {
    lines, buffer := [], [];
    for i := 0 to |chunks|
      invariant lines == Lines(Concat(chunks[..i])) && buffer == Rest(Concat(chunks[..i]))
    {
      LinesAppend(Concat(chunks[..i]), chunks[i]);
      assert chunks[..i + 1][..i] == chunks[..i];
      ghost var before := lines;
      buffer := buffer + chunks[i];
      ghost var text := buffer;
      var n := Find(buffer);
      while n < |buffer|
        invariant n == FirstNewline(buffer)
        invariant lines + Lines(buffer) == before + Lines(text) && Rest(buffer) == Rest(text)
        decreases |buffer|
      {
        lines, buffer := lines + [buffer[..n]], buffer[n + 1..];
        n := Find(buffer);
      }
    }
    assert chunks[..|chunks|] == chunks;
  }

  /** b"\n" in buffer, and where. */
  method Find(s: Text) returns (n: nat)
    ensures n == FirstNewline(s)
  {
    n := 0;
    while n < |s| && s[n] != NEWLINE
      invariant n <= |s| && NEWLINE !in s[..n]
    {
      n := n + 1;
    }
    if n < |s| {
      FirstNewlineIs(s, n);
    } else {
      assert s[..n] == s;
      NoNewline(s);
    }
  }

  /** stream_response of the dispatcher's router: blank chunks are dropped, the other ones are framed. */
  method SendLines(first: Text, chunks: seq<Text>) returns (sent: seq<Text>)
    ensures Concat(sent) == Frame([first] + NotEmpty(chunks))
  {
    sent := [first + [NEWLINE]];
    FrameAppend([], first);
    assert sent[..0] == [];
    for i := 0 to |chunks|
      invariant Concat(sent) == Frame([first] + NotEmpty(chunks[..i]))
    {
      assert chunks[..i + 1][..i] == chunks[..i];
      if chunks[i] != [] {
        ghost var before := sent;
        FrameAppend([first] + NotEmpty(chunks[..i]), chunks[i]);
        sent := sent + [chunks[i] + [NEWLINE]];
        assert sent[..|before|] == before;
        assert [first] + NotEmpty(chunks[..i + 1]) == [first] + NotEmpty(chunks[..i]) + [chunks[i]];
      } else {
        assert NotEmpty(chunks[..i + 1]) == NotEmpty(chunks[..i]);
      }
    }
    assert chunks[..|chunks|] == chunks;
  }

  /** The chunks, already stripped, that are sent. */
  function NotEmpty(chunks: seq<Text>): seq<Text> {
    if |chunks| == 0 then []
    else NotEmpty(chunks[..|chunks| - 1]) + if chunks[|chunks| - 1] == [] then [] else [chunks[|chunks| - 1]]
  }

  lemma {:induction false} FrameAppend(lines: seq<Text>, line: Text)
    ensures Frame(lines + [line]) == Frame(lines) + (line + [NEWLINE])
  {
    if |lines| == 0 {
      assert [line][1..] == [];
    } else {
      FrameAppend(lines[1..], line);
      assert (lines + [line])[1..] == lines[1..] + [line];
    }
  }

  /** They are the chunks that are not empty, in order and each as often as it came. */
  lemma {:induction false} NotEmptyIs(chunks: seq<Text>, c: Text)
    ensures Subsequence(NotEmpty(chunks), chunks)
    ensures multiset(NotEmpty(chunks))[c] == if c == [] then 0 else multiset(chunks)[c]
  {
    if |chunks| == 0 {
      assert chunks == [] && NotEmpty(chunks) == [];
    } else {
      var front, last := chunks[..|chunks| - 1], chunks[|chunks| - 1];
      assert chunks == front + [last];
      NotEmptyIs(front, c);
      NotEmptySnoc(front, last, c);
    }
  }

  lemma NotEmptySnoc(front: seq<Text>, last: Text, c: Text)
    requires Subsequence(NotEmpty(front), front)
    ensures Subsequence(NotEmpty(front + [last]), front + [last])
    ensures multiset(NotEmpty(front + [last]))[c] == multiset(NotEmpty(front))[c]
              + if last != [] && last == c then 1 else 0
    ensures multiset(front + [last])[c] == multiset(front)[c] + if last == c then 1 else 0
  {
    SubsequenceSnoc(NotEmpty(front), front, last);
    assert (front + [last])[..|front|] == front;
    if last == [] {
      assert NotEmpty(front + [last]) == NotEmpty(front);
    } else {
      assert NotEmpty(front + [last]) == NotEmpty(front) + [last];
    }
  }

  lemma {:induction false} NotEmptyClean(chunks: seq<Text>)
    requires forall i :: 0 <= i < |chunks| ==> NEWLINE !in chunks[i]
    ensures forall i :: 0 <= i < |NotEmpty(chunks)| ==> NEWLINE !in NotEmpty(chunks)[i] && NotEmpty(chunks)[i] != []
  {
    if |chunks| > 0 { NotEmptyClean(chunks[..|chunks| - 1]); }
  }

  /** However the bytes are cut on the way, they hold the first line and then the chunks that were sent. */
  lemma AnyCutReadsBack(first: Text, chunks: seq<Text>, received: seq<Text>)
    requires NEWLINE !in first && forall i :: 0 <= i < |chunks| ==> NEWLINE !in chunks[i]
    requires Concat(received) == Frame([first] + NotEmpty(chunks))
    ensures Lines(Concat(received)) == [first] + NotEmpty(chunks) && Rest(Concat(received)) == []
  {
    NotEmptyClean(chunks);
    LinesOfFrame([first] + NotEmpty(chunks));
  }
}
