/** Newline framing of the pool connection: bytes arrive in arbitrary chunks, lines come out. */
module Framing {

  const LIMIT: nat := 4 * 1024 * 1024
  const CHUNK_SIZE: nat := 65536

  // ---- the meaning: segments ended by newlines, and what follows the last ----

  function Tail(s: string): string {
    if s == [] then []
    else if s[|s| - 1] == '\n' then []
    else Tail(s[..|s| - 1]) + [s[|s| - 1]]
  }

  function Segments(s: string): seq<string> {
    if s == [] then []
    else if s[|s| - 1] == '\n' then Segments(s[..|s| - 1]) + [Tail(s[..|s| - 1])]
    else Segments(s[..|s| - 1])
  }

  function NonEmpty(lines: seq<string>): seq<string> {
    if lines == [] then []
    else NonEmpty(lines[..|lines| - 1]) + (if lines[|lines| - 1] == [] then [] else [lines[|lines| - 1]])
  }

  function Lines(s: string): seq<string> { NonEmpty(Segments(s)) }

  function Concat(chunks: seq<string>): string {
    if chunks == [] then [] else Concat(chunks[..|chunks| - 1]) + chunks[|chunks| - 1]
  }

  /** Segments put back together, each with its newline. */
  function Joined(segments: seq<string>): string {
    if segments == [] then [] else Joined(segments[..|segments| - 1]) + segments[|segments| - 1] + "\n"
  }

  ghost predicate OneLine(s: string) { '\n' !in s }

  ghost predicate AllOneLine(segments: seq<string>) { forall i :: 0 <= i < |segments| ==> OneLine(segments[i]) }

  /** Cutting at newlines loses nothing and leaves none inside a piece. */
  lemma {:induction false} PiecesRejoin(s: string)
    ensures Joined(Segments(s)) + Tail(s) == s && AllOneLine(Segments(s)) && OneLine(Tail(s))
  {
    if s != [] {
      var front, c := s[..|s| - 1], s[|s| - 1];
      PiecesRejoin(front);
      assert s == front + [c];
      if c == '\n' {
        assert Segments(s)[..|Segments(s)| - 1] == Segments(front);
        assert Joined(Segments(s)) == Joined(Segments(front)) + Tail(front) + "\n";
      } else {
        assert Joined(Segments(front)) + (Tail(front) + [c]) == (Joined(Segments(front)) + Tail(front)) + [c];
      }
    }
  }

  /** Leaving out the empty ones loses no text and no other line, and keeps the order. */
  lemma {:induction false} NonEmptyKeeps(lines: seq<string>, line: string)
    ensures [] !in NonEmpty(lines) && Concat(NonEmpty(lines)) == Concat(lines)
    ensures line != [] ==> multiset(NonEmpty(lines))[line] == multiset(lines)[line]
  {
    if lines != [] {
      var front, last := lines[..|lines| - 1], lines[|lines| - 1];
      NonEmptyKeeps(front, line);
      assert lines == front + [last];
      var kept := NonEmpty(front);
      if last != [] {
        assert (kept + [last])[..|kept|] == kept;
      } else {
        assert kept + [] == kept && Concat(front) + [] == Concat(front);
      }
    }
  }

  lemma AppendChar(s: string, c: char)
    ensures Tail(s + [c]) == if c == '\n' then [] else Tail(s) + [c]
    ensures Segments(s + [c]) == if c == '\n' then Segments(s) + [Tail(s)] else Segments(s)
  {
    assert (s + [c])[..|s|] == s;
  }

  lemma OneLinePrefix(t: string)
    requires OneLine(t) && t != []
    ensures OneLine(t[..|t| - 1]) && t[|t| - 1] != '\n'
  {
    assert t == t[..|t| - 1] + [t[|t| - 1]];
    assert t[|t| - 1] in t;
  }

  /** Text without a newline only makes the tail longer. */
  lemma {:induction false} AppendText(s: string, t: string)
    requires OneLine(t)
    ensures Tail(s + t) == Tail(s) + t && Segments(s + t) == Segments(s)
  {
    hide Tail, Segments, OneLine;
    if t == [] {
      assert s + t == s;
    } else {
      var front, c := t[..|t| - 1], t[|t| - 1];
      OneLinePrefix(t);
      AppendText(s, front);
      AppendChar(s + front, c);
      assert s + t == (s + front) + [c];
      assert Tail(s) + t == (Tail(s) + front) + [c];
    }
  }

  lemma AppendLine(s: string, t: string)
    requires OneLine(t)
    ensures Tail(s + t + "\n") == [] && Segments(s + t + "\n") == Segments(s) + [Tail(s) + t]
  {
    AppendText(s, t);
    AppendChar(s + t, '\n');
  }

  lemma NoPieces()
    ensures Segments([]) == [] && Tail([]) == [] && OneLine([])
  {
  }

  /** No other pieces rejoin to the same text. */
  lemma {:induction false} PiecesUnique(segments: seq<string>, tail: string)
    requires AllOneLine(segments) && OneLine(tail)
    ensures Segments(Joined(segments) + tail) == segments && Tail(Joined(segments) + tail) == tail
  {
    hide Tail, Segments, OneLine;
    if segments == [] {
      AppendText([], tail);
      NoPieces();
      assert Joined(segments) + tail == [] + tail;
      assert [] + tail == tail;
    } else {
      var front, last := segments[..|segments| - 1], segments[|segments| - 1];
      assert segments == front + [last];
      NoPieces();
      PiecesUnique(front, []);
      assert Joined(front) + [] == Joined(front);
      AppendLine(Joined(front), last);
      AppendText(Joined(segments), tail);
      assert [] + last == last && [] + tail == tail;
    }
  }

  lemma NonEmptyAppend(lines: seq<string>, line: string)
    ensures NonEmpty(lines + [line]) == NonEmpty(lines) + (if line == [] then [] else [line])
  {
    assert (lines + [line])[..|lines|] == lines;
  }

  lemma CutText(s: string, work: string, start: nat, nl: nat)
    requires start <= nl < |work| && work[nl] == '\n'
    ensures s + work[..nl + 1] == (s + work[..start]) + work[start..nl] + "\n"
  {
    assert work[..nl + 1] == work[..start] + work[start..nl] + "\n";
  }

  /** What is already known of a text of which the first `start` characters are cut into lines. */
  lemma CutLine(s: string, work: string, start: nat, nl: nat)
    requires start <= nl < |work| && work[nl] == '\n' && OneLine(work[start..nl]) && Tail(s + work[..start]) == []
    ensures Tail(s + work[..nl + 1]) == [] && Segments(s + work[..nl + 1]) == Segments(s + work[..start]) + [work[start..nl]]
  {
    hide Tail, Segments, OneLine;
    AppendLine(s + work[..start], work[start..nl]);
    CutText(s, work, start, nl);
    assert [] + work[start..nl] == work[start..nl];
  }

  method FindNewline(work: string, start: nat) returns (found: bool, nl: nat)
    requires start <= |work|
    ensures found ==> start <= nl < |work| && work[nl] == '\n' && OneLine(work[start..nl])
    ensures !found ==> OneLine(work[start..])
  {
    nl := start;
    while nl < |work|
      invariant start <= nl <= |work| && OneLine(work[start..nl])
    {
      if work[nl] == '\n' { return true, nl; }
      assert work[start..nl + 1] == work[start..nl] + [work[nl]];
      nl := nl + 1;
    }
    assert work[start..nl] == work[start..];
    return false, nl;
  }

  // ---- the receiving side ----

  class Receiver {
    var rxbuf: string
    var handled: seq<string>       // the lines passed on, oldest first
    ghost var received: string     // accepted on this connection
    ghost var before: seq<string>  // handled on earlier connections

    /** Whatever the chunks were, the lines are those of the byte stream and the buffer its tail. */
    ghost predicate Valid() reads this {
      rxbuf == Tail(received) && handled == before + Lines(received)
    }

    constructor ()
      ensures Valid() && handled == [] && received == []
    {
      rxbuf, handled, received, before := [], [], [], [];
    }

    method Connect()
      modifies this
      ensures Valid() && rxbuf == [] && received == [] && handled == old(handled) == before
    {
      rxbuf := [];
      received, before := [], handled;
    }

    /** One chunk; refused, with all unfinished text forgotten, when too much would be buffered. */
    method Receive(chunk: string) returns (ok: bool)
      requires Valid()
      modifies this
      ensures ok <==> |Tail(old(received))| + |chunk| <= LIMIT
      ensures ok ==> Valid() && received == old(received) + chunk && before == old(before)
      ensures !ok ==> rxbuf == [] && handled == old(handled)
    {
      hide Tail, Segments, NonEmpty, OneLine;
      rxbuf := rxbuf + chunk;
      if |rxbuf| > LIMIT {
        rxbuf := [];
        return false;
      }
      var work := rxbuf;
      rxbuf := [];
      WholeLines(received);
      // the text before the buffered part: whole lines only
      ghost var s := received[..|received| - |Tail(received)|];
      var start := 0;
      var found, nl := FindNewline(work, start);
      assert s + work[..0] == s;
      while found
        invariant rxbuf == [] && before == old(before) && received == old(received)
        invariant start <= |work| && Tail(s + work[..start]) == [] && handled == before + Lines(s + work[..start])
        invariant found ==> start <= nl < |work| && work[nl] == '\n' && OneLine(work[start..nl])
        invariant !found ==> OneLine(work[start..])
        decreases |work| - start, found
      {
        var line := work[start..nl];
        CutLine(s, work, start, nl);
        NonEmptyAppend(Segments(s + work[..start]), line);
        start := nl + 1;
        if line != [] { handled := handled + [line]; }
        found, nl := FindNewline(work, start);
      }
      AppendText(s + work[..start], work[start..]);
      received := received + chunk;
      assert received == (s + work[..start]) + work[start..];
      assert [] + work[start..] == work[start..];
      if start < |work| { rxbuf := work[start..] + rxbuf; }
      ok := true;
    }

    /** A connection's chunks in turn, until one is refused. */
    method Run(chunks: seq<string>) returns (n: nat)
      modifies this
      ensures n <= |chunks| && (n < |chunks| <==> exists j :: 0 <= j < |chunks| && Overflows(chunks, j))
      ensures forall j :: 0 <= j < n ==> !Overflows(chunks, j)
      ensures handled == old(handled) + Lines(Concat(chunks[..n]))
      ensures rxbuf == if n == |chunks| then Tail(Concat(chunks)) else []
    {
      Connect();
      n := 0;
      while n < |chunks|
        invariant n <= |chunks| && Valid() && received == Concat(chunks[..n]) && before == old(handled)
        invariant forall j :: 0 <= j < n ==> !Overflows(chunks, j)
      {
        assert chunks[..n + 1][..n] == chunks[..n];
        var ok := Receive(chunks[n]);
        if !ok {
          assert Overflows(chunks, n);
          return;
        }
        n := n + 1;
      }
      assert chunks[..n] == chunks;
    }
  }

  /** A text less its tail ends in whole lines. */
  lemma {:induction false} WholeLines(s: string)
    ensures |Tail(s)| <= |s| && s[|s| - |Tail(s)|..] == Tail(s)
    ensures Tail(s[..|s| - |Tail(s)|]) == [] && Segments(s[..|s| - |Tail(s)|]) == Segments(s)
  {
    if s == [] {
    } else if s[|s| - 1] == '\n' {
      assert s[..|s|] == s;
    } else {
      var front := s[..|s| - 1];
      WholeLines(front);
      assert front[..|front| - |Tail(front)|] == s[..|s| - |Tail(s)|];
    }
  }

  ghost predicate Overflows(chunks: seq<string>, j: nat)
    requires j < |chunks|
  {
    |Tail(Concat(chunks[..j]))| + |chunks[j]| > LIMIT
  }

  /** The refusal spares every stream whose lines are short enough, however it is cut. */
  lemma ShortLinesNeverOverflow(chunks: seq<string>, j: nat)
    requires j < |chunks| && |chunks[j]| <= CHUNK_SIZE
    requires |Tail(Concat(chunks))| + CHUNK_SIZE <= LIMIT
    requires forall i :: 0 <= i < |Segments(Concat(chunks))| ==> |Segments(Concat(chunks))[i]| + CHUNK_SIZE <= LIMIT
    ensures !Overflows(chunks, j)
  {
    PrefixTail(Concat(chunks[..j]), Rest(chunks, j));
    ConcatRest(chunks, j);
  }

  function Rest(chunks: seq<string>, j: nat): string
    requires j <= |chunks|
    decreases |chunks|
  {
    if j == |chunks| then [] else Rest(chunks[..|chunks| - 1], j) + chunks[|chunks| - 1]
  }

  lemma {:induction false} ConcatRest(chunks: seq<string>, j: nat)
    requires j <= |chunks|
    ensures Concat(chunks) == Concat(chunks[..j]) + Rest(chunks, j)
    decreases |chunks|
  {
    if j == |chunks| {
      assert chunks[..j] == chunks;
    } else {
      ConcatRest(chunks[..|chunks| - 1], j);
      assert chunks[..|chunks| - 1][..j] == chunks[..j];
    }
  }

  /** The tail of a prefix is the beginning of a piece of the whole. */
  lemma {:induction false} PrefixTail(s: string, t: string)
    ensures (exists i :: 0 <= i < |Segments(s + t)| && Tail(s) <= Segments(s + t)[i]) || Tail(s) <= Tail(s + t)
  {
    if t == [] {
      assert s + t == s;
    } else {
      var front, c := t[..|t| - 1], t[|t| - 1];
      PrefixTail(s, front);
      AppendChar(s + front, c);
      assert s + t == (s + front) + [c];
      if i :| 0 <= i < |Segments(s + front)| && Tail(s) <= Segments(s + front)[i] {
        assert Tail(s) <= Segments(s + t)[i];
      } else if c == '\n' {
        assert Tail(s) <= Segments(s + t)[|Segments(s + front)|];
      }
    }
  }
}
