/** The writer that turns docker's byte stream into build log rows, one per line
    (internal/zeitwork/build.go:656-704).

    A line is trimmed before it is kept. Trimming depends on Unicode tables, so it is a
    parameter here: every result below holds whatever the trimming function is. */
module LogWriter {

  type Byte = bv8
  type Bytes = seq<Byte>

  const NEWLINE: Byte := 10

  // ---------------------------------------------------------------------
  // What a line is
  // ---------------------------------------------------------------------

  predicate OneLine(s: Bytes) {
    forall i :: 0 <= i < |s| ==> s[i] != NEWLINE
  }

  /** A list of lines with its unterminated rest. */
  datatype Split = Split(lines: seq<Bytes>, rest: Bytes) {

    predicate Proper() {
      OneLine(rest) && forall i :: 0 <= i < |lines| ==> OneLine(lines[i])
    }

    /** The stream the lines came from. */
    function Text(): Bytes {
      Terminated(lines) + rest
    }

    function All(): seq<Bytes> {
      lines + [rest]
    }
  }

  function Terminated(lines: seq<Bytes>): Bytes {
    if lines == [] then [] else lines[0] + [NEWLINE] + Terminated(lines[1..])
  }

  /** Position of the first newline, or the length when there is none. */
  function FirstNewline(s: Bytes): (i: nat)
    ensures i <= |s|
    ensures OneLine(s[..i])
    ensures i < |s| ==> s[i] == NEWLINE
  {
    if s == [] || s[0] == NEWLINE then 0
    else
      var i := 1 + FirstNewline(s[1..]);
      assert s[..i] == [s[0]] + s[1..][..i - 1];
      i
  }

  lemma {:induction false} FirstIsUnique(s: Bytes, i: nat)
    requires i <= |s| && OneLine(s[..i]) && (i < |s| ==> s[i] == NEWLINE)
    ensures FirstNewline(s) == i
  {
  }

  /** Cutting a stream at its newlines. */
  function Cut(s: Bytes): Split
    decreases |s|
  {
    var i := FirstNewline(s);
    if i == |s| then Split([], s)
    else
      var r := Cut(s[i + 1..]);
      Split([s[..i]] + r.lines, r.rest)
  }

  lemma Prepended(first: Bytes, r: Split)
    requires OneLine(first) && r.Proper()
    ensures var all := Split([first] + r.lines, r.rest);
            all.Proper() && all.Text() == first + [NEWLINE] + r.Text()
  {
    assert ([first] + r.lines)[1..] == r.lines;
  }

  /** A cut loses nothing and leaves no newline inside a line. */
  lemma {:induction false} CutIsASplit(s: Bytes)
    ensures Cut(s).Proper() && Cut(s).Text() == s
    decreases |s|
  {
    hide Split.Text, Split.Proper, OneLine;
    var i := FirstNewline(s);
    if i == |s| {
      Unterminated(s);
    } else {
      CutIsASplit(s[i + 1..]);
      Prepended(s[..i], Cut(s[i + 1..]));
      Reassembled(s, i);
    }
  }

  lemma Unterminated(s: Bytes)
    requires FirstNewline(s) == |s|
    ensures Split([], s).Proper() && Split([], s).Text() == s
  {
    assert s[..|s|] == s;
  }

  lemma Reassembled(s: Bytes, i: nat)
    requires i < |s|
    ensures s[..i] + [s[i]] + s[i + 1..] == s
  {
  }

  /** A cut is determined by the stream: any proper list of lines with the same text is the
      one `Cut` gives. */
  lemma {:induction false} CutIsTheOnlySplit(r: Split)
    requires r.Proper()
    ensures Cut(r.Text()) == r
    decreases |r.lines|
  {
    if r.lines == [] {
      assert r.Text() == r.rest;
      FirstIsUnique(r.rest, |r.rest|);
    } else {
      hide OneLine, FirstNewline;
      var tail := Split(r.lines[1..], r.rest);
      CutOne(r.lines[0], tail.Text());
      assert [r.lines[0]] + tail.lines == r.lines;
      Prepended(r.lines[0], tail);
      CutIsTheOnlySplit(tail);
    }
  }

  lemma CutOne(first: Bytes, rest: Bytes)
    requires OneLine(first)
    ensures Cut(first + [NEWLINE] + rest) == Split([first] + Cut(rest).lines, Cut(rest).rest)
  {
    var s := first + [NEWLINE] + rest;
    assert s[..|first|] == first && s[|first|] == NEWLINE && s[|first| + 1..] == rest;
    FirstIsUnique(s, |first|);
  }

  /** Cutting in two goes: what the first cut leaves over is glued in front of the rest of the
      stream. This is what makes the writer indifferent to where the chunks end. */
  lemma {:induction false} CutConcat(s: Bytes, t: Bytes)
    ensures var a := Cut(s); var b := Cut(a.rest + t);
            Cut(s + t) == Split(a.lines + b.lines, b.rest)
  {
    var a := Cut(s);
    var b := Cut(a.rest + t);
    CutIsASplit(s);
    CutIsASplit(a.rest + t);
    Glued(a, t, b);
    CutIsTheOnlySplit(Split(a.lines + b.lines, b.rest));
  }

  lemma Glued(a: Split, t: Bytes, b: Split)
    requires a.Proper() && b.Proper() && b.Text() == a.rest + t
    ensures var all := Split(a.lines + b.lines, b.rest); all.Proper() && all.Text() == a.Text() + t
  {
    TerminatedConcat(a.lines, b.lines);
    assert Terminated(a.lines) + (a.rest + t) == (Terminated(a.lines) + a.rest) + t;
    assert Terminated(a.lines) + (Terminated(b.lines) + b.rest) == (Terminated(a.lines) + Terminated(b.lines)) + b.rest;
  }

  lemma {:induction false} TerminatedConcat(xs: seq<Bytes>, ys: seq<Bytes>)
    ensures Terminated(xs + ys) == Terminated(xs) + Terminated(ys)
  {
    if xs == [] {
      assert xs + ys == ys;
    } else {
      assert (xs + ys)[1..] == xs[1..] + ys;
      TerminatedConcat(xs[1..], ys);
    }
  }

  // ---------------------------------------------------------------------
  // What is stored
  // ---------------------------------------------------------------------

  /** The rows written for a list of lines: trimmed, blank ones skipped. */
  function Rows(trim: Bytes -> Bytes, lines: seq<Bytes>): seq<Bytes> {
    if lines == [] then []
    else
      var line := trim(lines[0]);
      (if line != [] then [line] else []) + Rows(trim, lines[1..])
  }

  lemma {:induction false} RowsConcat(trim: Bytes -> Bytes, xs: seq<Bytes>, ys: seq<Bytes>)
    ensures Rows(trim, xs + ys) == Rows(trim, xs) + Rows(trim, ys)
  {
    if xs == [] {
      assert xs + ys == ys;
    } else {
      assert (xs + ys)[1..] == xs[1..] + ys;
      RowsConcat(trim, xs[1..], ys);
    }
  }

  /** Positions, from `i` on, of the lines that are not blank. */
  function Kept(trim: Bytes -> Bytes, lines: seq<Bytes>, i: nat): (r: seq<nat>)
    requires i <= |lines|
    ensures forall k :: 0 <= k < |r| ==> i <= r[k] < |lines|
    ensures forall j, k :: 0 <= j < k < |r| ==> r[j] < r[k]
    decreases |lines| - i
  {
    if i == |lines| then []
    else (if trim(lines[i]) != [] then [i] else []) + Kept(trim, lines, i + 1)
  }

  lemma {:induction false} KeptExactly(trim: Bytes -> Bytes, lines: seq<Bytes>, i: nat, j: nat)
    requires i <= j < |lines|
    ensures j in Kept(trim, lines, i) <==> trim(lines[j]) != []
    decreases |lines| - i
  {
    if i < j {
      KeptExactly(trim, lines, i + 1, j);
    }
  }

  /** Rows come in line order, one for each line that is not blank, holding its trimmed text. */
  lemma {:induction false} RowsAreTheNonBlankLines(trim: Bytes -> Bytes, lines: seq<Bytes>, i: nat)
    requires i <= |lines|
    ensures |Rows(trim, lines[i..])| == |Kept(trim, lines, i)|
    ensures forall k :: 0 <= k < |Kept(trim, lines, i)| ==>
              Rows(trim, lines[i..])[k] == trim(lines[Kept(trim, lines, i)[k]])
    decreases |lines| - i
  {
    if i < |lines| {
      RowsAreTheNonBlankLines(trim, lines, i + 1);
      assert lines[i..][1..] == lines[i + 1..];
      assert Rows(trim, lines[i..]) ==
             (if trim(lines[i]) != [] then [trim(lines[i])] else []) + Rows(trim, lines[i + 1..]);
    }
  }

  // ---------------------------------------------------------------------
  // Chunk invariance
  // ---------------------------------------------------------------------

  /** What the writer remembers: the unfinished line and the rows stored so far. */
  datatype Memory = Memory(buf: Bytes, logged: seq<Bytes>)

  /** Storing every complete line in the buffer. */
  function Drained(trim: Bytes -> Bytes, m: Memory): Memory {
    Memory(Cut(m.buf).rest, m.logged + Rows(trim, Cut(m.buf).lines))
  }

  function Written(trim: Bytes -> Bytes, m: Memory, p: Bytes): Memory {
    Drained(trim, m.(buf := m.buf + p))
  }

  function WrittenAll(trim: Bytes -> Bytes, m: Memory, chunks: seq<Bytes>): Memory
    decreases |chunks|
  {
    if chunks == [] then m
    else WrittenAll(trim, Written(trim, m, chunks[0]), chunks[1..])
  }

  function Flushed(trim: Bytes -> Bytes, m: Memory): Memory {
    Memory([], m.logged + Rows(trim, [m.buf]))
  }

  function Joined(chunks: seq<Bytes>): Bytes {
    if chunks == [] then [] else chunks[0] + Joined(chunks[1..])
  }

  lemma DrainOne(trim: Bytes -> Bytes, m: Memory)
    requires FirstNewline(m.buf) < |m.buf|
    ensures var i := FirstNewline(m.buf);
            Drained(trim, m) == Drained(trim, Memory(m.buf[i + 1..], m.logged + Rows(trim, [m.buf[..i]])))
  {
    var i := FirstNewline(m.buf);
    var later := Cut(m.buf[i + 1..]).lines;
    RowsConcat(trim, [m.buf[..i]], later);
    assert m.logged + (Rows(trim, [m.buf[..i]]) + Rows(trim, later))
        == (m.logged + Rows(trim, [m.buf[..i]])) + Rows(trim, later);
  }

  lemma DrainNone(trim: Bytes -> Bytes, m: Memory)
    requires FirstNewline(m.buf) == |m.buf|
    ensures Drained(trim, m) == m
  {
    assert m.logged + [] == m.logged;
  }

  lemma WriteDrains(trim: Bytes -> Bytes, m: Memory, p: Bytes)
    ensures OneLine(Written(trim, m, p).buf)
  {
    CutIsASplit(m.buf + p);
  }

  lemma WriteNothing(trim: Bytes -> Bytes, m: Memory)
    requires OneLine(m.buf)
    ensures Written(trim, m, []) == m
  {
    assert m.buf + [] == m.buf;
    FirstIsUnique(m.buf, |m.buf|);
    DrainNone(trim, m);
  }

  lemma WriteTwice(trim: Bytes -> Bytes, m: Memory, p: Bytes, q: Bytes)
    ensures Written(trim, Written(trim, m, p), q) == Written(trim, m, p + q)
  {
    hide Cut, Rows;
    var a := Cut(m.buf + p);
    var b := Cut(a.rest + q);
    CutConcat(m.buf + p, q);
    assert (m.buf + p) + q == m.buf + (p + q);
    RowsConcat(trim, a.lines, b.lines);
    Assoc(m.logged, Rows(trim, a.lines), Rows(trim, b.lines));
  }

  lemma Assoc<T>(x: seq<T>, y: seq<T>, z: seq<T>)
    ensures (x + y) + z == x + (y + z)
  {
  }

  /** Where the chunks end makes no difference: from any state whose buffer holds no newline,
      writing them one by one is writing the bytes in one go, and the buffer again holds no
      newline. */
  lemma {:induction false} ChunkInvariant(trim: Bytes -> Bytes, m: Memory, chunks: seq<Bytes>)
    requires OneLine(m.buf)
    ensures WrittenAll(trim, m, chunks) == Written(trim, m, Joined(chunks))
    ensures OneLine(WrittenAll(trim, m, chunks).buf)
    decreases |chunks|
  {
    hide Written;
    if chunks == [] {
      WriteNothing(trim, m);
    } else {
      var next := Written(trim, m, chunks[0]);
      WriteTwice(trim, m, chunks[0], Joined(chunks[1..]));
      WriteDrains(trim, m, chunks[0]);
      ChunkInvariant(trim, next, chunks[1..]);
    }
  }

  /** A whole stream, in any chunks, followed by a flush: the rows are those of all its
      lines, the unterminated last one included. */
  lemma StreamStored(trim: Bytes -> Bytes, before: seq<Bytes>, chunks: seq<Bytes>)
    ensures Flushed(trim, WrittenAll(trim, Memory([], before), chunks))
         == Memory([], before + Rows(trim, Cut(Joined(chunks)).All()))
  {
    hide Cut, Rows, WrittenAll, Joined;
    var r := Cut(Joined(chunks));
    ChunkInvariant(trim, Memory([], before), chunks);
    assert [] + Joined(chunks) == Joined(chunks);
    RowsConcat(trim, r.lines, [r.rest]);
    Assoc(before, Rows(trim, r.lines), Rows(trim, [r.rest]));
  }

  // ---------------------------------------------------------------------
  // The writer
  // ---------------------------------------------------------------------

  class Writer {
    const trim: Bytes -> Bytes
    var buf: Bytes
    /** The messages handed to BuildLogCreate, in order. */
    var logged: seq<Bytes>

    constructor (trim: Bytes -> Bytes)
      ensures this.trim == trim && buf == [] && logged == []
    {
      this.trim := trim;
      buf := [];
      logged := [];
    }

    ghost function Remembered(): Memory
      reads this
    {
      Memory(buf, logged)
    }

    method Store(line: Bytes)
      modifies `logged
      ensures logged == old(logged) + Rows(trim, [line])
    {
      var trimmed := trim(line);
      if trimmed != [] {
        logged := logged + [trimmed];
      }
    }

    /** bytes.IndexByte: -1 when there is no newline. */
    method IndexOfNewline() returns (idx: int)
      ensures idx == if FirstNewline(buf) < |buf| then FirstNewline(buf) else -1
    {
      idx := 0;
      while idx < |buf|
        invariant 0 <= idx <= |buf| && OneLine(buf[..idx])
      {
        if buf[idx] == NEWLINE {
          FirstIsUnique(buf, idx);
          return;
        }
        idx := idx + 1;
      }
      FirstIsUnique(buf, idx);
      idx := -1;
    }

    method Write(p: Bytes) returns (n: nat)
      modifies this
      ensures n == |p|
      ensures Remembered() == Written(trim, old(Remembered()), p)
    {
      hide Cut, Rows, FirstNewline;
      ghost var goal := Written(trim, Remembered(), p);
      buf := buf + p;
      var idx := IndexOfNewline();
      while idx >= 0
        invariant goal == Drained(trim, Remembered())
        invariant idx == if FirstNewline(buf) < |buf| then FirstNewline(buf) else -1
        decreases |buf|
      {
        DrainOne(trim, Remembered());
        var line := buf[..idx];
        buf := buf[idx + 1..];
        Store(line);
        idx := IndexOfNewline();
      }
      DrainNone(trim, Remembered());
      return |p|;
    }

    method Flush()
      modifies this
      ensures Remembered() == Flushed(trim, old(Remembered()))
      ensures buf == [] && logged == old(logged) + if trim(old(buf)) == [] then [] else [trim(old(buf))]
    {
      Store(buf);
      buf := [];
    }

    /** A stream delivered in any chunks and then flushed. */
    method Deliver(chunks: seq<Bytes>)
      requires buf == []
      modifies this
      ensures buf == []
      ensures logged == old(logged) + Rows(trim, Cut(Joined(chunks)).All())
    {
      ghost var goal := WrittenAll(trim, Remembered(), chunks);
      StreamStored(trim, logged, chunks);
      for i := 0 to |chunks|
        invariant goal == WrittenAll(trim, Remembered(), chunks[i..])
      {
        var _ := Write(chunks[i]);
        assert chunks[i..][1..] == chunks[i + 1..];
      }
      Flush();
    }
  }
}
