/** The byte-bounded diagnostic buffer of an adapter process: lines are cut at a line limit,
    redacted when they end, and the oldest are evicted to stay within a byte limit.

    `StreamDecidesBuffer` reads the whole byte stream at once: the buffer is the longest suffix of
    its committed lines that fits, however the bytes were split across writes. */
module Diagnostics {
  import opened Basics

  newtype Byte = x: int | 0 <= x < 256

  type Line = seq<Byte>

  const NEWLINE: Byte := 10

  /** Byte and line limits after the constructor has put them in range, and the redaction in force. */
  datatype Policy = Policy(maximum: nat, lineMax: nat, redact: Line -> Line)

  predicate InRange(p: Policy) {
    p.maximum >= 1 && p.lineMax >= 1
  }

  /** The buffer; `history` is every line committed so far, redacted. */
  datatype Buffer = Buffer(entries: seq<Line>, pending: Line, discard: bool, size: int, dropped: int,
                           history: seq<Line>)

  const EMPTY := Buffer([], [], false, 0, 0, [])

  function Total(lines: seq<Line>): nat {
    if lines == [] then 0 else |lines[0]| + 1 + Total(lines[1..])
  }

  /** Drop the oldest lines until `need` more bytes fit, or none are left. */
  function Evict(entries: seq<Line>, need: nat, maximum: nat): seq<Line> {
    if entries != [] && Total(entries) + need > maximum then Evict(entries[1..], need, maximum) else entries
  }

  /** `commitLocked`. */
  function Commit(b: Buffer, p: Policy): Buffer {
    if b.pending == [] then b.(discard := false)
    else
      var line := p.redact(b.pending);
      var need := |line| + 1;
      var kept := Evict(b.entries, need, p.maximum);
      var evicted := |b.entries| - |kept|;
      if need > p.maximum then
        Buffer(kept, [], false, Total(kept), b.dropped + evicted + 1, b.history + [line])
      else
        Buffer(kept + [line], [], false, Total(kept) + need, b.dropped + evicted, b.history + [line])
  }

  /** One byte of `Write`. */
  function Feed(b: Buffer, v: Byte, p: Policy): Buffer {
    if v == NEWLINE then Commit(b, p)
    else if b.discard then b
    else if |b.pending| >= p.lineMax then b.(discard := true, dropped := b.dropped + 1)
    else b.(pending := b.pending + [v])
  }

  function Write(b: Buffer, data: seq<Byte>, p: Policy): Buffer {
    if data == [] then b
    else Feed(Write(b, data[..|data| - 1], p), data[|data| - 1], p)
  }

  /** Splitting the input across writes in any way gives the same buffer. */
  lemma {:induction false} WritesCompose(b: Buffer, first: seq<Byte>, second: seq<Byte>, p: Policy)
    ensures Write(Write(b, first, p), second, p) == Write(b, first + second, p)
  {
    if second == [] {
      assert first + second == first;
    } else {
      var rest := second[..|second| - 1];
      WritesCompose(b, first, rest, p);
      assert (first + second)[..|first + second| - 1] == first + rest;
    }
  }

  // ---------------------------------------------------------------------------
  // Longest fitting suffix
  // ---------------------------------------------------------------------------

  function Suffix(lines: seq<Line>, n: nat): seq<Line>
    requires n <= |lines|
  {
    lines[|lines| - n..]
  }

  /** `entries` is the longest suffix of `history` whose lines, with their newlines, fit. */
  ghost predicate LongestFittingSuffix(entries: seq<Line>, history: seq<Line>, maximum: nat) {
    && |entries| <= |history|
    && entries == Suffix(history, |entries|)
    && Total(entries) <= maximum
    && forall n :: |entries| < n <= |history| ==> Total(Suffix(history, n)) > maximum
  }

  lemma {:induction false} TotalAppend(lines: seq<Line>, line: Line)
    ensures Total(lines + [line]) == Total(lines) + |line| + 1
  {
    if lines == [] {
      assert lines + [line] == [line];
      assert [line][1..] == [];
    } else {
      assert (lines + [line])[1..] == lines[1..] + [line];
      TotalAppend(lines[1..], line);
    }
  }

  /** Eviction keeps the longest suffix that leaves room. */
  lemma {:induction false} EvictKeepsLongest(entries: seq<Line>, need: nat, maximum: nat)
    ensures var kept := Evict(entries, need, maximum);
            && |kept| <= |entries| && kept == Suffix(entries, |kept|)
            && (kept != [] ==> Total(kept) + need <= maximum)
            && (forall n :: |kept| < n <= |entries| ==> Total(Suffix(entries, n)) + need > maximum)
  {
    if entries != [] && Total(entries) + need > maximum {
      EvictKeepsLongest(entries[1..], need, maximum);
      var kept := Evict(entries, need, maximum);
      forall n | |kept| < n <= |entries|
        ensures Total(Suffix(entries, n)) + need > maximum
      {
        if n < |entries| {
          assert Suffix(entries, n) == Suffix(entries[1..], n);
        } else {
          assert Suffix(entries, n) == entries;
        }
      }
    }
  }

  lemma {:induction false} CommitKeepsLongest(entries: seq<Line>, history: seq<Line>, line: Line, maximum: nat)
    requires LongestFittingSuffix(entries, history, maximum)
    ensures var kept := Evict(entries, |line| + 1, maximum);
            LongestFittingSuffix(if |line| + 1 > maximum then [] else kept + [line], history + [line], maximum)
    ensures |line| + 1 > maximum ==> Evict(entries, |line| + 1, maximum) == []
  {
    var need := |line| + 1;
    var kept := Evict(entries, need, maximum);
    var next := if need > maximum then [] else kept + [line];
    EvictKeepsLongest(entries, need, maximum);
    TotalAppend(kept, line);
    forall n | |next| < n <= |history + [line]|
      ensures Total(Suffix(history + [line], n)) > maximum
    {
      assert Suffix(history + [line], n) == Suffix(history, n - 1) + [line];
      TotalAppend(Suffix(history, n - 1), line);
      if n - 1 <= |entries| {
        assert Suffix(history, n - 1) == Suffix(entries, n - 1);
      }
    }
  }

  /** The buffer's size is the bytes it holds, its entries are the longest suffix that fits, and
      every other committed line was dropped. */
  ghost predicate Consistent(b: Buffer, truncated: nat, p: Policy) {
    && LongestFittingSuffix(b.entries, b.history, p.maximum)
    && b.size == Total(b.entries)
    && b.dropped == truncated + |b.history| - |b.entries|
    && |b.pending| <= p.lineMax
  }

  lemma {:induction false} CommitCounts(b: Buffer, p: Policy)
    requires b.size == Total(b.entries) && b.pending != []
    ensures var next := Commit(b, p);
            && next.size == Total(next.entries) && |next.history| == |b.history| + 1
            && next.dropped == b.dropped + |b.entries| + 1 - |next.entries|
  {
    var line := p.redact(b.pending);
    EvictKeepsLongest(b.entries, |line| + 1, p.maximum);
    TotalAppend(Evict(b.entries, |line| + 1, p.maximum), line);
  }

  lemma {:induction false} CommitLongest(b: Buffer, p: Policy)
    requires LongestFittingSuffix(b.entries, b.history, p.maximum) && b.pending != []
    ensures LongestFittingSuffix(Commit(b, p).entries, Commit(b, p).history, p.maximum)
  {
    CommitKeepsLongest(b.entries, b.history, p.redact(b.pending), p.maximum);
  }

  lemma {:induction false} CommitKeeps(b: Buffer, truncated: nat, p: Policy)
    requires Consistent(b, truncated, p)
    ensures Consistent(Commit(b, p), truncated, p)
  {
    if b.pending != [] {
      CommitCounts(b, p);
      CommitLongest(b, p);
    }
  }

  predicate Truncates(b: Buffer, v: Byte, p: Policy) {
    v != NEWLINE && !b.discard && |b.pending| >= p.lineMax
  }

  /** Changing the redaction between bytes does not disturb this: it is kept under any policy with
      the same limits. */
  lemma {:induction false} FeedKeeps(b: Buffer, truncated: nat, v: Byte, p: Policy)
    requires Consistent(b, truncated, p)
    ensures Consistent(Feed(b, v, p), truncated + (if Truncates(b, v, p) then 1 else 0), p)
  {
    if v == NEWLINE {
      CommitKeeps(b, truncated, p);
    }
  }

  // ---------------------------------------------------------------------------
  // The whole stream at once
  // ---------------------------------------------------------------------------

  /** The ended lines of a stream, and what follows the last newline. */
  datatype Parsed = Parsed(lines: seq<Line>, tail: Line)

  function Parse(data: seq<Byte>): Parsed {
    if data == [] then Parsed([], [])
    else
      var p := Parse(data[..|data| - 1]);
      var v := data[|data| - 1];
      if v == 10 then Parsed(p.lines + [p.tail], []) else p.(tail := p.tail + [v])
  }

  function Cut(line: Line, lineMax: nat): Line {
    if |line| > lineMax then line[..lineMax] else line
  }

  /** The non-empty lines, cut and redacted. */
  function Committed(lines: seq<Line>, p: Policy): seq<Line> {
    if lines == [] then []
    else
      var last := lines[|lines| - 1];
      Committed(lines[..|lines| - 1], p) + if last == [] then [] else [p.redact(Cut(last, p.lineMax))]
  }

  function TooLong(lines: seq<Line>, lineMax: nat): nat {
    if lines == [] then 0
    else TooLong(lines[..|lines| - 1], lineMax) + if |lines[|lines| - 1]| > lineMax then 1 else 0
  }

  /** The committed history is the stream's non-empty ended lines, cut and redacted; the buffer
      holds the longest suffix of it that fits; and `dropped` counts the cut lines and the lines no
      longer held. */
  ghost predicate Tells(b: Buffer, s: Parsed, p: Policy) {
    && b.history == Committed(s.lines, p)
    && LongestFittingSuffix(b.entries, b.history, p.maximum)
    && b.size == Total(b.entries)
    && b.pending == Cut(s.tail, p.lineMax)
    && (b.discard <==> |s.tail| > p.lineMax)
    && b.dropped == TooLong(s.lines, p.lineMax) + (if |s.tail| > p.lineMax then 1 else 0) + |b.history| - |b.entries|
  }

  lemma {:induction false} NewlineTells(b: Buffer, s: Parsed, p: Policy)
    requires InRange(p) && Tells(b, s, p)
    ensures Tells(Feed(b, NEWLINE, p), Parsed(s.lines + [s.tail], []), p)
  {
    assert (s.lines + [s.tail])[..|s.lines|] == s.lines;
    CommitKeeps(b, TooLong(s.lines, p.lineMax) + if |s.tail| > p.lineMax then 1 else 0, p);
  }

  lemma {:induction false} ByteTells(b: Buffer, s: Parsed, v: Byte, p: Policy)
    requires InRange(p) && Tells(b, s, p) && v != NEWLINE
    ensures Tells(Feed(b, v, p), s.(tail := s.tail + [v]), p)
  {
  }

  /** After any stream, in any chunks, the buffer is what the whole stream says it is. */
  lemma {:induction false} StreamDecidesBuffer(data: seq<Byte>, p: Policy)
    requires InRange(p)
    ensures Tells(Write(EMPTY, data, p), Parse(data), p)
  {
    if data != [] {
      var rest := data[..|data| - 1];
      StreamDecidesBuffer(rest, p);
      if data[|data| - 1] == NEWLINE {
        NewlineTells(Write(EMPTY, rest, p), Parse(rest), p);
      } else {
        ByteTells(Write(EMPTY, rest, p), Parse(rest), data[|data| - 1], p);
      }
    }
  }

  // ---------------------------------------------------------------------------
  // What is shown
  // ---------------------------------------------------------------------------

  /** The lines, each ended by a newline. */
  function Rendered(lines: seq<Line>): seq<Byte> {
    if lines == [] then [] else Rendered(lines[..|lines| - 1]) + lines[|lines| - 1] + [10]
  }

  lemma {:induction false} RenderedLength(lines: seq<Line>)
    ensures |Rendered(lines)| == Total(lines)
  {
    if lines != [] {
      var last := |lines| - 1;
      RenderedLength(lines[..last]);
      TotalAppend(lines[..last], lines[last]);
      assert lines == lines[..last] + [lines[last]];
    }
  }

  /** After any stream the text of the lines held is within the byte limit, and no more of the latest
      lines would be. */
  lemma {:induction false} ShownTextFits(data: seq<Byte>, p: Policy)
    requires InRange(p)
    ensures var b := Write(EMPTY, data, p);
            var lines := Committed(Parse(data).lines, p);
            && |b.entries| <= |lines| && b.entries == Suffix(lines, |b.entries|)
            && |Rendered(b.entries)| == b.size <= p.maximum
            && forall n :: |b.entries| < n <= |lines| ==> |Rendered(Suffix(lines, n))| > p.maximum
  {
    StreamDecidesBuffer(data, p);
    var b := Write(EMPTY, data, p);
    RenderedLength(b.entries);
    var lines := Committed(Parse(data).lines, p);
    forall n | |b.entries| < n <= |lines|
      ensures |Rendered(Suffix(lines, n))| > p.maximum
    {
      RenderedLength(Suffix(lines, n));
    }
  }

  // ---------------------------------------------------------------------------
  // The buffer as code
  // ---------------------------------------------------------------------------

  const MAX_BYTES := 64 * 1024
  const MAX_LINE := 16 * 1024

  class DiagnosticBuffer {
    var entries: seq<Line>
    var pending: Line
    var discard: bool
    var size: int
    var dropped: int
    var redact: Line -> Line
    const maximum: nat
    const lineMax: nat
    ghost var history: seq<Line>
    ghost var truncated: nat

    ghost function Value(): Buffer
      reads this
    {
      Buffer(entries, pending, discard, size, dropped, history)
    }

    ghost function Rules(): Policy
      reads this
    {
      Policy(maximum, lineMax, redact)
    }

    ghost predicate Valid()
      reads this
    {
      InRange(Rules()) && Consistent(Value(), truncated, Rules())
    }

    constructor (maximum: int, lineMaximum: int, redact: Line -> Line)
      ensures Valid() && Value() == EMPTY && this.redact == redact
      ensures this.maximum == (if maximum <= 0 then 65536 else maximum)
      ensures this.lineMax == (if lineMaximum <= 0 then 16384 else lineMaximum)
    {
      this.maximum := if maximum <= 0 then MAX_BYTES else maximum;
      this.lineMax := if lineMaximum <= 0 then MAX_LINE else lineMaximum;
      this.redact := redact;
      entries, pending, discard, size, dropped, history, truncated := [], [], false, 0, 0, [], 0;
    }

    /** New secrets redact later lines; nothing already held changes. */
    method SetSecrets(redact: Line -> Line)
      requires Valid()
      modifies this`redact
      ensures Valid() && this.redact == redact
    {
      this.redact := redact;
    }

    /** The eviction loop of `commitLocked`. */
    method EvictFor(need: nat)
      requires size == Total(entries)
      modifies this`entries, this`size, this`dropped
      ensures entries == Evict(old(entries), need, maximum) && size == Total(entries)
      ensures dropped == old(dropped) + |old(entries)| - |entries|
    {
      while size + need > maximum && entries != []
        invariant size == Total(entries) && Evict(entries, need, maximum) == Evict(old(entries), need, maximum)
        invariant dropped == old(dropped) + |old(entries)| - |entries|
        decreases |entries|
      {
        size := size - (|entries[0]| + 1);
        entries := entries[1..];
        dropped := dropped + 1;
      }
    }

    /** `commitLocked`. */
    method CommitPending()
      requires size == Total(entries)
      modifies this`entries, this`pending, this`discard, this`size, this`dropped, this`history
      ensures Value() == Commit(old(Value()), Rules())
    {
      var line := pending;
      pending := [];
      discard := false;
      if line == [] {
        return;
      }
      line := redact(line);
      EvictFor(|line| + 1);
      history := history + [line];
      if |line| + 1 > maximum {
        dropped := dropped + 1;
        return;
      }
      entries := entries + [line];
      size := size + |line| + 1;
    }

    /** `Write`. */
    method WriteBytes(data: seq<Byte>) returns (n: nat)
      requires Valid()
      modifies this
      ensures Valid() && redact == old(redact)
      ensures Value() == Write(old(Value()), data, Rules()) && n == |data|
    {
      for i := 0 to |data|
        invariant Valid() && redact == old(redact)
        invariant Value() == Write(old(Value()), data[..i], Rules())
      {
        assert data[..i + 1][..i] == data[..i];
        FeedByte(data[i]);
      }
      assert data[..|data|] == data;
      return |data|;
    }

    /** `AddLine`: the line and a newline, after whatever is pending. */
    method AddLine(line: Line)
      requires Valid()
      modifies this
      ensures Valid() && redact == old(redact) && Value() == Write(old(Value()), line + [10], Rules())
    {
      var n := WriteBytes(line + [NEWLINE]);
    }

    /** `Snapshot`: the lines held, oldest first, redacted again as a whole; at most the byte limit
        before that. */
    method Snapshot() returns (text: seq<Byte>, lost: int)
      requires Valid()
      ensures text == redact(Rendered(entries)) && |Rendered(entries)| <= maximum && lost == dropped
    {
      var output: seq<Byte> := [];
      for n := 0 to |entries|
        invariant output == Rendered(entries[..n])
      {
        assert entries[..n + 1][..n] == entries[..n];
        output := output + entries[n] + [NEWLINE];
      }
      assert entries[..|entries|] == entries;
      RenderedLength(entries);
      return redact(output), dropped;
    }

    /** End the pending line and keep the buffer consistent. */
    method EndLine()
      requires Valid()
      modifies this
      ensures Valid() && redact == old(redact) && Value() == Commit(old(Value()), Rules())
    {
      CommitKeeps(Value(), truncated, Rules());
      CommitPending();
    }

    method FeedByte(value: Byte)
      requires Valid()
      modifies this
      ensures Valid() && redact == old(redact) && Value() == Feed(old(Value()), value, Rules())
    {
      if value == NEWLINE {
        EndLine();
        return;
      }
      if discard {
        return;
      }
      if |pending| >= lineMax {
        discard := true;
        dropped := dropped + 1;
        truncated := truncated + 1;
        return;
      }
      pending := pending + [value];
    }
  }
}
