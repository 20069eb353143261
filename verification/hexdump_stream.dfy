/** What the full command's read loop does over a whole input: which chunks
    it renders, with which offsets, what it ends with, and how skipping and
    the read limit decide which bytes are shown. The loop does not look inside
    the lines it writes, so everything here holds for any printer `p`, in
    particular for `PrinterOf(f)`, the one the flags select. */
module HexdumpStream {
  import opened Formats
  import opened Seqs
  import opened Reader
  import opened Hexdump

  // ---------------------------------------------------------------------------
  // Chunks
  // ---------------------------------------------------------------------------

  /** The non-empty reads the loop renders, in order. */
  function Chunks(bpl: nat, r: Reader): (cs: seq<seq<byte>>)
    requires bpl > 0
    decreases Size(r)
  {
    var st := Read(r, bpl);
    if |st.data| == 0 then []
    else if st.err != Nil then [st.data]
    else (ReadSplits(r, bpl); [st.data] + Chunks(bpl, st.next))
  }

  /** The error the loop returns: nil when it stops at a read of 0 bytes or at
      EOF, otherwise the error of the read that stopped it. */
  function Halt(bpl: nat, r: Reader): (e: GoError)
    requires bpl > 0
    decreases Size(r)
  {
    var st := Read(r, bpl);
    if |st.data| == 0 || st.err == EOF then Nil
    else if st.err != Nil then st.err
    else (ReadSplits(r, bpl); Halt(bpl, st.next))
  }

  function Flatten(cs: seq<seq<byte>>): seq<byte>
  {
    if |cs| == 0 then [] else cs[0] + Flatten(cs[1..])
  }

  /** One line per chunk, each at the offset where its first byte sits. */
  function Lines(p: Printer, cs: seq<seq<byte>>, offset: int): string
  {
    if |cs| == 0 then "" else p.line(cs[0], offset) + Lines(p, cs[1..], offset + |cs[0]|)
  }

  /** The final offset line, printed only when the loop returns nil. */
  function Closing(p: Printer, e: GoError, offset: int): string
  {
    if e == Nil then p.trailer(offset) else ""
  }

  lemma FlattenCons(c: seq<byte>, cs: seq<seq<byte>>)
    ensures Flatten([c] + cs) == c + Flatten(cs)
  {
    assert ([c] + cs)[1..] == cs;
  }

  lemma LinesCons(p: Printer, c: seq<byte>, cs: seq<seq<byte>>, offset: int, next: int)
    requires next == offset + |c|
    ensures Lines(p, [c] + cs, offset) == p.line(c, offset) + Lines(p, cs, next)
  {
    assert ([c] + cs)[1..] == cs;
  }

  /** The loop's output is its chunks rendered one after another, each line at
      the starting offset plus the bytes before it, then -- unless a read
      failed -- the offset after the last byte. */
  lemma {:induction false} LoopIsLines(p: Printer, bpl: nat, r: Reader, offset: int)
    requires bpl > 0
    ensures Loop(p, bpl, r, offset) == Expected(p, bpl, r, offset)
    decreases Size(r)
  {
    var st := Read(r, bpl);
    if |st.data| == 0 {
      assert Chunks(bpl, r) == [] && Halt(bpl, r) == Nil;
      assert Lines(p, [], offset) == "";
    } else if st.err == Nil {
      ReadSplits(r, bpl);
      var next := offset + |st.data|;
      LoopIsLines(p, bpl, st.next, next);
      LoopStep(p, bpl, r, offset, st, next);
    } else {
      LoopLast(p, bpl, r, offset);
    }
  }

  /** The lines of the chunks, then the closing line unless the loop failed. */
  function Expected(p: Printer, bpl: nat, r: Reader, offset: int): Outcome
    requires bpl > 0
  {
    var cs := Chunks(bpl, r);
    var e := Halt(bpl, r);
    Outcome(Lines(p, cs, offset) + Closing(p, e, offset + |Flatten(cs)|), e)
  }

  /** A read that brings bytes and no error: its line, then the rest of the loop. */
  lemma LoopStep(p: Printer, bpl: nat, r: Reader, offset: int, st: Step, next: int)
    requires bpl > 0 && st == Read(r, bpl)
    requires |st.data| > 0 && st.err == Nil && Size(st.next) < Size(r) && next == offset + |st.data|
    requires Loop(p, bpl, st.next, next) == Expected(p, bpl, st.next, next)
    ensures Loop(p, bpl, r, offset) == Expected(p, bpl, r, offset)
  {
    var d := st.data;
    var cs, e := Chunks(bpl, st.next), Halt(bpl, st.next);
    var tail := Lines(p, cs, next);
    var close := Closing(p, e, next + |Flatten(cs)|);
    assert Loop(p, bpl, st.next, next) == Outcome(tail + close, e);
    LoopUnfold(p, bpl, r, offset, st, next);
    assert Loop(p, bpl, r, offset) == Outcome(p.line(d, offset) + (tail + close), e);
    ChunksUnfold(bpl, r, st);
    FlattenCons(d, cs);
    LinesCons(p, d, cs, offset, next);
    Assoc(p.line(d, offset), tail, close);
    assert Expected(p, bpl, r, offset) == Outcome(p.line(d, offset) + tail + close, e);
  }

  lemma LoopUnfold(p: Printer, bpl: nat, r: Reader, offset: int, st: Step, next: int)
    requires bpl > 0 && st == Read(r, bpl)
    requires |st.data| > 0 && st.err == Nil && Size(st.next) < Size(r) && next == offset + |st.data|
    ensures var rest := Loop(p, bpl, st.next, next);
            Loop(p, bpl, r, offset) == Outcome(p.line(st.data, offset) + rest.output, rest.err)
  {
  }

  lemma ChunksUnfold(bpl: nat, r: Reader, st: Step)
    requires bpl > 0 && st == Read(r, bpl)
    requires |st.data| > 0 && st.err == Nil && Size(st.next) < Size(r)
    ensures Chunks(bpl, r) == [st.data] + Chunks(bpl, st.next) && Halt(bpl, r) == Halt(bpl, st.next)
  {
  }

  /** A read that brings bytes and an error: its line, then the trailer or not. */
  lemma LoopLast(p: Printer, bpl: nat, r: Reader, offset: int)
    requires bpl > 0
    requires var st := Read(r, bpl); |st.data| > 0 && st.err != Nil
    ensures Loop(p, bpl, r, offset) == Expected(p, bpl, r, offset)
  {
    var st := Read(r, bpl);
    var d := st.data;
    assert Chunks(bpl, r) == [d] + [];
    FlattenCons(d, []);
    LinesCons(p, d, [], offset, offset + |d|);
    assert Lines(p, [], offset + |d|) == "";
    assert Lines(p, [d], offset) == p.line(d, offset);
  }

  /** Appending a chunk appends its line, at the offset after every earlier chunk. */
  lemma {:induction false} LinesSnoc(p: Printer, cs: seq<seq<byte>>, c: seq<byte>, offset: int)
    ensures Lines(p, cs + [c], offset) == Lines(p, cs, offset) + p.line(c, offset + |Flatten(cs)|)
    ensures Flatten(cs + [c]) == Flatten(cs) + c
    decreases |cs|
  {
    if |cs| == 0 {
      assert cs + [c] == [c] + [];
      FlattenCons(c, []);
      LinesCons(p, c, [], offset, offset + |c|);
    } else {
      var head, rest := cs[0], cs[1..];
      var next := offset + |head|;
      assert cs + [c] == [head] + (rest + [c]);
      assert cs == [head] + rest;
      LinesSnoc(p, rest, c, next);
      FlattenCons(head, rest + [c]);
      FlattenCons(head, rest);
      assert offset + |Flatten(cs)| == next + |Flatten(rest)|;
      LinesCons(p, head, rest + [c], offset, next);
      LinesCons(p, head, rest, offset, next);
    }
  }

  /** Every rendered chunk holds between 1 and BytesPerLine bytes. */
  lemma {:induction false} ChunkSizes(bpl: nat, r: Reader)
    requires bpl > 0
    ensures forall i :: 0 <= i < |Chunks(bpl, r)| ==> 1 <= |Chunks(bpl, r)[i]| <= bpl
    decreases Size(r)
  {
    var st := Read(r, bpl);
    if |st.data| > 0 && st.err == Nil {
      ReadSplits(r, bpl);
      ChunkSizes(bpl, st.next);
      assert Chunks(bpl, r) == [st.data] + Chunks(bpl, st.next);
    }
  }

  // ---------------------------------------------------------------------------
  // What a script delivers
  // ---------------------------------------------------------------------------

  /** The bytes a script hands over before the loop stops: every read result
      up to the first one that is empty or carries an error. */
  function Delivered(s: Source): seq<byte>
  {
    if |s| == 0 || |s[0].data| == 0 then []
    else if s[0].status != Nil then s[0].data
    else s[0].data + Delivered(s[1..])
  }

  /** The error the loop ends with on a script, independent of the line width. */
  function StopError(s: Source): GoError
  {
    if |s| == 0 || |s[0].data| == 0 || s[0].status == EOF then Nil
    else if s[0].status != Nil then s[0].status
    else StopError(s[1..])
  }

  /** Reading a script BytesPerLine bytes at a time renders exactly the bytes
      it delivers and stops with its error, whatever the line width. */
  lemma {:induction false} ChunksOfPlain(bpl: nat, s: Source)
    requires bpl > 0
    ensures Flatten(Chunks(bpl, Plain(s))) == Delivered(s)
    ensures Halt(bpl, Plain(s)) == StopError(s)
    decreases SourceSize(s)
  {
    if |s| > 0 && |s[0].data| > 0 {
      var d := s[0].data;
      var st := Read(Plain(s), bpl);
      ReadSplits(Plain(s), bpl);
      if |d| <= bpl {
        assert st == Step(d, s[0].status, Plain(s[1..]));
        if s[0].status == Nil {
          ChunksOfPlain(bpl, s[1..]);
          FlattenCons(d, Chunks(bpl, Plain(s[1..])));
        } else {
          FlattenCons(d, []);
        }
      } else {
        ChunksOfSplit(bpl, s);
      }
    }
  }

  /** A read result longer than the line width is taken a line at a time. */
  lemma {:induction false} ChunksOfSplit(bpl: nat, s: Source)
    requires bpl > 0 && |s| > 0 && |s[0].data| > bpl
    ensures Flatten(Chunks(bpl, Plain(s))) == Delivered(s)
    ensures Halt(bpl, Plain(s)) == StopError(s)
    decreases SourceSize(s), 0
  {
    var d := s[0].data;
    var rest := [ReadResult(d[bpl..], s[0].status)] + s[1..];
    var cs := Chunks(bpl, Plain(rest));
    assert Chunks(bpl, Plain(s)) == [d[..bpl]] + cs && Halt(bpl, Plain(s)) == Halt(bpl, Plain(rest)) by {
      ReadSplits(Plain(s), bpl);
      assert Read(Plain(s), bpl) == Step(d[..bpl], Nil, Plain(rest));
    }
    assert Delivered(s) == d[..bpl] + Delivered(rest) && StopError(s) == StopError(rest) by {
      assert rest[1..] == s[1..];
      assert d == d[..bpl] + d[bpl..];
      if s[0].status == Nil {
        Assoc(d[..bpl], d[bpl..], Delivered(s[1..]));
      }
    }
    ChunksOfPlain(bpl, rest);
    FlattenCons(d[..bpl], cs);
  }

  /** What a script delivers is a prefix of its bytes. */
  lemma {:induction false} DeliveredPrefix(s: Source)
    ensures |Delivered(s)| <= |Bytes(s)| && Delivered(s) == Bytes(s)[..|Delivered(s)|]
  {
    if |s| > 0 {
      assert Bytes(s) == s[0].data + Bytes(s[1..]);
      if |s[0].data| > 0 && s[0].status == Nil {
        DeliveredPrefix(s[1..]);
      }
    }
  }

  /** A well-behaved script: every read returns bytes, and only the last one
      may report EOF. */
  predicate Clean(s: Source)
  {
    forall i :: 0 <= i < |s| ==> |s[i].data| > 0 && (s[i].status == Nil || (s[i].status == EOF && i == |s| - 1))
  }

  /** A well-behaved script delivers all its bytes and ends without error. */
  lemma {:induction false} DeliveredClean(s: Source)
    requires Clean(s)
    ensures Delivered(s) == Bytes(s)
    ensures StopError(s) == Nil
  {
    if |s| > 0 {
      assert Bytes(s) == s[0].data + Bytes(s[1..]);
      if s[0].status == Nil {
        assert Clean(s[1..]) by {
          forall i | 0 <= i < |s[1..]|
            ensures |s[1..][i].data| > 0
            ensures s[1..][i].status == Nil || (s[1..][i].status == EOF && i == |s[1..]| - 1)
          {
            assert s[1..][i] == s[i + 1];
          }
        }
        DeliveredClean(s[1..]);
      } else {
        assert |s| == 1 && Bytes(s[1..]) == [];
      }
    }
  }

  /** The loop stops at the first read of 0 bytes and returns nil with the
      final offset, whatever error that read carried. */
  lemma ZeroByteReadEndsLoop(p: Printer, bpl: nat, s: Source, offset: int)
    requires bpl > 0
    requires |s| > 0 && |s[0].data| == 0
    ensures Loop(p, bpl, Plain(s), offset) == Outcome(p.trailer(offset), Nil)
  {
    assert Read(Plain(s), bpl).data == [];
  }

  /** A read that brings bytes together with an error other than EOF: those
      bytes are rendered, the error is returned, no final offset is printed. */
  lemma MidStreamFailure(p: Printer, bpl: nat, s: Source, offset: int)
    requires bpl > 0
    requires |s| > 0 && 0 < |s[0].data| <= bpl && s[0].status.Failure?
    ensures Loop(p, bpl, Plain(s), offset) == Outcome(p.line(s[0].data, offset), s[0].status)
  {
    assert Read(Plain(s), bpl) == Step(s[0].data, s[0].status, Plain(s[1..]));
  }

  // ---------------------------------------------------------------------------
  // The read limit
  // ---------------------------------------------------------------------------

  /** Reading through `io.LimitReader(s, n)` is reading the truncated script. */
  lemma {:induction false} LoopLimited(p: Printer, bpl: nat, n: int, s: Source, offset: int)
    requires bpl > 0
    ensures Loop(p, bpl, Limited(n, s), offset) == Loop(p, bpl, Plain(Truncate(s, n)), offset)
    decreases Size(Limited(n, s))
  {
    var a := Read(Limited(n, s), bpl);
    if |a.data| > 0 && a.err == Nil {
      ReadSplits(Limited(n, s), bpl);
      var m, t, o := a.next.remaining, a.next.src, offset + |a.data|;
      LoopLimited(p, bpl, m, t, o);
      LimitedStep(p, bpl, n, s, offset, a, m, t, o);
    } else {
      LimitedLast(p, bpl, n, s, offset, a);
    }
  }

  /** One read through the limit brings what one read of the truncated script
      brings, so if the rest of the two loops agree, so do the loops. */
  lemma LimitedStep(p: Printer, bpl: nat, n: int, s: Source, offset: int, a: Step, m: int, t: Source, o: int)
    requires bpl > 0 && a == Read(Limited(n, s), bpl) && a.next == Limited(m, t)
    requires |a.data| > 0 && a.err == Nil && o == offset + |a.data|
    requires Loop(p, bpl, Limited(m, t), o) == Loop(p, bpl, Plain(Truncate(t, m)), o)
    ensures Loop(p, bpl, Limited(n, s), offset) == Loop(p, bpl, Plain(Truncate(s, n)), offset)
  {
    var b := Read(Plain(Truncate(s, n)), bpl);
    ReadLimitedAsTruncated(n, s, bpl);
    ReadSplits(Limited(n, s), bpl);
    LoopUnfold(p, bpl, Limited(n, s), offset, a, o);
    ReadSplits(Plain(Truncate(s, n)), bpl);
    LoopUnfold(p, bpl, Plain(Truncate(s, n)), offset, b, o);
  }

  /** A last read through the limit is a last read of the truncated script. */
  lemma LimitedLast(p: Printer, bpl: nat, n: int, s: Source, offset: int, a: Step)
    requires bpl > 0 && a == Read(Limited(n, s), bpl)
    requires |a.data| == 0 || a.err != Nil
    ensures Loop(p, bpl, Limited(n, s), offset) == Loop(p, bpl, Plain(Truncate(s, n)), offset)
  {
    ReadLimitedAsTruncated(n, s, bpl);
  }

  /** Under a limit no more than `n` bytes are shown. */
  lemma LimitBounds(s: Source, n: int)
    requires n > 0
    ensures |Delivered(Truncate(s, n))| <= n && |Delivered(Truncate(s, n))| <= |Bytes(s)|
    ensures Delivered(Truncate(s, n)) == Bytes(s)[..|Delivered(Truncate(s, n))|]
  {
    var t := Truncate(s, n);
    TruncateBytes(s, n);
    DeliveredPrefix(t);
  }

  /** Truncating a well-behaved script leaves a well-behaved script. */
  lemma {:induction false} TruncateClean(s: Source, n: int)
    requires Clean(s)
    ensures Clean(Truncate(s, n))
    decreases |s|
  {
    if n > 0 && |s| > 0 {
      if |s[0].data| <= n {
        var tail := Truncate(s[1..], n - |s[0].data|);
        CleanTail(s);
        TruncateClean(s[1..], n - |s[0].data|);
        CleanCons(s[0], tail, |s| == 1);
      }
    }
  }

  lemma CleanTail(s: Source)
    requires Clean(s) && |s| > 0
    ensures Clean(s[1..])
  {
    forall i | 0 <= i < |s[1..]|
      ensures |s[1..][i].data| > 0
      ensures s[1..][i].status == Nil || (s[1..][i].status == EOF && i == |s[1..]| - 1)
    {
      assert s[1..][i] == s[i + 1];
    }
  }

  /** Putting a non-empty read in front of a well-behaved script; an EOF front
      is allowed only before nothing. */
  lemma CleanCons(x: ReadResult, t: Source, last: bool)
    requires |x.data| > 0 && Clean(t)
    requires x.status == Nil || (x.status == EOF && last)
    requires last ==> |t| == 0
    ensures Clean([x] + t)
  {
    var s := [x] + t;
    forall i | 0 <= i < |s|
      ensures |s[i].data| > 0 && (s[i].status == Nil || (s[i].status == EOF && i == |s| - 1))
    {
      if i > 0 {
        assert s[i] == t[i - 1];
      }
    }
  }

  // ---------------------------------------------------------------------------
  // Skipping
  // ---------------------------------------------------------------------------

  /** One read of a well-behaved script: bytes unless the script is used up,
      no failure, EOF only at the end, and a well-behaved rest. */
  lemma ReadSourceClean(s: Source, cap: nat)
    requires cap > 0 && Clean(s)
    ensures var st := ReadSource(s, cap);
            && Clean(st.next.src)
            && (|s| > 0 ==> |st.data| > 0)
            && (st.err == Nil || st.err == EOF)
            && (st.err == EOF ==> st.next.src == [])
  {
    if |s| > 0 {
      CleanTail(s);
      if |s[0].data| > cap {
        var x := ReadResult(s[0].data[cap..], s[0].status);
        CleanCons(x, s[1..], |s| == 1);
      }
    }
  }

  /** Discarding through a limit of `rem` from a well-behaved script takes
      exactly `min(rem, |bytes|)` bytes, succeeds, and leaves a well-behaved rest. */
  lemma {:induction false} DiscardClean(rem: int, s: Source, written: nat)
    requires Clean(s) && rem >= 0
    ensures var d := DiscardFrom(Limited(rem, s), written);
            && d.err == Nil
            && d.written - written == (if rem < |Bytes(s)| then rem else |Bytes(s)|)
            && Clean(d.rest.src)
    decreases SourceSize(s)
  {
    var r := Limited(rem, s);
    var st := Read(r, DiscardBlock);
    ReadSplits(r, DiscardBlock);
    if rem > 0 {
      var c := if DiscardBlock < rem then DiscardBlock else rem;
      ReadSourceClean(s, c);
      if st.err == Nil {
        var m, t, total := st.next.remaining, st.next.src, written + |st.data|;
        DiscardClean(m, t, total);
        DiscardCleanStep(rem, s, written, st, m, t, total);
      } else {
        assert Bytes(st.next.src) == [];
      }
    }
  }

  /** One block discarded without error: what the rest of the discard does
      decides the whole. */
  lemma DiscardCleanStep(rem: int, s: Source, written: nat, st: Step, m: int, t: Source, total: nat)
    requires rem > 0 && st == Read(Limited(rem, s), DiscardBlock) && st.err == Nil
    requires st.next == Limited(m, t) && m == rem - |st.data| && total == written + |st.data|
    requires Bytes(s) == st.data + Bytes(t)
    requires var d := DiscardFrom(Limited(m, t), total);
             && d.err == Nil
             && d.written - total == (if m < |Bytes(t)| then m else |Bytes(t)|)
             && Clean(d.rest.src)
    ensures var d := DiscardFrom(Limited(rem, s), written);
            && d.err == Nil
            && d.written - written == (if rem < |Bytes(s)| then rem else |Bytes(s)|)
            && Clean(d.rest.src)
  {
    ReadSplits(Limited(rem, s), DiscardBlock);
    assert DiscardFrom(Limited(rem, s), written) == DiscardFrom(Limited(m, t), total);
  }

  /** Skipping on a well-behaved script: never a real error, exactly
      `min(n, |bytes|)` bytes skipped, and the rest is well behaved. */
  lemma CopyNClean(s: Source, n: int)
    requires Clean(s) && n > 0
    ensures var k := CopyN(s, n);
            && (k.err == Nil || k.err == EOF)
            && k.written == (if n < |Bytes(s)| then n else |Bytes(s)|)
            && Clean(k.rest)
  {
    DiscardClean(n, s, 0);
  }

  /** A skip that fails with an error other than EOF returns that error before
      anything is written. */
  lemma SkipFailure(p: Printer, bpl: nat, skip: int, limit: int, s: Source)
    requires bpl > 0 && skip > 0
    requires CopyN(s, skip).err.Failure?
    ensures Process(p, bpl, skip, limit, s) == Outcome("", CopyN(s, skip).err)
  {
  }

  /** The bytes the command shows for a script holding `b`: what is left after
      skipping `skip` bytes, cut to `limit` bytes when that is positive. */
  function Shown(skip: int, limit: int, b: seq<byte>): (shown: seq<byte>)
  {
    var k := if skip <= 0 then 0 else if skip < |b| then skip else |b|;
    var rest := b[k..];
    if 0 < limit < |rest| then rest[..limit] else rest
  }

  /** `processSource` on a well-behaved script: the shown bytes, cut into
      chunks of 1 to `bpl` bytes, each rendered at `skip` plus the bytes
      before it, then the offset `skip` plus the number of shown bytes; and nil. */
  lemma ProcessCleanSource(p: Printer, bpl: nat, skip: int, limit: int, s: Source)
    requires bpl > 0 && Clean(s)
    ensures exists cs: seq<seq<byte>> ::
              && Flatten(cs) == Shown(skip, limit, Bytes(s))
              && (forall i :: 0 <= i < |cs| ==> 1 <= |cs[i]| <= bpl)
              && Process(p, bpl, skip, limit, s) ==
                 Outcome(Lines(p, cs, skip) + p.trailer(skip + |Shown(skip, limit, Bytes(s))|), Nil)
  {
    var cs := ShownChunks(p, bpl, skip, limit, s);
  }

  /** The chunks of `ProcessCleanSource`: those the loop cuts the shown bytes into. */
  lemma ShownChunks(p: Printer, bpl: nat, skip: int, limit: int, s: Source) returns (cs: seq<seq<byte>>)
    requires bpl > 0 && Clean(s)
    ensures Flatten(cs) == Shown(skip, limit, Bytes(s))
    ensures forall i :: 0 <= i < |cs| ==> 1 <= |cs[i]| <= bpl
    ensures Process(p, bpl, skip, limit, s) ==
            Outcome(Lines(p, cs, skip) + p.trailer(skip + |Shown(skip, limit, Bytes(s))|), Nil)
  {
    var t := ShownScript(p, bpl, skip, limit, s);
    cs := Chunks(bpl, Plain(t));
    LoopClean(p, bpl, t, skip);
    ChunkSizes(bpl, Plain(t));
  }

  /** The loop on a well-behaved script renders all of it and ends with the
      offset after its last byte. */
  lemma LoopClean(p: Printer, bpl: nat, t: Source, offset: int)
    requires bpl > 0 && Clean(t)
    ensures var cs := Chunks(bpl, Plain(t));
            && Flatten(cs) == Bytes(t)
            && Loop(p, bpl, Plain(t), offset) == Outcome(Lines(p, cs, offset) + p.trailer(offset + |Bytes(t)|), Nil)
  {
    var cs := Chunks(bpl, Plain(t));
    DeliveredClean(t);
    ChunksOfPlain(bpl, t);
    assert Flatten(cs) == Bytes(t) && Halt(bpl, Plain(t)) == Nil;
    LoopIsLines(p, bpl, Plain(t), offset);
    assert Closing(p, Nil, offset + |Bytes(t)|) == p.trailer(offset + |Bytes(t)|);
  }

  /** The script the loop reads after skipping and limiting: well behaved,
      holding exactly the shown bytes. */
  lemma ShownScript(p: Printer, bpl: nat, skip: int, limit: int, s: Source) returns (t: Source)
    requires bpl > 0 && Clean(s)
    ensures Clean(t) && Bytes(t) == Shown(skip, limit, Bytes(s))
    ensures Process(p, bpl, skip, limit, s) == Loop(p, bpl, Plain(t), skip)
  {
    var rest := SkippedClean(p, bpl, skip, limit, s);
    if limit > 0 {
      t := Truncate(rest, limit);
      LoopLimited(p, bpl, limit, rest, skip);
      TruncateClean(rest, limit);
      TruncateBytes(rest, limit);
    } else {
      t := rest;
    }
  }

  /** The script left after skipping, with the bytes it holds. */
  lemma SkippedClean(p: Printer, bpl: nat, skip: int, limit: int, s: Source) returns (rest: Source)
    requires bpl > 0 && Clean(s)
    ensures Clean(rest)
    ensures var b := Bytes(s);
            var k := if skip <= 0 then 0 else if skip < |b| then skip else |b|;
            Bytes(rest) == b[k..]
    ensures Process(p, bpl, skip, limit, s) ==
            Loop(p, bpl, if limit > 0 then Limited(limit, rest) else Plain(rest), skip)
  {
    if skip > 0 {
      CopyNClean(s, skip);
      rest := CopyN(s, skip).rest;
    } else {
      rest := s;
    }
  }

  /** Skipping past the end of the input shows nothing, and the final offset
      is still `skip`: the offset counts the bytes asked to be skipped, not
      those actually skipped. */
  lemma SkipPastEnd(p: Printer, bpl: nat, skip: int, limit: int, s: Source)
    requires bpl > 0 && Clean(s)
    requires skip >= |Bytes(s)|
    ensures Process(p, bpl, skip, limit, s) == Outcome(p.trailer(skip), Nil)
  {
    var t := ShownScript(p, bpl, skip, limit, s);
    LoopClean(p, bpl, t, skip);
    ChunkSizes(bpl, Plain(t));
    var cs := Chunks(bpl, Plain(t));
    assert Shown(skip, limit, Bytes(s)) == [];
    FlattenEmpty(cs);
    assert Lines(p, cs, skip) == "";
  }

  /** Chunks of at least one byte that flatten to nothing are no chunks at all. */
  lemma FlattenEmpty(cs: seq<seq<byte>>)
    requires forall i :: 0 <= i < |cs| ==> 1 <= |cs[i]|
    requires Flatten(cs) == []
    ensures cs == []
  {
  }
}
