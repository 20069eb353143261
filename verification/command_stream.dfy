/** What the minimal command's Executor does over a whole input: how each
    read is cut into lines, at which offsets, and how the run ends. As for the
    full command, the loop does not look inside its lines, so everything here
    holds for any printer `p`, in particular for `LinePrinter(bpl)`. */
module CommandStream {
  import opened Formats
  import opened Seqs
  import opened Reader
  import HD = Hexdump
  import opened HexdumpStream
  import opened Command
  import CommandOpt

  // ---------------------------------------------------------------------------
  // One read
  // ---------------------------------------------------------------------------

  /** `c` is the slice the inner loop takes at i = k * bpl: the bytes
      `[i, min(i + bpl, n))` of the read. */
  predicate SliceAt(data: seq<byte>, bpl: nat, k: nat, c: seq<byte>)
  {
    var i := k * bpl;
    0 <= i < |data| && c == data[i .. if i + bpl < |data| then i + bpl else |data|]
  }

  /** Slice `k` of a read is the bytes `[k * bpl, min((k + 1) * bpl, n))`. */
  lemma {:induction false} SplitSlices(data: seq<byte>, bpl: nat)
    requires bpl > 0
    ensures var cs := Split(data, bpl);
            forall k :: 0 <= k < |cs| ==> SliceAt(data, bpl, k, cs[k])
    decreases |data|
  {
    var cs := Split(data, bpl);
    if |data| > bpl {
      var tail := data[bpl..];
      SplitSlices(tail, bpl);
      assert cs == [data[..bpl]] + Split(tail, bpl);
      forall k | 0 <= k < |cs|
        ensures SliceAt(data, bpl, k, cs[k])
      {
        if k > 0 {
          assert cs[k] == Split(tail, bpl)[k - 1];
          SliceOfTail(data, bpl, k, cs[k]);
        }
      }
    } else if |data| > 0 {
      assert 0 * bpl == 0;
      assert SliceAt(data, bpl, 0, cs[0]);
    }
  }

  lemma MulSucc(j: nat, k: nat, bpl: nat)
    requires k == j + 1
    ensures k * bpl == j * bpl + bpl
  {
  }

  /** Slice `k - 1` of what follows the first slice is slice `k` of the read. */
  lemma SliceOfTail(data: seq<byte>, bpl: nat, k: nat, c: seq<byte>)
    requires 0 < bpl < |data| && 0 < k
    requires SliceAt(data[bpl..], bpl, k - 1, c)
    ensures SliceAt(data, bpl, k, c)
  {
    var tail := data[bpl..];
    var j: nat := k - 1;
    assert SliceAt(tail, bpl, j, c);
    var lo := j * bpl;
    var hi := if lo + bpl < |tail| then lo + bpl else |tail|;
    assert 0 <= lo < |tail| && c == tail[lo..hi];
    SliceChain(data, bpl, tail, lo, hi, c);
    MulSucc(j, k, bpl);
    var i := k * bpl;
    assert i == bpl + lo;
    var end := if i + bpl < |data| then i + bpl else |data|;
    assert end == bpl + hi;
  }

  // ---------------------------------------------------------------------------
  // Concatenated lines
  // ---------------------------------------------------------------------------

  lemma {:induction false} FlattenAppend(a: seq<seq<byte>>, b: seq<seq<byte>>)
    ensures Flatten(a + b) == Flatten(a) + Flatten(b)
    decreases |a|
  {
    if |a| > 0 {
      assert a + b == [a[0]] + (a[1..] + b);
      assert a == [a[0]] + a[1..];
      FlattenAppend(a[1..], b);
      FlattenCons(a[0], a[1..] + b);
      FlattenCons(a[0], a[1..]);
    } else {
      assert a + b == b;
    }
  }

  /** Lines of two runs of chunks: the second starts where the first's bytes end. */
  lemma {:induction false} LinesAppend(p: HD.Printer, a: seq<seq<byte>>, b: seq<seq<byte>>, offset: int, next: int)
    requires next == offset + |Flatten(a)|
    ensures Lines(p, a + b, offset) == Lines(p, a, offset) + Lines(p, b, next)
    decreases |a|
  {
    if |a| > 0 {
      var head, rest := a[0], a[1..];
      var mid := offset + |head|;
      assert a + b == [head] + (rest + b);
      assert a == [head] + rest;
      FlattenCons(head, rest);
      LinesAppend(p, rest, b, mid, next);
      LinesCons(p, head, rest + b, offset, mid);
      LinesCons(p, head, rest, offset, mid);
    } else {
      assert a + b == b;
    }
  }

  // ---------------------------------------------------------------------------
  // The whole run
  // ---------------------------------------------------------------------------

  /** The bytes of each read the Executor makes, up to the one that reports an error. */
  function Reads(s: Source): seq<seq<byte>>
    decreases SourceSize(s)
  {
    var st := ReadSource(s, BufferSize);
    if st.err == Nil then (ReadSourceSplits(s, BufferSize); [st.data] + Reads(st.next.src))
    else [st.data]
  }

  /** The error the Executor returns: nil when it stops at EOF, otherwise the
      error of the read that stopped it. */
  function Stop(s: Source): GoError
    decreases SourceSize(s)
  {
    var st := ReadSource(s, BufferSize);
    if st.err == Nil then (ReadSourceSplits(s, BufferSize); Stop(st.next.src))
    else if st.err == EOF then Nil
    else st.err
  }

  /** The slices of every read, in order. */
  function Pieces(bpl: nat, ds: seq<seq<byte>>): seq<seq<byte>>
    requires bpl > 0
  {
    if |ds| == 0 then [] else Split(ds[0], bpl) + Pieces(bpl, ds[1..])
  }

  /** The lines of every slice of every read, then the trailer unless a read failed. */
  function Rendered(p: HD.Printer, bpl: nat, s: Source, offset: int): HD.Outcome
    requires bpl > 0
  {
    var ds := Reads(s);
    HD.Outcome(Lines(p, Pieces(bpl, ds), offset) + Closing(p, Stop(s), offset + |Flatten(ds)|), Stop(s))
  }

  /** The Executor writes the lines of the slices of each read, at the offset
      of each slice's first byte counted over all reads, and then -- unless a
      read failed -- the trailer at the total number of bytes read. */
  lemma {:induction false} RunIsLines(p: HD.Printer, bpl: nat, s: Source, offset: int)
    requires bpl > 0
    ensures Run(p, bpl, s, offset) == Rendered(p, bpl, s, offset)
    decreases SourceSize(s)
  {
    var st := ReadSource(s, BufferSize);
    if st.err == Nil {
      ReadSourceSplits(s, BufferSize);
      var next := offset + |st.data|;
      RunIsLines(p, bpl, st.next.src, next);
      RunStep(p, bpl, s, offset, st, next);
    } else {
      RunLast(p, bpl, s, offset, st);
    }
  }

  lemma RunStep(p: HD.Printer, bpl: nat, s: Source, offset: int, st: Step, next: int)
    requires bpl > 0 && st == ReadSource(s, BufferSize) && st.err == Nil
    requires SourceSize(st.next.src) < SourceSize(s) && next == offset + |st.data|
    requires Run(p, bpl, st.next.src, next) == Rendered(p, bpl, st.next.src, next)
    ensures Run(p, bpl, s, offset) == Rendered(p, bpl, s, offset)
  {
    RunUnfold(p, bpl, s, offset, st, next);
    RenderedCons(p, bpl, s, offset, st, next);
  }

  /** What a run renders, one read at a time. */
  lemma RenderedCons(p: HD.Printer, bpl: nat, s: Source, offset: int, st: Step, next: int)
    requires bpl > 0 && st == ReadSource(s, BufferSize) && st.err == Nil
    requires SourceSize(st.next.src) < SourceSize(s) && next == offset + |st.data|
    ensures var rest := Rendered(p, bpl, st.next.src, next);
            Rendered(p, bpl, s, offset) == HD.Outcome(Lines(p, Split(st.data, bpl), offset) + rest.output, rest.err)
  {
    var d, rs := st.data, Reads(st.next.src);
    var e := Stop(st.next.src);
    var blk := Lines(p, Split(d, bpl), offset);
    var tail := Lines(p, Pieces(bpl, rs), next);
    var close := Closing(p, e, next + |Flatten(rs)|);
    assert Reads(s) == [d] + rs && Stop(s) == e by {
      ReadsUnfold(s, st);
    }
    assert offset + |Flatten(Reads(s))| == next + |Flatten(rs)| by {
      FlattenCons(d, rs);
    }
    var lines := Lines(p, Pieces(bpl, Reads(s)), offset);
    assert lines == blk + tail by {
      LinesOfReads(p, bpl, d, rs, offset, next);
    }
    assert Closing(p, Stop(s), offset + |Flatten(Reads(s))|) == close;
    assert Rendered(p, bpl, st.next.src, next) == HD.Outcome(tail + close, e);
    assert Rendered(p, bpl, s, offset) == HD.Outcome(lines + close, e);
    Assoc(blk, tail, close);
  }

  /** The lines of the slices of one read and then of the later reads. */
  lemma LinesOfReads(p: HD.Printer, bpl: nat, d: seq<byte>, rs: seq<seq<byte>>, offset: int, next: int)
    requires bpl > 0 && next == offset + |d|
    ensures Lines(p, Pieces(bpl, [d] + rs), offset) == Lines(p, Split(d, bpl), offset) + Lines(p, Pieces(bpl, rs), next)
  {
    PiecesCons(bpl, d, rs);
    assert Flatten(Split(d, bpl)) == d;
    LinesAppend(p, Split(d, bpl), Pieces(bpl, rs), offset, next);
  }

  lemma RunUnfold(p: HD.Printer, bpl: nat, s: Source, offset: int, st: Step, next: int)
    requires bpl > 0 && st == ReadSource(s, BufferSize) && st.err == Nil
    requires SourceSize(st.next.src) < SourceSize(s) && next == offset + |st.data|
    ensures var rest := Run(p, bpl, st.next.src, next);
            Run(p, bpl, s, offset) == HD.Outcome(Block(p, bpl, st.data, offset) + rest.output, rest.err)
  {
  }

  lemma ReadsUnfold(s: Source, st: Step)
    requires st == ReadSource(s, BufferSize) && st.err == Nil
    requires SourceSize(st.next.src) < SourceSize(s)
    ensures Reads(s) == [st.data] + Reads(st.next.src) && Stop(s) == Stop(st.next.src)
  {
  }

  lemma PiecesCons(bpl: nat, d: seq<byte>, ds: seq<seq<byte>>)
    requires bpl > 0
    ensures Pieces(bpl, [d] + ds) == Split(d, bpl) + Pieces(bpl, ds)
  {
    assert ([d] + ds)[1..] == ds;
  }

  /** The read that reports an error is rendered, then the run ends. */
  lemma RunLast(p: HD.Printer, bpl: nat, s: Source, offset: int, st: Step)
    requires bpl > 0 && st == ReadSource(s, BufferSize) && st.err != Nil
    ensures Run(p, bpl, s, offset) == Rendered(p, bpl, s, offset)
  {
    var d := st.data;
    assert Reads(s) == [d] + [];
    PiecesCons(bpl, d, []);
    assert Pieces(bpl, Reads(s)) == Split(d, bpl);
    FlattenCons(d, []);
    assert |Flatten(Reads(s))| == |d|;
  }

  /** Every chunk holds 1 to `bpl` bytes. */
  predicate Sized(cs: seq<seq<byte>>, bpl: nat)
  {
    forall i :: 0 <= i < |cs| ==> 1 <= |cs[i]| <= bpl
  }

  lemma SizedAppend(a: seq<seq<byte>>, b: seq<seq<byte>>, bpl: nat)
    requires Sized(a, bpl) && Sized(b, bpl)
    ensures Sized(a + b, bpl)
  {
    forall i | 0 <= i < |a + b|
      ensures 1 <= |(a + b)[i]| <= bpl
    {
      if i >= |a| {
        assert (a + b)[i] == b[i - |a|];
      }
    }
  }

  /** Every slice holds 1 to `bpl` bytes, and together the slices are every
      byte read. */
  lemma {:induction false} PiecesPartition(bpl: nat, ds: seq<seq<byte>>)
    requires bpl > 0
    ensures Flatten(Pieces(bpl, ds)) == Flatten(ds) && Sized(Pieces(bpl, ds), bpl)
    decreases |ds|
  {
    if |ds| > 0 {
      var head := Split(ds[0], bpl);
      var rest := Pieces(bpl, ds[1..]);
      PiecesPartition(bpl, ds[1..]);
      assert Flatten(head) == ds[0] && Sized(head, bpl);
      FlattenAppend(head, rest);
      FlattenCons(ds[0], ds[1..]);
      assert ds == [ds[0]] + ds[1..];
      SizedAppend(head, rest, bpl);
    }
  }

  // ---------------------------------------------------------------------------
  // How runs end
  // ---------------------------------------------------------------------------

  /** A script that never fails: every read reports nil, except that the last
      may report EOF together with its bytes. */
  predicate Finishes(s: Source)
  {
    forall i :: 0 <= i < |s| ==> s[i].status == Nil || (s[i].status == EOF && i == |s| - 1)
  }

  lemma FinishesTail(s: Source)
    requires |s| > 0 && Finishes(s)
    ensures Finishes(s[1..])
  {
    assert forall i :: 0 < i < |s| ==> s[1..][i - 1] == s[i];
  }

  lemma FinishesCut(s: Source, cap: nat)
    requires |s| > 0 && Finishes(s) && cap < |s[0].data|
    ensures Finishes([ReadResult(s[0].data[cap..], s[0].status)] + s[1..])
  {
    var t := [ReadResult(s[0].data[cap..], s[0].status)] + s[1..];
    assert forall i :: 0 < i < |t| ==> t[i] == s[i];
  }

  /** On a script that never fails the Executor reads every byte and returns nil. */
  lemma {:induction false} FinishesReadsAll(s: Source)
    requires Finishes(s)
    ensures Stop(s) == Nil && Flatten(Reads(s)) == Bytes(s)
    decreases SourceSize(s)
  {
    var st := ReadSource(s, BufferSize);
    ReadSourceSplits(s, BufferSize);
    if |s| == 0 {
      assert Reads(s) == [[]];
      FlattenCons([], []);
    } else {
      if |s[0].data| > BufferSize {
        FinishesCut(s, BufferSize);
      } else {
        FinishesTail(s);
      }
      if st.err == Nil {
        FinishesReadsAll(st.next.src);
        ReadsUnfold(s, st);
        FlattenCons(st.data, Reads(st.next.src));
      } else {
        assert st.next.src == [] && Reads(s) == [st.data];
        FlattenCons(st.data, []);
      }
    }
  }

  /** The Executor on a script that never fails: the lines of every slice of
      every read, offsets counted from 0, then `%08x` of the total byte count. */
  lemma ExecuteFinishes(f: CommandOpt.Flags, s: Source)
    requires f.bytesPerLine > 0 && Finishes(s)
    ensures var bpl := f.bytesPerLine;
            Execute(f, s) == HD.Outcome(Lines(LinePrinter(bpl), Pieces(bpl, Reads(s)), 0) + HD.Trailer(|Bytes(s)|), Nil)
  {
    var bpl := f.bytesPerLine;
    var p := LinePrinter(bpl);
    RunIsLines(p, bpl, s, 0);
    FinishesReadsAll(s);
    assert Closing(p, Nil, |Bytes(s)|) == HD.Trailer(|Bytes(s)|);
  }

  /** A read that fails is still rendered, and then its error is returned
      with no trailer. */
  lemma FailureNoTrailer(p: HD.Printer, bpl: nat, s: Source, offset: int)
    requires bpl > 0 && |s| > 0 && s[0].status.Failure? && |s[0].data| <= BufferSize
    ensures Run(p, bpl, s, offset) == HD.Outcome(Block(p, bpl, s[0].data, offset), s[0].status)
  {
  }

  /** A read of no bytes and no error does not end the run: the Executor reads again. */
  lemma EmptyReadContinues(p: HD.Printer, bpl: nat, s: Source, offset: int)
    requires bpl > 0 && |s| > 0 && s[0] == ReadResult([], Nil)
    ensures Run(p, bpl, s, offset) == Run(p, bpl, s[1..], offset)
  {
    var st := ReadSource(s, BufferSize);
    ReadSourceSplits(s, BufferSize);
    RunUnfold(p, bpl, s, offset, st, offset);
    assert Block(p, bpl, [], offset) == "";
  }

  /** Slicing restarts with every read: two reads of three bytes at width 4
      give two lines of three bytes, where one read of the same six bytes
      would give lines of four and two. */
  lemma ChunkingRestarts()
    ensures var s := [ReadResult([1, 2, 3], Nil), ReadResult([4, 5, 6], EOF)];
            && Pieces(4, Reads(s)) == [[1, 2, 3], [4, 5, 6]]
            && Split(Bytes(s), 4) == [[1, 2, 3, 4], [5, 6]]
  {
    var s := [ReadResult([1, 2, 3], Nil), ReadResult([4, 5, 6], EOF)];
    var st := ReadSource(s, BufferSize);
    assert st == Step([1, 2, 3], Nil, Plain(s[1..]));
    ReadSourceSplits(s, BufferSize);
    var st2 := ReadSource(s[1..], BufferSize);
    assert st2.data == [4, 5, 6] && st2.err == EOF;
    assert Reads(s[1..]) == [[4, 5, 6]];
    ReadsUnfold(s, st);
    assert Reads(s) == [[1, 2, 3], [4, 5, 6]];
    PiecesCons(4, [1, 2, 3], [[4, 5, 6]]);
    PiecesCons(4, [4, 5, 6], []);
    assert Split([1, 2, 3], 4) == [[1, 2, 3]];
    assert Split([4, 5, 6], 4) == [[4, 5, 6]];
    assert Bytes(s[1..]) == [4, 5, 6] by {
      assert s[1..][1..] == [];
    }
    var all: seq<byte> := [1, 2, 3, 4, 5, 6];
    assert Bytes(s) == all;
    assert all[4..] == [5, 6] && all[..4] == [1, 2, 3, 4];
    assert Split(all[4..], 4) == [[5, 6]];
  }

  /** The Executor reads only BytesPerLine: no other setting changes what it does. */
  lemma ExecuteIgnoresOtherSettings(st: CommandOpt.Setting, f: CommandOpt.Flags, s: Source)
    requires f.bytesPerLine > 0 && !st.BytesPerLine?
    ensures CommandOpt.Configure(st, f).bytesPerLine == f.bytesPerLine
    ensures Execute(CommandOpt.Configure(st, f), s) == Execute(f, s)
  {
    var g := CommandOpt.Configure(st, f);
    assert g.bytesPerLine == f.bytesPerLine by {
      assert CommandOpt.ToOpt(g).bytesPerLine == g.bytesPerLine;
    }
    ExecuteReadsWidth(f, g, s);
  }

  lemma ExecuteReadsWidth(f: CommandOpt.Flags, g: CommandOpt.Flags, s: Source)
    requires f.bytesPerLine > 0 && g.bytesPerLine == f.bytesPerLine
    ensures Execute(g, s) == Execute(f, s)
  {
  }
}
