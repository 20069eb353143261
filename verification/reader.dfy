/** Go's `io.Reader`, as the hexdump loops consume it: a finite script of
    read results, plus `io.LimitReader` around it. */
module Reader {
  import opened Formats

  /** A Go `error` value as the loops test it: `nil`, `io.EOF`, or any other error. */
  datatype GoError = Nil | EOF | Failure(message: string)

  /** One scripted read result: the bytes the source has ready, and the error
      it reports together with the last of them. */
  datatype ReadResult = ReadResult(data: seq<byte>, status: GoError)

  /** The reads a source will answer, in order. Once the script is exhausted,
      every further read returns `(0, io.EOF)`. */
  type Source = seq<ReadResult>

  /** A reader: the source itself, or `io.LimitReader(src, remaining)`. */
  datatype Reader = Plain(src: Source) | Limited(remaining: int, src: Source)

  /** What one `Read(p)` call returns: the `n` bytes written to `p`, the error,
      and the reader as the call leaves it. */
  datatype Step = Step(data: seq<byte>, err: GoError, next: Reader)

  /** Every byte the script holds, in order. */
  function Bytes(s: Source): seq<byte>
  {
    if |s| == 0 then [] else s[0].data + Bytes(s[1..])
  }

  /** A termination measure: each scripted read counts one more than its bytes. */
  function SourceSize(s: Source): nat
  {
    if |s| == 0 then 0 else |s[0].data| + 1 + SourceSize(s[1..])
  }

  function Size(r: Reader): nat
  {
    SourceSize(r.src)
  }

  /** `Read(p)` with `len(p) == cap` on the source: the front read result is
      handed over whole if it fits, together with its error; otherwise its
      first `cap` bytes are handed over with a nil error and the rest stays
      in front. */
  function ReadSource(s: Source, cap: nat): (st: Step)
    requires cap > 0
    ensures st.next.Plain?
    ensures |st.data| <= cap
    ensures |s| == 0 ==> st == Step([], EOF, Plain([]))
  {
    if |s| == 0 then Step([], EOF, Plain([]))
    else if |s[0].data| <= cap then Step(s[0].data, s[0].status, Plain(s[1..]))
    else Step(s[0].data[..cap], Nil, Plain([ReadResult(s[0].data[cap..], s[0].status)] + s[1..]))
  }

  /** A read loses and invents nothing: the bytes handed over, followed by the
      bytes still in the source, are the bytes that were there before; and a
      read that reports no error leaves a smaller source behind. */
  lemma ReadSourceSplits(s: Source, cap: nat)
    requires cap > 0
    ensures var st := ReadSource(s, cap);
            && Bytes(s) == st.data + Bytes(st.next.src)
            && SourceSize(st.next.src) + |st.data| <= SourceSize(s)
            && (st.err == Nil ==> SourceSize(st.next.src) < SourceSize(s))
  {
    if |s| > 0 {
      assert Bytes(s) == s[0].data + Bytes(s[1..]);
      if |s[0].data| > cap {
        var rest := [ReadResult(s[0].data[cap..], s[0].status)] + s[1..];
        assert rest[1..] == s[1..];
        assert s[0].data == s[0].data[..cap] + s[0].data[cap..];
      }
    }
  }

  /** `Read(p)` with `len(p) == cap`. A limited reader with nothing left
      answers `(0, io.EOF)` without touching the source; otherwise it shortens
      `p` to what is left and counts down what the source returned. */
  function Read(r: Reader, cap: nat): (st: Step)
    requires cap > 0
    ensures st.next.Limited? == r.Limited?
    ensures |st.data| <= cap
    ensures r.Limited? && r.remaining > 0 ==>
              |st.data| <= r.remaining && st.next.remaining == r.remaining - |st.data|
    ensures r.Limited? && r.remaining <= 0 ==> st == Step([], EOF, r)
  {
    match r
    case Plain(s) => ReadSource(s, cap)
    case Limited(n, s) =>
      if n <= 0 then Step([], EOF, r)
      else
        var st := ReadSource(s, if cap < n then cap else n);
        Step(st.data, st.err, Limited(n - |st.data|, st.next.src))
  }

  /** The same for a reader, limited or not. */
  lemma ReadSplits(r: Reader, cap: nat)
    requires cap > 0
    ensures var st := Read(r, cap);
            && Bytes(r.src) == st.data + Bytes(st.next.src)
            && (st.err == Nil ==> Size(st.next) < Size(r))
  {
    match r
    case Plain(s) => ReadSourceSplits(s, cap);
    case Limited(n, s) =>
      if n > 0 {
        ReadSourceSplits(s, if cap < n then cap else n);
      }
  }

  /** The script a limited reader presents: the first `n` bytes of `s`, where
      the read result that crosses the limit is cut short and answers nil. */
  function Truncate(s: Source, n: int): (t: Source)
    ensures |t| <= |s|
    decreases |s|
  {
    if n <= 0 || |s| == 0 then []
    else if |s[0].data| <= n then [s[0]] + Truncate(s[1..], n - |s[0].data|)
    else [ReadResult(s[0].data[..n], Nil)]
  }

  /** The truncated script holds exactly the first `n` bytes. */
  lemma {:induction false} TruncateBytes(s: Source, n: int)
    ensures Bytes(Truncate(s, n)) == if n <= 0 then [] else if n < |Bytes(s)| then Bytes(s)[..n] else Bytes(s)
    decreases |s|
  {
    if n > 0 && |s| > 0 {
      var t := Truncate(s, n);
      assert Bytes(s) == s[0].data + Bytes(s[1..]);
      if |s[0].data| <= n {
        assert t[1..] == Truncate(s[1..], n - |s[0].data|);
        TruncateBytes(s[1..], n - |s[0].data|);
      } else {
        assert Bytes(t[1..]) == [];
        assert Bytes(s)[..n] == s[0].data[..n];
      }
    }
  }

  /** One read through `io.LimitReader(s, n)` is one read of `Truncate(s, n)`:
      same bytes, same error, and the two leave related states behind. */
  lemma ReadLimitedAsTruncated(n: int, s: Source, cap: nat)
    requires cap > 0
    ensures var a := Read(Limited(n, s), cap);
            var b := Read(Plain(Truncate(s, n)), cap);
            a.data == b.data && a.err == b.err &&
            b.next == Plain(Truncate(a.next.src, a.next.remaining))
  {
    if n > 0 && |s| > 0 {
      var c := if cap < n then cap else n;
      if |s[0].data| <= c {
        ReadWholeLimited(n, s, cap);
      } else if |s[0].data| <= n {
        ReadSplitLimited(n, s, cap);
      } else {
        ReadCutLimited(n, s, cap);
      }
    }
  }

  lemma ReadWholeLimited(n: int, s: Source, cap: nat)
    requires cap > 0 && n > 0 && |s| > 0
    requires |s[0].data| <= cap && |s[0].data| <= n
    ensures var a := Read(Limited(n, s), cap);
            var b := Read(Plain(Truncate(s, n)), cap);
            a.data == b.data && a.err == b.err &&
            b.next == Plain(Truncate(a.next.src, a.next.remaining))
  {
    var t := Truncate(s, n);
    assert t == [s[0]] + Truncate(s[1..], n - |s[0].data|);
    assert t[1..] == Truncate(s[1..], n - |s[0].data|);
  }

  lemma ReadSplitLimited(n: int, s: Source, cap: nat)
    requires cap > 0 && n > 0 && |s| > 0
    requires cap < |s[0].data| <= n
    ensures var a := Read(Limited(n, s), cap);
            var b := Read(Plain(Truncate(s, n)), cap);
            a.data == b.data && a.err == b.err &&
            b.next == Plain(Truncate(a.next.src, a.next.remaining))
  {
    var d := s[0].data;
    var tail := Truncate(s[1..], n - |d|);
    var t := Truncate(s, n);
    assert t == [s[0]] + tail;
    assert t[0] == s[0] && t[1..] == tail;
    var rest := [ReadResult(d[cap..], s[0].status)] + s[1..];
    assert ReadSource(s, cap) == Step(d[..cap], Nil, Plain(rest));
    assert ReadSource(t, cap) == Step(d[..cap], Nil, Plain([rest[0]] + tail));
    assert rest[0].data == d[cap..] && rest[1..] == s[1..];
    assert Truncate(rest, n - cap) == [rest[0]] + tail;
  }

  lemma ReadCutLimited(n: int, s: Source, cap: nat)
    requires cap > 0 && n > 0 && |s| > 0
    requires n < |s[0].data|
    ensures var a := Read(Limited(n, s), cap);
            var b := Read(Plain(Truncate(s, n)), cap);
            a.data == b.data && a.err == b.err &&
            b.next == Plain(Truncate(a.next.src, a.next.remaining))
  {
    var d := s[0].data;
    var t := Truncate(s, n);
    assert t == [ReadResult(d[..n], Nil)];
    if cap < n {
      var rest := [ReadResult(d[cap..], s[0].status)] + s[1..];
      assert rest[0].data == d[cap..];
      assert Truncate(rest, n - cap) == [ReadResult(d[cap..][..n - cap], Nil)];
      assert d[cap..][..n - cap] == d[..n][cap..];
    }
  }
}
