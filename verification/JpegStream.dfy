/** Splitting a byte stream into JPEG images at their SOI and EOI markers. */
module JpegStream {
  import opened Domain

  newtype byte = b: int | 0 <= b < 256

  const MARKER: byte := 0xFF
  const SOI: byte := 0xD8
  const EOI: byte := 0xD9

  predicate PairAt(s: seq<byte>, k: nat, x: byte, y: byte) {
    k + 1 < |s| && s[k] == x && s[k + 1] == y
  }

  /** The first place from `i` on where `x` is followed by `y`; the length if there is none. */
  function FirstPair(s: seq<byte>, i: nat, x: byte, y: byte): (r: nat)
    requires i <= |s|
    ensures i <= r <= |s|
    decreases |s| - i
  {
    if i + 1 >= |s| then |s|
    else if s[i] == x && s[i + 1] == y then i
    else FirstPair(s, i + 1, x, y)
  }

  lemma {:induction false} FirstPairFinds(s: seq<byte>, i: nat, x: byte, y: byte)
    requires i <= |s|
    ensures var r := FirstPair(s, i, x, y);
      (r < |s| ==> PairAt(s, r, x, y)) && forall k :: i <= k < r ==> !PairAt(s, k, x, y)
    decreases |s| - i
  {
    if i + 1 < |s| && !(s[i] == x && s[i + 1] == y) {
      FirstPairFinds(s, i + 1, x, y);
    }
  }

  lemma {:induction false} FirstPairIs(s: seq<byte>, i: nat, x: byte, y: byte, r: nat)
    requires i <= r && PairAt(s, r, x, y)
    requires forall k :: i <= k < r ==> !PairAt(s, k, x, y)
    ensures FirstPair(s, i, x, y) == r
    decreases r - i
  {
    if i < r {
      assert !PairAt(s, i, x, y);
      FirstPairIs(s, i + 1, x, y, r);
    }
  }

  lemma {:induction false} NoPairIs(s: seq<byte>, i: nat, x: byte, y: byte)
    requires i <= |s| && forall k :: i <= k < |s| ==> !PairAt(s, k, x, y)
    ensures FirstPair(s, i, x, y) == |s|
    decreases |s| - i
  {
    if i < |s| {
      assert !PairAt(s, i, x, y);
      NoPairIs(s, i + 1, x, y);
    }
  }

  /** Starts with SOI and ends with the first EOI after it. */
  predicate WellFormed(frame: seq<byte>) {
    && |frame| >= 4 && frame[0] == MARKER && frame[1] == SOI
    && FirstPair(frame, 2, MARKER, EOI) == |frame| - 2
  }

  predicate EndsAt(frame: seq<byte>, k: nat)
    requires k + 1 < |frame|
  {
    frame[k] == 255 && frame[k + 1] == 217
  }

  /** Byte by byte: FF D8 in front, FF D9 behind, and no FF D9 between. */
  lemma WellFormedIs(frame: seq<byte>)
    ensures WellFormed(frame) <==>
      && |frame| >= 4 && frame[0] == 255 && frame[1] == 216 && EndsAt(frame, |frame| - 2)
      && forall k :: 2 <= k < |frame| - 2 ==> !EndsAt(frame, k)
  {
    if |frame| >= 4 {
      var n := |frame| - 2;
      FirstPairFinds(frame, 2, MARKER, EOI);
      assert forall k :: 2 <= k <= n ==> (PairAt(frame, k, MARKER, EOI) <==> EndsAt(frame, k));
      if EndsAt(frame, n) && forall k :: 2 <= k < n ==> !EndsAt(frame, k) {
        FirstPairIs(frame, 2, MARKER, EOI, n);
      }
    }
  }

  /** Bytes that can stand before a frame without being taken for the start of one. */
  predicate Junk(skipped: seq<byte>) {
    FirstPair(skipped + [MARKER], 0, MARKER, SOI) == |skipped| + 1
  }

  datatype Piece = Piece(skipped: seq<byte>, frame: seq<byte>)
  {
    predicate Valid() {
      Junk(skipped) && WellFormed(frame)
    }

    function Bytes(): seq<byte> {
      skipped + frame
    }
  }

  /** The next frame of a stream with what precedes it, or None when the stream ends first. */
  function Next(s: seq<byte>): (r: Option<Piece>)
    ensures r.Some? ==> r.value.frame != [] && |r.value.Bytes()| <= |s|
  {
    var start := FirstPair(s, 0, MARKER, SOI);
    if start + 2 > |s| then None
    else
      var end := FirstPair(s, start + 2, MARKER, EOI);
      if end + 2 > |s| then None else Some(Piece(s[..start], s[start..end + 2]))
  }

  lemma FrameIsWellFormed(s: seq<byte>, start: nat, end: nat)
    requires PairAt(s, start, MARKER, SOI) && start + 2 <= end && PairAt(s, end, MARKER, EOI)
    requires forall k :: start + 2 <= k < end ==> !PairAt(s, k, MARKER, EOI)
    ensures WellFormed(s[start..end + 2])
  {
    var frame := s[start..end + 2];
    forall k | 2 <= k < |frame| - 2
      ensures !PairAt(frame, k, MARKER, EOI)
    {
      assert !PairAt(s, start + k, MARKER, EOI);
    }
    FirstPairIs(frame, 2, MARKER, EOI, |frame| - 2);
  }

  lemma PrefixIsJunk(s: seq<byte>, start: nat)
    requires PairAt(s, start, MARKER, SOI)
    requires forall k :: 0 <= k < start ==> !PairAt(s, k, MARKER, SOI)
    ensures Junk(s[..start])
  {
    var before := s[..start] + [MARKER];
    forall k | 0 <= k < |before|
      ensures !PairAt(before, k, MARKER, SOI)
    {
      if k < start {
        assert !PairAt(s, k, MARKER, SOI);
      }
    }
    NoPairIs(before, 0, MARKER, SOI);
  }

  lemma NextIsValid(s: seq<byte>)
    requires Next(s).Some?
    ensures Next(s).value.Valid()
    ensures s == Next(s).value.Bytes() + s[|Next(s).value.Bytes()|..]
  {
    var start := FirstPair(s, 0, MARKER, SOI);
    FirstPairFinds(s, 0, MARKER, SOI);
    PrefixIsJunk(s, start);
    var end := FirstPair(s, start + 2, MARKER, EOI);
    FirstPairFinds(s, start + 2, MARKER, EOI);
    FrameIsWellFormed(s, start, end);
  }

  lemma JunkHasNoStart(p: Piece, rest: seq<byte>)
    requires p.Valid()
    ensures FirstPair(p.skipped + p.frame + rest, 0, MARKER, SOI) == |p.skipped|
  {
    var s, n, before := p.skipped + p.frame + rest, |p.skipped|, p.skipped + [MARKER];
    FirstPairFinds(before, 0, MARKER, SOI);
    forall k | 0 <= k < n
      ensures !PairAt(s, k, MARKER, SOI)
    {
      assert !PairAt(before, k, MARKER, SOI);
      assert s[k] == before[k] && s[k + 1] == before[k + 1];
    }
    assert s[n] == p.frame[0] && s[n + 1] == p.frame[1];
    FirstPairIs(s, 0, MARKER, SOI, n);
  }

  lemma FrameEndsOnce(p: Piece, rest: seq<byte>)
    requires p.Valid()
    ensures FirstPair(p.skipped + p.frame + rest, |p.skipped| + 2, MARKER, EOI) == |p.skipped| + |p.frame| - 2
  {
    var s, n, m := p.skipped + p.frame + rest, |p.skipped|, |p.frame|;
    FirstPairFinds(p.frame, 2, MARKER, EOI);
    forall k | n + 2 <= k < n + m - 2
      ensures !PairAt(s, k, MARKER, EOI)
    {
      assert !PairAt(p.frame, k - n, MARKER, EOI);
      assert s[k] == p.frame[k - n] && s[k + 1] == p.frame[k - n + 1];
    }
    assert s[n + m - 2] == p.frame[m - 2] && s[n + m - 1] == p.frame[m - 1];
    FirstPairIs(s, n + 2, MARKER, EOI, n + m - 2);
  }

  /** A valid piece at the head of a stream is exactly what is read next. */
  lemma NextOfPiece(p: Piece, rest: seq<byte>)
    requires p.Valid()
    ensures Next(p.Bytes() + rest) == Some(p)
  {
    JunkHasNoStart(p, rest);
    FrameEndsOnce(p, rest);
    var s, n, m := p.skipped + p.frame + rest, |p.skipped|, |p.frame|;
    assert s[..n] == p.skipped && s[n..n + m] == p.frame;
  }

  // ----- Whole streams -----

  /** All pieces of a stream and what is left of it. */
  function Split(s: seq<byte>): (seq<Piece>, seq<byte>)
    decreases |s|
  {
    var p := Next(s);
    if p.None? then ([], s)
    else
      var (pieces, tail) := Split(s[|p.value.Bytes()|..]);
      ([p.value] + pieces, tail)
  }

  function Join(pieces: seq<Piece>): seq<byte> {
    if pieces == [] then [] else pieces[0].Bytes() + Join(pieces[1..])
  }

  ghost predicate AllValid(pieces: seq<Piece>) {
    forall i :: 0 <= i < |pieces| ==> pieces[i].Valid()
  }

  lemma JoinCons(p: Piece, rest: seq<Piece>, tail: seq<byte>)
    requires p.Valid() && AllValid(rest)
    ensures AllValid([p] + rest)
    ensures Join([p] + rest) + tail == p.Bytes() + (Join(rest) + tail)
  {
  }

  /** Nothing is lost or invented: skipped bytes, frames and tail make up the stream. */
  lemma {:induction false} SplitConserves(s: seq<byte>)
    ensures AllValid(Split(s).0) && Next(Split(s).1) == None
    ensures Join(Split(s).0) + Split(s).1 == s
    decreases |s|
  {
    if Next(s).Some? {
      var p := Next(s).value;
      NextIsValid(s);
      var rest := s[|p.Bytes()|..];
      SplitConserves(rest);
      JoinCons(p, Split(rest).0, Split(rest).1);
    }
  }

  /** Round trip: a stream put together from valid pieces is read back as exactly those. */
  lemma {:induction false} SplitJoins(pieces: seq<Piece>, tail: seq<byte>)
    requires AllValid(pieces) && Next(tail) == None
    ensures Split(Join(pieces) + tail) == (pieces, tail)
  {
    if pieces == [] {
      assert Join(pieces) + tail == tail;
    } else {
      var p, more := pieces[0], pieces[1..];
      var rest := Join(more) + tail;
      assert pieces == [p] + more;
      JoinCons(p, more, tail);
      NextOfPiece(p, rest);
      assert (p.Bytes() + rest)[|p.Bytes()|..] == rest;
      SplitJoins(more, tail);
    }
  }

  function Frames(fs: seq<seq<byte>>): seq<Piece> {
    seq(|fs|, i requires 0 <= i < |fs| => Piece([], fs[i]))
  }

  /** Frames written one after the other are read back as they were, whatever they contain. */
  lemma FramesRoundTrip(fs: seq<seq<byte>>)
    requires forall i :: 0 <= i < |fs| ==> WellFormed(fs[i])
    ensures Split(Join(Frames(fs))) == (Frames(fs), [])
  {
    SplitJoins(Frames(fs), []);
    assert Join(Frames(fs)) + [] == Join(Frames(fs));
  }

  /** A cut frame yields no frame. */
  lemma TruncatedYieldsNothing(frame: seq<byte>, n: nat)
    requires WellFormed(frame) && n < |frame|
    ensures Next(frame[..n]) == None
  {
    var s := frame[..n];
    if n >= 2 {
      FirstPairIs(s, 0, MARKER, SOI, 0);
      FirstPairFinds(frame, 2, MARKER, EOI);
      forall k | 2 <= k < n
        ensures !PairAt(s, k, MARKER, EOI)
      {
        assert k < |frame| - 2 ==> !PairAt(frame, k, MARKER, EOI);
      }
      NoPairIs(s, 2, MARKER, EOI);
    }
  }

  // ----- The reader -----

  /** The next byte, the end of the stream, or an error in its place. */
  datatype Read = Byte(value: byte) | End | Broken

  class Stream {
    const data: seq<byte>
    /** Whether the data is cut off by an error. */
    const broken: bool
    var pos: nat

    constructor (data: seq<byte>, broken: bool)
      ensures this.data == data && this.broken == broken && pos == 0
    {
      this.data, this.broken, pos := data, broken, 0;
    }

    method ReadByte() returns (r: Read)
      requires pos <= |data|
      modifies this
      ensures if old(pos) < |data| then r == Byte(data[old(pos)]) && pos == old(pos) + 1
              else r == (if broken then Broken else End) && pos == old(pos)
    {
      if pos == |data| {
        return if broken then Broken else End;
      }
      r, pos := Byte(data[pos]), pos + 1;
    }
  }

  /** How far `ReadJpeg` has come after `n` bytes of `s`. */
  ghost predicate Scanned(s: seq<byte>, n: nat, started: bool, prev: byte, buf: seq<byte>) {
    && n <= |s| && (if n > 0 then prev == s[n - 1] else prev == 0)
    && (if started then
          var a := FirstPair(s, 0, MARKER, SOI);
          a + 2 <= n && buf == s[a..n] && forall k :: a + 2 <= k < n - 1 ==> !PairAt(s, k, MARKER, EOI)
        else forall k :: 0 <= k < n - 1 ==> !PairAt(s, k, MARKER, SOI))
  }

  lemma ScanEnds(s: seq<byte>, started: bool, prev: byte, buf: seq<byte>)
    requires Scanned(s, |s|, started, prev, buf)
    ensures Next(s) == None
  {
    if started {
      NoPairIs(s, FirstPair(s, 0, MARKER, SOI) + 2, MARKER, EOI);
    } else {
      NoPairIs(s, 0, MARKER, SOI);
    }
  }

  lemma ScanStarts(s: seq<byte>, n: nat, prev: byte)
    requires n < |s| && Scanned(s, n, false, prev, []) && prev == MARKER && s[n] == SOI
    ensures Scanned(s, n + 1, true, SOI, [MARKER, SOI])
  {
    FirstPairIs(s, 0, MARKER, SOI, n - 1);
  }

  lemma ScanFinishes(s: seq<byte>, n: nat, prev: byte, buf: seq<byte>)
    requires n < |s| && Scanned(s, n, true, prev, buf) && prev == MARKER && s[n] == EOI
    ensures Next(s).Some? && Next(s).value.frame == buf + [EOI] && |Next(s).value.Bytes()| == n + 1
  {
    var a := FirstPair(s, 0, MARKER, SOI);
    FirstPairFinds(s, 0, MARKER, SOI);
    assert a + 2 <= n - 1;
    FirstPairIs(s, a + 2, MARKER, EOI, n - 1);
    assert s[a..n + 1] == s[a..n] + [s[n]];
  }

  /** What reading a frame gives; a frame cut by the end of the stream counts as the end. */
  datatype Result = Frame(frame: seq<byte>) | Ended | Aborted

  /** Reads the next frame byte by byte. */
  method ReadJpeg(r: Stream) returns (result: Result)
    requires r.pos <= |r.data|
    modifies r
    ensures r.pos <= |r.data|
    ensures match Next(r.data[old(r.pos)..])
      case None => result == (if r.broken then Aborted else Ended) && r.pos == |r.data|
      case Some(p) => result == Frame(p.frame) && r.pos == old(r.pos) + |p.Bytes()|
  {
    ghost var s := r.data[r.pos..];
    ghost var n := 0;
    var buf: seq<byte> := [];
    var prev: byte := 0;
    var started := false;
    while true
      invariant r.pos == old(r.pos) + n && Scanned(s, n, started, prev, buf)
      invariant !started ==> buf == []
      decreases |s| - n
    {
      var b := r.ReadByte();
      if !b.Byte? {
        ScanEnds(s, started, prev, buf);
        return if b.Broken? then Aborted else Ended;
      }
      var cur := b.value;
      if !started {
        if prev == MARKER && cur == SOI {
          ScanStarts(s, n, prev);
          buf := [MARKER, SOI];
          started := true;
        }
        prev, n := cur, n + 1;
        continue;
      }
      if prev == MARKER && cur == EOI {
        ScanFinishes(s, n, prev, buf);
        return Frame(buf + [cur]);
      }
      buf := buf + [cur];
      prev, n := cur, n + 1;
    }
  }

  /** What the extraction loop reads: every frame of the stream, in order, and whether it broke. */
  method ReadAll(r: Stream) returns (frames: seq<seq<byte>>, failed: bool)
    requires r.pos == 0
    modifies r
    ensures frames == FramesOf(Split(r.data).0) && r.pos == |r.data| && failed == r.broken
  {
    frames := [];
    assert r.data[0..] == r.data;
    while true
      invariant r.pos <= |r.data|
      invariant FramesOf(Split(r.data).0) == frames + FramesOf(Split(r.data[r.pos..]).0)
      decreases |r.data| - r.pos
    {
      ghost var s := r.data[r.pos..];
      var result := ReadJpeg(r);
      if !result.Frame? {
        return frames, result.Aborted?;
      }
      ghost var p := Next(s).value;
      assert r.data[r.pos..] == s[|p.Bytes()|..];
      FramesOfMore(p, Split(s[|p.Bytes()|..]).0);
      frames := frames + [result.frame];
    }
  }

  function FramesOf(pieces: seq<Piece>): seq<seq<byte>> {
    seq(|pieces|, i requires 0 <= i < |pieces| => pieces[i].frame)
  }

  lemma FramesOfMore(p: Piece, rest: seq<Piece>)
    ensures FramesOf([p] + rest) == [p.frame] + FramesOf(rest)
  {
  }
}
