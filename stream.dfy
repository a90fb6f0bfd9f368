/** stream.go: `streamInBetween`, the byte-by-byte extractor of one JSON string field. */
module Stream {
  import opened Wrappers
  import opened Bytes
  import opened Errors
  import opened Io

  /** The mutable part of an extractor: whether the start marker has been seen, the bytes
      accumulated while looking for it, and the buffered value bytes not yet read. */
  datatype ScanState = ScanState(startData: bool, initiate: seq<Byte>, temp: seq<Byte>)

  /** The state `newStreamInBetween` creates. */
  const Fresh := ScanState(false, [], [])

  /** `m` is a suffix of `s`. */
  predicate EndsWith(s: seq<Byte>, m: seq<Byte>)
  {
    |m| <= |s| && s[|s| - |m|..] == m
  }

  /** Still looking: the accumulated prefix does not contain the marker yet (the empty
      prefix is always still looking, even for the empty marker). */
  predicate Waiting(initiate: seq<Byte>, marker: seq<Byte>)
  {
    initiate == [] || !Contains(initiate, marker)
  }

  /** The states a fresh extractor can reach: while looking, the marker has not occurred;
      once started, it occurred for the first time exactly at the end of `initiate`. */
  predicate Reachable(st: ScanState, marker: seq<Byte>)
  {
    if st.startData then
      |st.initiate| >= 1 && Waiting(st.initiate[..|st.initiate| - 1], marker) &&
      Contains(st.initiate, marker) && EndsWith(st.initiate, marker)
    else
      Waiting(st.initiate, marker)
  }

  /** One iteration of `Write`'s loop for a byte that does not end the value. */
  function Step(st: ScanState, marker: seq<Byte>, b: Byte): ScanState
  {
    if st.startData then st.(temp := st.temp + [b])
    else ScanState(Contains(st.initiate + [b], marker), st.initiate + [b], st.temp)
  }

  /** The moment the marker is completed, the accumulated bytes end with it. */
  lemma StepReachable(st: ScanState, marker: seq<Byte>, b: Byte)
    requires Reachable(st, marker)
    ensures Reachable(Step(st, marker, b), marker)
  {
    if !st.startData {
      var init := st.initiate + [b];
      assert init[..|init| - 1] == st.initiate;
      if Contains(init, marker) {
        if marker == [] {
          assert init[|init|..] == [];
        } else {
          assert !Contains(st.initiate, marker) by {
            if st.initiate == [] {
              assert !(marker <= st.initiate);
            }
          }
          FirstContainsEndsWith(st.initiate, b, marker);
        }
      }
    }
  }

  /** What one `Write` call did: the state afterwards, and whether it hit the end byte. */
  datatype Fed = Fed(state: ScanState, stopped: bool)

  /** `Write(p)` from state `st`: bytes are taken one by one until the end byte shows up
      after the start marker. */
  function Feed(st: ScanState, marker: seq<Byte>, end: Byte, p: seq<Byte>): (f: Fed)
    ensures Reachable(st, marker) ==> Reachable(f.state, marker)
    ensures st.startData ==> f.state.startData && f.state.initiate == st.initiate
    ensures st.temp <= f.state.temp
    ensures !f.state.startData ==> f.state.temp == st.temp
    ensures f.stopped ==> f.state.startData && |p| > 0
    decreases |p|
  {
    if p == [] then Fed(st, false)
    else if st.startData && p[0] == end then Fed(st, true)
    else
      var next := Step(st, marker, p[0]);
      if Reachable(st, marker) then StepReachable(st, marker, p[0]); Feed(next, marker, end, p[1..])
      else Feed(next, marker, end, p[1..])
  }

  /** One byte of a write: the end byte after the marker stops it; any other byte is a
      `Step`, from a state that is still reachable. */
  lemma FeedByte(st: ScanState, marker: seq<Byte>, end: Byte, p: seq<Byte>)
    requires p != [] && Reachable(st, marker)
    ensures st.startData && p[0] == end ==> Feed(st, marker, end, p) == Fed(st, true)
    ensures !(st.startData && p[0] == end) ==>
      Feed(st, marker, end, p) == Feed(Step(st, marker, p[0]), marker, end, p[1..]) &&
      Reachable(Step(st, marker, p[0]), marker)
  {
    StepReachable(st, marker, p[0]);
  }

  /** Once started, a write adds the bytes before the first end byte and stops there. */
  lemma {:induction false} FeedStarted(st: ScanState, marker: seq<Byte>, end: Byte, p: seq<Byte>)
    requires st.startData
    ensures Feed(st, marker, end, p) == Fed(st.(temp := st.temp + TakeUntil(p, end)), end in p)
    decreases |p|
  {
    if p != [] && p[0] != end {
      var next := Step(st, marker, p[0]);
      assert next == st.(temp := st.temp + [p[0]]);
      assert Feed(st, marker, end, p) == Feed(next, marker, end, p[1..]);
      FeedStarted(next, marker, end, p[1..]);
      assert TakeUntil(p, end) == [p[0]] + TakeUntil(p[1..], end);
      assert st.temp + [p[0]] + TakeUntil(p[1..], end) == st.temp + TakeUntil(p, end);
      assert end in p <==> end in p[1..] by {
        assert p == [p[0]] + p[1..];
      }
    }
  }

  /** The first prefix length, from `k` on, at which `s[..k]` contains the marker. */
  function FirstFrom(s: seq<Byte>, marker: seq<Byte>, k: nat): (r: Option<nat>)
    requires 1 <= k
    ensures r.Some? ==> k <= r.value <= |s| && Contains(s[..r.value], marker)
    ensures r.Some? ==> forall j :: k <= j < r.value ==> !Contains(s[..j], marker)
    ensures r.None? ==> forall j :: k <= j <= |s| ==> !Contains(s[..j], marker)
    decreases |s| + 1 - k
  {
    if k > |s| then None
    else if Contains(s[..k], marker) then Some(k)
    else FirstFrom(s, marker, k + 1)
  }

  /** Reference definition of where extraction begins: the length of the shortest
      non-empty prefix of `s` that contains the marker, if there is one. */
  function MarkerEnd(s: seq<Byte>, marker: seq<Byte>): (r: Option<nat>)
    ensures r.Some? ==> 1 <= r.value <= |s| && Contains(s[..r.value], marker)
    ensures r.Some? ==> forall j :: 1 <= j < r.value ==> !Contains(s[..j], marker)
    ensures r.None? ==> forall j :: 1 <= j <= |s| ==> !Contains(s[..j], marker)
  {
    FirstFrom(s, marker, 1)
  }

  /** Feeding a still-looking extractor, stated through the prefix scan. */
  lemma {:induction false} FeedLooking(st: ScanState, marker: seq<Byte>, end: Byte, p: seq<Byte>)
    requires !st.startData
    ensures var s := st.initiate + p;
      match FirstFrom(s, marker, |st.initiate| + 1)
      case None => Feed(st, marker, end, p) == Fed(ScanState(false, s, st.temp), false)
      case Some(k) =>
        k <= |s| &&
        Feed(st, marker, end, p) == Fed(ScanState(true, s[..k], st.temp + TakeUntil(s[k..], end)), end in s[k..])
    decreases |p|
  {
    var s := st.initiate + p;
    if p == [] {
      assert s == st.initiate;
    } else {
      var init := st.initiate + [p[0]];
      var k := |st.initiate| + 1;
      assert s[..k] == init;
      assert s == init + p[1..];
      var next := Step(st, marker, p[0]);
      if Contains(init, marker) {
        FeedStarted(next, marker, end, p[1..]);
        assert s[k..] == p[1..];
      } else {
        FeedLooking(next, marker, end, p[1..]);
      }
    }
  }

  /** What a fresh extractor does with a whole body: nothing is buffered up to and
      including the byte that completes the marker; afterwards everything up to the first
      end byte is buffered, and the write stops there. */
  lemma FeedFromFresh(marker: seq<Byte>, end: Byte, body: seq<Byte>)
    ensures match MarkerEnd(body, marker)
      case None => Feed(Fresh, marker, end, body) == Fed(ScanState(false, body, []), false)
      case Some(k) =>
        Feed(Fresh, marker, end, body) ==
        Fed(ScanState(true, body[..k], TakeUntil(body[k..], end)), end in body[k..])
  {
    FeedLooking(Fresh, marker, end, body);
    assert [] + body == body;
  }

  /** The extraction promise: for a body `a + marker + v + end + b` in which the marker
      first occurs right before `v` and `v` has no end byte, exactly `v` is extracted,
      whatever `a` and `b` hold (end bytes in `a` included). */
  lemma ExtractValue(a: seq<Byte>, marker: seq<Byte>, v: seq<Byte>, end: Byte, b: seq<Byte>)
    requires marker != [] && !Contains(a + marker[..|marker| - 1], marker) && end !in v
    ensures Feed(Fresh, marker, end, a + marker + v + [end] + b) == Fed(ScanState(true, a + marker, v), true)
  {
    var body := a + marker + v + [end] + b;
    var k := |a| + |marker|;
    MarkerStartsAt(a, marker, v + [end] + b);
    assert body == (a + marker) + (v + [end] + b);
    FeedFromFresh(marker, end, body);
    assert body[..k] == a + marker;
    assert body[k..] == v + [end] + b;
    TakeUntilValue(v, end, b);
  }

  /** When the value is never closed (a truncated body) the whole tail is buffered and the
      write never stops. */
  lemma ExtractUnterminated(a: seq<Byte>, marker: seq<Byte>, v: seq<Byte>, end: Byte)
    requires marker != [] && !Contains(a + marker[..|marker| - 1], marker) && end !in v
    ensures Feed(Fresh, marker, end, a + marker + v) == Fed(ScanState(true, a + marker, v), false)
  {
    var body := a + marker + v;
    MarkerStartsAt(a, marker, v);
    FeedFromFresh(marker, end, body);
    assert body[..|a| + |marker|] == a + marker;
    assert body[|a| + |marker|..] == v;
  }

  /** The first occurrence of the marker ends at `|a| + |marker|`. */
  lemma MarkerStartsAt(a: seq<Byte>, marker: seq<Byte>, rest: seq<Byte>)
    requires marker != [] && !Contains(a + marker[..|marker| - 1], marker)
    ensures MarkerEnd(a + marker + rest, marker) == Some(|a| + |marker|)
  {
    var body := a + marker + rest;
    var k := |a| + |marker|;
    assert body[..k] == a + marker;
    ContainsSuffix(a, marker);
    forall j | 1 <= j < k
      ensures !Contains(body[..j], marker)
    {
      var head := a + marker[..|marker| - 1];
      assert body[..j] + head[j..] == head;
      if Contains(body[..j], marker) {
        ContainsExtend(body[..j], head[j..], marker);
      }
    }
  }

  /** With an empty marker extraction starts after the first byte, which is not kept. */
  lemma EmptyMarker(end: Byte, body: seq<Byte>)
    requires body != []
    ensures Feed(Fresh, [], end, body) ==
            Fed(ScanState(true, body[..1], TakeUntil(body[1..], end)), end in body[1..])
  {
    assert [] <= body[..1];
    FeedFromFresh([], end, body);
  }

  /** Writing `a` and then `b` is writing `a + b` (as long as `a` did not stop). */
  lemma {:induction false} FeedAppend(st: ScanState, marker: seq<Byte>, end: Byte, a: seq<Byte>, b: seq<Byte>)
    ensures var fa := Feed(st, marker, end, a);
      Feed(st, marker, end, a + b) == if fa.stopped then fa else Feed(fa.state, marker, end, b)
    decreases |a|
  {
    if a == [] {
      assert a + b == b;
    } else {
      assert (a + b)[0] == a[0];
      assert (a + b)[1..] == a[1..] + b;
      if !(st.startData && a[0] == end) {
        FeedAppend(Step(st, marker, a[0]), marker, end, a[1..], b);
      }
    }
  }

  /** `io.Copy` into an extractor: each chunk is written in turn, and the first short
      write ends the copy. */
  function CopyFeed(st: ScanState, marker: seq<Byte>, end: Byte, chunks: seq<seq<Byte>>): Fed
    decreases |chunks|
  {
    if chunks == [] then Fed(st, false)
    else
      var f := Feed(st, marker, end, chunks[0]);
      if f.stopped then f else CopyFeed(f.state, marker, end, chunks[1..])
  }

  /** Chunking does not matter: copying chunk by chunk gives the same state, and stops in
      the same case, as one write of all the bytes. */
  lemma {:induction false} CopyFeedFlatten(st: ScanState, marker: seq<Byte>, end: Byte, chunks: seq<seq<Byte>>)
    ensures CopyFeed(st, marker, end, chunks) == Feed(st, marker, end, Flatten(chunks))
    decreases |chunks|
  {
    if chunks != [] {
      FeedAppend(st, marker, end, chunks[0], Flatten(chunks[1..]));
      var f := Feed(st, marker, end, chunks[0]);
      if !f.stopped {
        CopyFeedFlatten(f.state, marker, end, chunks[1..]);
      }
    }
  }

  /** `streamInBetween`: buffers the bytes between `startPoint` and the next `endPoint`. */
  class StreamInBetween {
    var startData: bool
    var initiate: seq<Byte>
    var temp: seq<Byte>
    const startPoint: seq<Byte>
    const endPoint: int   // a rune; bytes are compared with its low byte

    function State(): ScanState
      reads this
    {
      ScanState(startData, initiate, temp)
    }

    ghost predicate Valid()
      reads this
    {
      Reachable(State(), startPoint)
    }

    /** `newStreamInBetween(startPoint, endPoint)`. */
    constructor (startPoint: seq<Byte>, endPoint: int)
      ensures Valid() && State() == Fresh
      ensures this.startPoint == startPoint && this.endPoint == endPoint
    {
      this.startPoint := startPoint;
      this.endPoint := endPoint;
      startData := false;
      initiate := [];
      temp := [];
    }

    /** `Read` with a buffer of `size` bytes: `bytes.Buffer.Read` on `temp`. */
    method Read(size: nat) returns (data: seq<Byte>, eof: bool)
      modifies this`temp
      ensures eof <==> old(temp) == [] && size > 0
      ensures |data| == if size < |old(temp)| then size else |old(temp)|
      ensures old(temp) == data + temp
    {
      if temp == [] {
        data, eof := [], size > 0;
      } else {
        var k := if size < |temp| then size else |temp|;
        data, temp, eof := temp[..k], temp[k..], false;
      }
    }

    /** One byte of `Write`'s loop that does not end the value: it is buffered once the
        marker has been seen, and otherwise added to the bytes searched for the marker. */
    method Absorb(b: Byte)
      modifies this`startData, this`initiate, this`temp
      ensures State() == Step(old(State()), startPoint, b)
    {
      if startData {
        temp := temp + [b];
      } else {
        initiate := initiate + [b];
        if Contains(initiate, startPoint) {
          startData := true;
        }
      }
    }

    /** `Write(p)`: the error result is always nil, since appending to a `strings.Builder`
        or a `bytes.Buffer` cannot fail. */
    method Write(p: seq<Byte>) returns (n: nat)
      requires Valid()
      modifies this`startData, this`initiate, this`temp
      ensures Valid()
      ensures var f := Feed(old(State()), startPoint, LowByte(endPoint), p);
        State() == f.state && n == (if f.stopped then 0 else |p|)
    {
      ghost var goal := Feed(State(), startPoint, LowByte(endPoint), p);
      n := 0;
      var i := 0;
      while i < |p|
        invariant 0 <= i <= |p| && n == i
        invariant Valid()
        invariant goal == Feed(State(), startPoint, LowByte(endPoint), p[i..])
      {
        var b := p[i];
        assert p[i..][0] == b && p[i..][1..] == p[i + 1..];
        FeedByte(State(), startPoint, LowByte(endPoint), p[i..]);
        // the closing quote ends the value
        if startData && b == LowByte(endPoint) {
          return 0;
        }
        Absorb(b);
        n := n + 1;
        i := i + 1;
      }
    }
  }

  /** `io.Copy(dst, src)` where `dst` is an extractor: the read failure, or
      `io.ErrShortWrite` when a write stopped at the end byte. */
  method Copy(dst: StreamInBetween, src: Reader) returns (err: Option<Error>)
    requires dst.Valid()
    modifies dst`startData, dst`initiate, dst`temp
    ensures dst.Valid()
    ensures var f := Feed(old(dst.State()), dst.startPoint, LowByte(dst.endPoint), Contents(src));
      dst.State() == f.state && err == (if f.stopped then Some(ShortWrite) else src.failure)
  {
    var marker, end := dst.startPoint, LowByte(dst.endPoint);
    CopyFeedFlatten(dst.State(), marker, end, src.chunks);
    ghost var goal := CopyFeed(dst.State(), marker, end, src.chunks);
    var i := 0;
    while i < |src.chunks|
      invariant 0 <= i <= |src.chunks|
      invariant dst.Valid()
      invariant goal == CopyFeed(dst.State(), marker, end, src.chunks[i..])
    {
      var chunk := src.chunks[i];
      assert src.chunks[i..][0] == chunk && src.chunks[i..][1..] == src.chunks[i + 1..];
      ghost var f := Feed(dst.State(), marker, end, chunk);
      assert goal == if f.stopped then f else CopyFeed(f.state, marker, end, src.chunks[i + 1..]);
      if |chunk| > 0 {
        var n := dst.Write(chunk);
        if n != |chunk| {
          return Some(ShortWrite);
        }
      }
      i := i + 1;
    }
    err := src.failure;
  }
}
