/** Byte strings and the handful of Go `strings`/`bytes` helpers the client relies on. */
module Bytes {

  /** A Go `byte`. */
  type Byte = b: int | 0 <= b < 256

  /** The bytes of an ASCII Go string literal. */
  const Quote: Byte := 34

  /** Go's `byte(r)` conversion of a rune keeps its low eight bits. */
  function LowByte(r: int): (b: Byte)
    ensures (r - b) % 256 == 0
  {
    r % 256
  }

  /** `strings.Contains(s, m)`: `m` occurs as a contiguous block of `s`. */
  predicate Contains(s: seq<Byte>, m: seq<Byte>)
    decreases |s|
  {
    m <= s || (|s| > 0 && Contains(s[1..], m))
  }

  /** `m` occurs in `s` at offset `i`. */
  predicate OccursAt(s: seq<Byte>, m: seq<Byte>, i: nat)
  {
    i + |m| <= |s| && s[i..i + |m|] == m
  }

  /** Contains agrees with the offset-based reading of "occurs in". */
  lemma {:induction false} ContainsIffOccurs(s: seq<Byte>, m: seq<Byte>)
    ensures Contains(s, m) <==> exists i: nat :: OccursAt(s, m, i)
    decreases |s|
  {
    if m <= s {
      assert OccursAt(s, m, 0);
    } else if |s| > 0 {
      ContainsIffOccurs(s[1..], m);
      if Contains(s[1..], m) {
        var i: nat :| OccursAt(s[1..], m, i);
        assert s[i + 1..i + 1 + |m|] == s[1..][i..i + |m|];
        assert OccursAt(s, m, i + 1);
      } else {
        forall i: nat | OccursAt(s, m, i) ensures false {
          if i != 0 {
            assert s[1..][i - 1..i - 1 + |m|] == s[i..i + |m|];
            assert OccursAt(s[1..], m, i - 1);
          }
        }
      }
    }
  }

  /** Nothing contains a marker longer than itself. */
  lemma {:induction false} ContainsLength(s: seq<Byte>, m: seq<Byte>)
    requires Contains(s, m)
    ensures |m| <= |s|
    decreases |s|
  {
    if !(m <= s) {
      ContainsLength(s[1..], m);
    }
  }

  /** Anything `s` contains, any extension of `s` contains too. */
  lemma {:induction false} ContainsExtend(s: seq<Byte>, t: seq<Byte>, m: seq<Byte>)
    requires Contains(s, m)
    ensures Contains(s + t, m)
    decreases |s|
  {
    if m <= s {
      assert m <= s + t;
    } else {
      assert (s + t)[1..] == s[1..] + t;
      ContainsExtend(s[1..], t, m);
    }
  }

  /** Every sequence contains itself as its own suffix. */
  lemma {:induction false} ContainsSuffix(a: seq<Byte>, m: seq<Byte>)
    ensures Contains(a + m, m)
    decreases |a|
  {
    if a == [] {
      assert a + m == m;
    } else {
      assert (a + m)[1..] == a[1..] + m;
      ContainsSuffix(a[1..], m);
    }
  }

  /** If appending one byte makes `m` appear, the new occurrence is a suffix. */
  lemma {:induction false} FirstContainsEndsWith(s: seq<Byte>, b: Byte, m: seq<Byte>)
    requires !Contains(s, m) && Contains(s + [b], m)
    ensures |m| <= |s| + 1 && (s + [b])[|s| + 1 - |m|..] == m
    decreases |s|
  {
    if m <= s + [b] {
      if |m| <= |s| {
        ShorterPrefix(m, s, [b]);
        assert false;
      }
    } else if s == [] {
      assert false;
    } else {
      assert (s + [b])[1..] == s[1..] + [b];
      FirstContainsEndsWith(s[1..], b, m);
    }
  }

  /** A prefix of `s + t` no longer than `s` is a prefix of `s`. */
  lemma ShorterPrefix(m: seq<Byte>, s: seq<Byte>, t: seq<Byte>)
    requires m <= s + t && |m| <= |s|
    ensures m <= s
  {
    assert m == (s + t)[..|m|] == s[..|m|];
  }

  /** The bytes of `p` up to (excluding) the first `e`, or all of `p` when there is none. */
  function TakeUntil(p: seq<Byte>, e: Byte): (r: seq<Byte>)
    ensures r <= p && e !in r
    ensures e in p ==> |r| < |p| && p[|r|] == e
    ensures e !in p ==> r == p
  {
    if p == [] then [] else if p[0] == e then [] else [p[0]] + TakeUntil(p[1..], e)
  }

  /** A value followed by its delimiter: everything from the delimiter on is cut off. */
  lemma {:induction false} TakeUntilValue(v: seq<Byte>, e: Byte, rest: seq<Byte>)
    requires e !in v
    ensures TakeUntil(v + [e] + rest, e) == v
    decreases |v|
  {
    if v != [] {
      assert (v + [e] + rest)[1..] == v[1..] + [e] + rest;
      TakeUntilValue(v[1..], e, rest);
    }
  }

  /** The concatenation of a sequence of chunks. */
  function Flatten(chunks: seq<seq<Byte>>): (r: seq<Byte>)
    ensures chunks != [] ==> r == chunks[0] + Flatten(chunks[1..])
  {
    if chunks == [] then [] else chunks[0] + Flatten(chunks[1..])
  }

  /** ASCII white space as recognised by Go's `unicode.IsSpace` below 0x80. */
  predicate IsSpace(b: Byte)
  {
    9 <= b <= 13 || b == 32   // \t \n \v \f \r and the space
  }

  /** The index of the first byte of `s` that is not white space (`|s|` when none is). */
  function Start(s: seq<Byte>): (n: nat)
    ensures n <= |s| && (n < |s| ==> !IsSpace(s[n]))
    ensures forall i :: 0 <= i < n ==> IsSpace(s[i])
    decreases |s|
  {
    if s != [] && IsSpace(s[0]) then
      var n := Start(s[1..]);
      assert forall i :: 1 <= i < n + 1 ==> s[i] == s[1..][i - 1];
      n + 1
    else 0
  }

  /** Scanning down from `hi` to `lo`: the end of the last byte in `s[lo..hi]` that is not
      white space (`lo` when none is). */
  function Stop(s: seq<Byte>, lo: nat, hi: nat): (n: nat)
    requires lo <= hi <= |s|
    ensures lo <= n <= hi && (n > lo ==> !IsSpace(s[n - 1]))
    ensures forall i :: n <= i < hi ==> IsSpace(s[i])
    decreases hi
  {
    if hi > lo && IsSpace(s[hi - 1]) then Stop(s, lo, hi - 1) else hi
  }

  /** `r` is `s` with `i` leading and some trailing white-space bytes removed. */
  predicate TrimmedAt(s: seq<Byte>, r: seq<Byte>, i: nat)
  {
    i + |r| <= |s| && r == s[i..i + |r|]
    && (forall k :: 0 <= k < i ==> IsSpace(s[k]))
    && (forall k :: i + |r| <= k < |s| ==> IsSpace(s[k]))
  }

  /** `strings.TrimSpace` restricted to ASCII white space: the longest infix with no
      white space at either end, obtained by dropping white space only. */
  function TrimSpace(s: seq<Byte>): (r: seq<Byte>)
    ensures exists i: nat :: TrimmedAt(s, r, i)
    ensures r == [] || (!IsSpace(r[0]) && !IsSpace(r[|r| - 1]))
  {
    var start := Start(s);
    var stop := Stop(s, start, |s|);
    assert TrimmedAt(s, s[start..stop], start);
    s[start..stop]
  }

  /** Trimming twice trims nothing more. */
  lemma TrimSpaceIdempotent(s: seq<Byte>)
    ensures TrimSpace(TrimSpace(s)) == TrimSpace(s)
  {
    TrimSpaceNoop(TrimSpace(s));
  }

  /** Text that neither starts nor ends with white space is left alone. */
  lemma TrimSpaceNoop(s: seq<Byte>)
    requires s == [] || (!IsSpace(s[0]) && !IsSpace(s[|s| - 1]))
    ensures TrimSpace(s) == s
  {
    assert Start(s) == 0;
    assert Stop(s, 0, |s|) == |s|;
    assert s[0..|s|] == s;
  }
}
