/**
 ECDSA signatures of 256-bit r and s: the DER form of Ecdsa-Sig-Value (section 2.2.3 of RFC 3279)
 and the raw form r followed by s (section 3.4 of RFC 7518).
 */
module DerSignature {
  import opened WebPush

  const RAW: nat := 64
  const HALF: nat := 32

  /** The content of a DER INTEGER: leading zero bytes dropped, and one put back before a high bit. */
  function IntegerContent(x: seq<Byte>): (c: seq<Byte>)
    ensures c != []
  {
    if x == [] then [0]
    else if x[0] == 0 then IntegerContent(x[1..])
    else if x[0] >= 128 then [0] + x
    else x
  }

  /** SEQUENCE { r INTEGER, s INTEGER } with one-byte lengths. */
  function Der(r: seq<Byte>, s: seq<Byte>): seq<Byte>
    requires |r| == HALF && |s| == HALF
  {
    var a, b := IntegerContent(r), IntegerContent(s);
    ContentLength(r);
    ContentLength(s);
    [0x30, 4 + |a| + |b|, 0x02, |a|] + a + [0x02, |b|] + b
  }

  lemma {:induction false} ContentLength(x: seq<Byte>)
    ensures |IntegerContent(x)| <= |x| + 1
    decreases |x|
  {
    if x != [] && x[0] == 0 {
      ContentLength(x[1..]);
    }
  }

  function Zeros(n: nat): (z: seq<Byte>)
    ensures |z| == n && forall i | 0 <= i < n :: z[i] == 0
  {
    seq(n, _ => 0)
  }

  /** An integer content as 32 bytes: the last 32, or zeros before it. */
  function Fixed(content: seq<Byte>): (x: seq<Byte>)
    ensures |x| == HALF
  {
    if |content| > HALF then content[|content| - HALF..] else Zeros(HALF - |content|) + content
  }

  /** n bytes from `at`, reading zeros past the end. */
  function Window(signature: seq<Byte>, at: nat, n: nat): (w: seq<Byte>)
    ensures |w| == n
  {
    seq<Byte>(n, k requires 0 <= k => ByteOrZero(signature, at + k))
  }

  /**
   What the conversion returns for any bytes: two integers of the lengths that bytes 3 and 5 + a give,
   as if zeros followed a signature that ends early.
   */
  function Raw(signature: seq<Byte>): seq<Byte> {
    if |signature| == RAW then signature
    else
      var a: nat := ByteOrZero(signature, 3);
      Integers(signature, a, ByteOrZero(signature, 5 + a))
  }

  /** Integers of a and b bytes, after four bytes and two more bytes. */
  function Integers(signature: seq<Byte>, a: nat, b: nat): seq<Byte> {
    Fixed(Window(signature, 4, a)) + Fixed(Window(signature, 6 + a, b))
  }

  /** Uint8Array.slice. */
  function Slice(s: seq<Byte>, start: nat, end: nat): seq<Byte> {
    var last := if end < |s| then end else |s|;
    if start < last then s[start..last] else []
  }

  /**
   derToRawSignature: 64 bytes pass as they are, and other signatures have their integers cut out by
   offsets. A length byte past the end is undefined; its slice is empty, as for a zero.
   */
  method DerToRaw(signature: seq<Byte>) returns (raw: seq<Byte>)
    ensures raw == Raw(signature) && |raw| == RAW
  {
    if |signature| == RAW {
      return signature;
    }
    var out := new Byte[RAW](_ => 0);
    assert out[..] == Zeros(HALF) + Zeros(HALF);
    Ends(Zeros(HALF), Zeros(HALF));
    var offset: nat := 3;
    var rLength: nat := ByteOrZero(signature, offset);
    offset := offset + 1;
    PutInteger(out, signature, offset, rLength, 0, [], Zeros(HALF));
    ghost var r := Fixed(Window(signature, 4, rLength));
    offset := offset + rLength + 1;
    var sLength: nat := ByteOrZero(signature, offset);
    offset := offset + 1;
    assert offset == 6 + rLength;
    ghost var s := Fixed(Window(signature, 6 + rLength, sLength));
    Ends(r, Zeros(HALF));
    PutInteger(out, signature, offset, sLength, HALF, r, []);
    raw := out[..];
    RawIs(signature, rLength, sLength);
    IntegersAre(signature, rLength, sLength, r, s);
    Ends(r, s);
  }

  lemma Ends(r: seq<Byte>, s: seq<Byte>)
    ensures [] + r + s == r + s == r + s + []
  {
  }

  lemma RawIs(signature: seq<Byte>, a: nat, b: nat)
    requires |signature| != RAW && a == ByteOrZero(signature, 3) && b == ByteOrZero(signature, 5 + a)
    ensures Raw(signature) == Integers(signature, a, b)
  {
    var a0: nat := ByteOrZero(signature, 3);
    assert a0 == a && ByteOrZero(signature, 5 + a0) == b;
  }

  lemma IntegersAre(signature: seq<Byte>, a: nat, b: nat, r: seq<Byte>, s: seq<Byte>)
    requires r == Fixed(Window(signature, 4, a)) && s == Fixed(Window(signature, 6 + a, b))
    ensures Integers(signature, a, b) == r + s
  {
  }

  /** The last 32 bytes of an integer, or all of it right-aligned, into the half of the result that starts at `half`. */
  method PutInteger(out: array<Byte>, signature: seq<Byte>, offset: nat, n: nat, half: nat,
                    ghost before: seq<Byte>, ghost after: seq<Byte>)
    requires out.Length == RAW && |before| == half && half + HALF + |after| == RAW
    requires out[..] == before + Zeros(HALF) + after
    modifies out
    ensures out[..] == before + Fixed(Window(signature, offset, n)) + after
  {
    var start := if n > HALF then offset + n - HALF else offset;
    var destination := if n < HALF then half + HALF - n else half;
    var present := Slice(signature, start, offset + n);
    SliceIsFixed(signature, offset, n);
    Placed(before, destination - half, present, after);
    Put(out, present, destination);
  }

  lemma Placed(before: seq<Byte>, lead: nat, present: seq<Byte>, after: seq<Byte>)
    requires lead + |present| <= HALF
    ensures var was, d := before + Zeros(HALF) + after, |before| + lead;
            was[..d] + present + was[d + |present|..] ==
            before + (Zeros(lead) + present + Zeros(HALF - lead - |present|)) + after
  {
    var was, d := before + Zeros(HALF) + after, |before| + lead;
    assert was[..d] == before + Zeros(lead);
    assert was[d + |present|..] == Zeros(HALF - lead - |present|) + after;
  }

  lemma WindowAt(signature: seq<Byte>, at: nat, n: nat, k: nat)
    requires k < n
    ensures Window(signature, at, n)[k] == ByteOrZero(signature, at + k)
  {
  }

  /** A window is what a slice holds, and then zeros. */
  lemma WindowIsSlice(signature: seq<Byte>, at: nat, n: nat)
    ensures |Slice(signature, at, at + n)| <= n
    ensures Window(signature, at, n) == Slice(signature, at, at + n) + Zeros(n - |Slice(signature, at, at + n)|)
  {
    var w, present := Window(signature, at, n), Slice(signature, at, at + n);
    forall k | 0 <= k < n
      ensures w[k] == (present + Zeros(n - |present|))[k]
    {
      WindowAt(signature, at, n, k);
    }
  }

  lemma LongWindow(signature: seq<Byte>, at: nat, n: nat)
    requires n >= HALF
    ensures Fixed(Window(signature, at, n)) == Window(signature, at + n - HALF, HALF)
  {
    var w, last := Window(signature, at, n), Window(signature, at + n - HALF, HALF);
    forall k | 0 <= k < HALF
      ensures w[n - HALF..][k] == last[k]
    {
      WindowAt(signature, at, n, n - HALF + k);
      WindowAt(signature, at + n - HALF, HALF, k);
    }
    assert w[n - HALF..] == last;
    assert Zeros(0) + w == w;
  }

  /** What is left of a slice that runs past the end, between zeros. */
  lemma SliceIsFixed(signature: seq<Byte>, offset: nat, n: nat)
    ensures var start := if n > HALF then offset + n - HALF else offset;
            var lead := if n < HALF then HALF - n else 0;
            var present := Slice(signature, start, offset + n);
            && lead + |present| <= HALF
            && Fixed(Window(signature, offset, n)) == Zeros(lead) + present + Zeros(HALF - lead - |present|)
  {
    if n >= HALF {
      LongWindow(signature, offset, n);
      WindowIsSlice(signature, offset + n - HALF, HALF);
    } else {
      WindowIsSlice(signature, offset, n);
    }
  }

  /** Uint8Array.set. */
  method Put(target: array<Byte>, source: seq<Byte>, at: nat)
    requires at + |source| <= target.Length
    modifies target
    ensures target[..] == old(target[..])[..at] + source + old(target[..])[at + |source|..]
  {
    for i := 0 to |source|
      invariant forall k | 0 <= k < target.Length ::
                  target[k] == if at <= k < at + i then source[k - at] else old(target[k])
    {
      target[at + i] := source[i];
    }
  }

  lemma {:induction false} FixedContent(x: seq<Byte>)
    requires |x| <= HALF
    ensures Fixed(IntegerContent(x)) == Zeros(HALF - |x|) + x
    decreases |x|
  {
    if x != [] && x[0] == 0 {
      FixedContent(x[1..]);
      assert Zeros(HALF - |x| + 1) + x[1..] == Zeros(HALF - |x|) + x;
    }
  }

  /** Two integers, each with its length in the byte before it. */
  predicate Described(signature: seq<Byte>, x: seq<Byte>, y: seq<Byte>) {
    && |signature| == 6 + |x| + |y|
    && signature[3] == |x| && signature[4..4 + |x|] == x
    && signature[5 + |x|] == |y| && signature[6 + |x|..] == y
  }

  /** Then the two windows are the integers themselves. */
  lemma DescribedRaw(signature: seq<Byte>, x: seq<Byte>, y: seq<Byte>)
    requires Described(signature, x, y) && |signature| != RAW
    ensures Raw(signature) == Fixed(x) + Fixed(y)
  {
    Within(signature, 4, |x|, x);
    Within(signature, 6 + |x|, |y|, y);
    RawIs(signature, |x|, |y|);
    IntegersAre(signature, |x|, |y|, Fixed(x), Fixed(y));
  }

  lemma Within(signature: seq<Byte>, at: nat, n: nat, content: seq<Byte>)
    requires at + n <= |signature| && content == signature[at..at + n]
    ensures Window(signature, at, n) == content
  {
    WindowIsSlice(signature, at, n);
    assert Zeros(0) == [];
  }

  lemma DerLayout(r: seq<Byte>, s: seq<Byte>)
    requires |r| == HALF && |s| == HALF
    ensures Described(Der(r, s), IntegerContent(r), IntegerContent(s))
  {
    var a, b := IntegerContent(r), IntegerContent(s);
    ContentLength(r);
    ContentLength(s);
    Layout([0x30, 4 + |a| + |b|, 0x02, |a|], a, [0x02, |b|], b);
  }

  lemma Layout(head: seq<Byte>, x: seq<Byte>, between: seq<Byte>, y: seq<Byte>)
    requires |head| == 4 && head[3] == |x| && |between| == 2 && between[1] == |y|
    ensures Described(head + x + between + y, x, y)
  {
    var all := head + x + between + y;
    assert all[4..4 + |x|] == x;
    assert all[5 + |x|] == between[1];
    assert all[6 + |x|..] == y;
  }

  /**
   For every r and s: the result is the raw signature exactly when the DER form is not 64 bytes
   long; a 64-byte DER form comes back unchanged, and it is never the raw signature by accident.
   */
  lemma DerTheorem(r: seq<Byte>, s: seq<Byte>)
    requires |r| == HALF && |s| == HALF
    ensures Raw(Der(r, s)) == r + s <==> |Der(r, s)| != RAW
    ensures |Der(r, s)| == RAW ==> Raw(Der(r, s)) == Der(r, s)
  {
    FixedContent(r);
    FixedContent(s);
    assert Zeros(0) + r == r && Zeros(0) + s == s;
    if |Der(r, s)| == RAW {
      DerIsNotRaw(r, s);
    } else {
      DerLayout(r, s);
      DescribedRaw(Der(r, s), IntegerContent(r), IntegerContent(s));
    }
  }

  /** Such signatures exist: a full r, and an s with six leading zero bytes. */
  lemma SixtyFourByteForm(r: seq<Byte>, s: seq<Byte>)
    requires r == [0x30] + Zeros(31) && s == Zeros(6) + [0x30] + Zeros(25)
    ensures |Der(r, s)| == RAW && Raw(Der(r, s)) != r + s
  {
    FullContent(r);
    assert forall k | 0 <= k < 6 :: s[k..][0] == 0 && s[k..][1..] == s[k + 1..];
    FullContent(s[6..]);
    assert s[0..] == s;
    assert IntegerContent(s[5..]) == IntegerContent(s[6..]);
    assert IntegerContent(s[4..]) == IntegerContent(s[5..]);
    assert IntegerContent(s[3..]) == IntegerContent(s[4..]);
    assert IntegerContent(s[2..]) == IntegerContent(s[3..]);
    assert IntegerContent(s[1..]) == IntegerContent(s[2..]);
    DerTheorem(r, s);
  }

  /** The leading byte of r decides the length of its content. */
  lemma FullContent(x: seq<Byte>)
    requires x != [] && 0 < x[0] < 128
    ensures IntegerContent(x) == x
  {
  }

  /**
   If a 64-byte DER form were its own raw signature, its bytes would repeat with period four up to
   the second integer, whose length byte then contradicts its first byte.
   */
  lemma DerIsNotRaw(r: seq<Byte>, s: seq<Byte>)
    requires |r| == HALF && |s| == HALF && |Der(r, s)| == RAW
    ensures Der(r, s) != r + s
  {
    DerLayout(r, s);
    var der := Der(r, s);
    if der == r + s {
      assert r[0] == (r + s)[0] == 0x30;
      FullContent(r);
      Shifted(der, r, s);
      assert false;
    }
  }

  lemma Shifted(x: seq<Byte>, r: seq<Byte>, s: seq<Byte>)
    requires |r| == HALF && |s| == HALF && x == r + s && x[4..36] == r
    ensures s[0] == r[0]
  {
    assert forall i | 0 <= i < HALF :: x[i + 4] == x[4..36][i] == r[i] == x[i];
    assert x[28 + 4] == x[28] && x[24 + 4] == x[24] && x[20 + 4] == x[20] && x[16 + 4] == x[16];
    assert x[12 + 4] == x[12] && x[8 + 4] == x[8] && x[4 + 4] == x[4] && x[0 + 4] == x[0];
  }
}
