/** Truncation of push payloads to their byte limit by binary search over code points. */
module PushPayload {
  import opened Common

  const MAX_PAYLOAD_BYTES: nat := 3000

  /** A code point, or a lone surrogate. */
  type Point = nat

  type Text = seq<Point>

  function Cut(text: Text, n: nat): Text {
    if n <= |text| then text[..n] else text
  }

  function Max(a: nat, b: nat): nat {
    if a < b then b else a
  }

  /** The candidate of common prefix length `n`. */
  function Candidate<T>(title: Text, body: Text, build: (Text, Text) -> T, n: nat): T {
    build(Cut(title, n), Cut(body, n))
  }

  /** The builder's size grows with its inputs. */
  ghost predicate Grows<T(!new)>(build: (Text, Text) -> T, size: T -> nat) {
    forall t, t', b, b' | t <= t' && b <= b' :: size(build(t, b)) <= size(build(t', b'))
  }

  /** `n` is the largest prefix length whose candidate fits. */
  ghost predicate Largest<T(!new)>(title: Text, body: Text, build: (Text, Text) -> T, size: T -> nat, n: nat) {
    && size(Candidate(title, body, build, n)) <= MAX_PAYLOAD_BYTES
    && n <= Max(|title|, |body|)
    && forall m | n < m :: size(Candidate(title, body, build, m)) > MAX_PAYLOAD_BYTES
  }

  lemma CandidatesGrow<T(!new)>(title: Text, body: Text, build: (Text, Text) -> T, size: T -> nat, m: nat, n: nat)
    requires Grows(build, size) && m <= n
    ensures size(Candidate(title, body, build, m)) <= size(Candidate(title, body, build, n))
  {
    assert Cut(title, m) <= Cut(title, n) && Cut(body, m) <= Cut(body, n);
  }

  /**
   boundedPushPayload. None is the RangeError, thrown exactly when not even the empty texts fit.
   The result always fits; it is the full payload if that fits, and otherwise, for a builder
   whose size grows, the one of the largest common prefix length.
   */
  method BoundedPushPayload<T(!new)>(title: Text, body: Text, build: (Text, Text) -> T, size: T -> nat)
    returns (payload: Option<T>, ghost length: nat)
    ensures payload.None? <==> size(build([], [])) > MAX_PAYLOAD_BYTES
    ensures payload.Some? ==> size(payload.value) <= MAX_PAYLOAD_BYTES
    ensures payload.Some? ==> payload.value == Candidate(title, body, build, length)
    ensures payload.Some? && size(build(title, body)) <= MAX_PAYLOAD_BYTES ==> payload.value == build(title, body)
    ensures payload.Some? && size(build(title, body)) > MAX_PAYLOAD_BYTES && Grows(build, size) ==>
              Largest(title, body, build, size, length)
  {
    var empty := build([], []);
    if size(empty) > MAX_PAYLOAD_BYTES {
      return None, 0;
    }
    var full := build(title, body);
    assert Cut(title, Max(|title|, |body|)) == title && Cut(body, Max(|title|, |body|)) == body;
    if size(full) <= MAX_PAYLOAD_BYTES {
      return Some(full), Max(|title|, |body|);
    }
    var low: int, high: int := 0, Max(|title|, |body|);
    var result := empty;
    length := 0;
    ghost var top := high;
    assert Candidate(title, body, build, top) == full;
    while low <= high
      invariant 0 <= low <= high + 1 <= top + 1
      invariant length == (if low == 0 then 0 else low - 1)
      invariant result == Candidate(title, body, build, length) && size(result) <= MAX_PAYLOAD_BYTES
      invariant Grows(build, size) ==> forall m: nat | high < m ::
                size(Candidate(title, body, build, m)) > MAX_PAYLOAD_BYTES || m > top
    {
      var middle := (low + high) / 2;
      var candidate := build(Cut(title, middle), Cut(body, middle));
      if size(candidate) <= MAX_PAYLOAD_BYTES {
        result := candidate;
        low := middle + 1;
        length := middle;
      } else {
        if Grows(build, size) {
          forall m: nat | middle <= m
            ensures size(Candidate(title, body, build, m)) > MAX_PAYLOAD_BYTES
          {
            CandidatesGrow(title, body, build, size, middle, m);
          }
        }
        high := middle - 1;
      }
    }
    if Grows(build, size) {
      forall m: nat | length < m
        ensures size(Candidate(title, body, build, m)) > MAX_PAYLOAD_BYTES
      {
        if m > top {
          CandidatesGrow(title, body, build, size, top, m);
        }
      }
    }
    payload := Some(result);
  }

  // ---------------------------------------------------------------- the web payload

  /** Bytes of one code point inside a JSON string, in UTF-8; a lone surrogate is escaped. */
  function PointBytes(p: Point): nat {
    if p == 0x22 || p == 0x5C then 2
    else if p < 0x20 then (if p in {8, 9, 10, 12, 13} then 2 else 6)
    else if p < 0x80 then 1
    else if p < 0x800 then 2
    else if 0xD800 <= p < 0xE000 then 6
    else if p < 0x10000 then 3
    else 4
  }

  function TextBytes(text: Text): nat {
    if text == [] then 0 else TextBytes(text[..|text| - 1]) + PointBytes(text[|text| - 1])
  }

  // ---------------------------------------------------------------- the bytes behind the sizes

  /** The text of a lower-case hexadecimal digit. */
  function Hex(d: nat): nat
    requires d < 16
  {
    if d < 10 then 0x30 + d else 0x61 + d - 10
  }

  /** JSON's escape by number. */
  function Escape(p: Point): seq<nat>
    requires p < 0x10000
  {
    [0x5C, 0x75, Hex(p / 4096), Hex(p / 256 % 16), Hex(p / 16 % 16), Hex(p % 16)]
  }

  /** The bytes of one code point inside a JSON string: sections 7 of RFC 8259 and 3 of RFC 3629. */
  function JsonPoint(p: Point): seq<nat> {
    if p == 0x22 || p == 0x5C then [0x5C, p]
    else if p == 8 then [0x5C, 0x62]
    else if p == 9 then [0x5C, 0x74]
    else if p == 10 then [0x5C, 0x6E]
    else if p == 12 then [0x5C, 0x66]
    else if p == 13 then [0x5C, 0x72]
    else if p < 0x20 || 0xD800 <= p < 0xE000 then Escape(p)
    else if p < 0x80 then [p]
    else if p < 0x800 then [0xC0 + p / 64, 0x80 + p % 64]
    else if p < 0x10000 then [0xE0 + p / 4096, 0x80 + p / 64 % 64, 0x80 + p % 64]
    else [0xF0 + p / 262_144, 0x80 + p / 4096 % 64, 0x80 + p / 64 % 64, 0x80 + p % 64]
  }

  function JsonText(text: Text): seq<nat> {
    if text == [] then [] else JsonText(text[..|text| - 1]) + JsonPoint(text[|text| - 1])
  }

  /** The number that a UTF-8 sequence spells: none of its bytes is a quotation mark or a backslash. */
  predicate Spells(bytes: seq<nat>, p: Point) {
    match |bytes|
    case 1 => bytes[0] == p < 0x80
    case 2 => 0xC2 <= bytes[0] < 0xE0 && 0x80 <= bytes[1] < 0xC0 && (bytes[0] - 0xC0) * 64 + bytes[1] - 0x80 == p
    case 3 =>
      && 0xE0 <= bytes[0] < 0xF0 && 0x80 <= bytes[1] < 0xC0 && 0x80 <= bytes[2] < 0xC0
      && ((bytes[0] - 0xE0) * 64 + bytes[1] - 0x80) * 64 + bytes[2] - 0x80 == p
    case 4 =>
      && 0xF0 <= bytes[0] < 0xF5 && 0x80 <= bytes[1] < 0xC0 && 0x80 <= bytes[2] < 0xC0 && 0x80 <= bytes[3] < 0xC0
      && (((bytes[0] - 0xF0) * 64 + bytes[1] - 0x80) * 64 + bytes[2] - 0x80) * 64 + bytes[3] - 0x80 == p
    case _ => false
  }

  lemma TwoBytes(p: Point)
    requires 0x80 <= p < 0x800
    ensures Spells(JsonPoint(p), p)
  {
    assert p == p / 64 * 64 + p % 64;
  }

  lemma ThreeBytes(p: Point)
    requires 0x800 <= p < 0x10000 && !(0xD800 <= p < 0xE000)
    ensures Spells(JsonPoint(p), p)
  {
    assert p / 64 == p / 4096 * 64 + p / 64 % 64;
  }

  lemma FourBytes(p: Point)
    requires 0x10000 <= p < 0x110000
    ensures Spells(JsonPoint(p), p)
  {
    assert p / 4096 == p / 262_144 * 64 + p / 4096 % 64;
    assert p / 64 == p / 4096 * 64 + p / 64 % 64;
  }

  /** Every code point is either escaped or spelled in UTF-8, in as many bytes as its size says. */
  lemma PointTheorem(p: Point)
    requires p < 0x110000
    ensures |JsonPoint(p)| == PointBytes(p)
    ensures if p < 0x20 || p == 0x22 || p == 0x5C || 0xD800 <= p < 0xE000 then JsonPoint(p)[0] == 0x5C
            else Spells(JsonPoint(p), p)
  {
    if 0x80 <= p < 0x800 {
      TwoBytes(p);
    } else if 0x800 <= p < 0x10000 && !(0xD800 <= p < 0xE000) {
      ThreeBytes(p);
    } else if 0x10000 <= p {
      FourBytes(p);
    }
  }

  /** The size of a text is the length of its bytes. */
  lemma {:induction false} TextTheorem(text: Text)
    requires forall i | 0 <= i < |text| :: text[i] < 0x110000
    ensures |JsonText(text)| == TextBytes(text)
    decreases |text|
  {
    if text != [] {
      var n := |text| - 1;
      TextTheorem(text[..n]);
      PointTheorem(text[n]);
    }
  }

  // ---------------------------------------------------------------- payload sizes

  datatype WebPayload = WebPayload(title: Text, body: Text, url: Option<Text>)

  /** JSON.stringify of { title, body, url? }, in bytes. */
  function WebBytes(p: WebPayload): nat {
    |"{\"title\":\"\",\"body\":\"\"}"| + TextBytes(p.title) + TextBytes(p.body)
    + (if p.url.Some? && p.url.value != [] then |",\"url\":\"\""| + TextBytes(p.url.value) else 0)
  }

  function Ascii(s: string): (bytes: seq<nat>)
    ensures |bytes| == |s|
  {
    seq(|s|, i requires 0 <= i < |s| => s[i] as nat)
  }

  /** The bytes of JSON.stringify({ title, body, url? }). */
  function WebJson(p: WebPayload): seq<nat> {
    Ascii("{\"title\":\"") + JsonText(p.title) + Ascii("\",\"body\":\"") + JsonText(p.body) + Ascii("\"")
    + (match p.url
       case None => []
       case Some(url) => if url == [] then [] else Ascii(",\"url\":\"") + JsonText(url) + Ascii("\""))
    + Ascii("}")
  }

  predicate CodePoints(text: Text) {
    forall i | 0 <= i < |text| :: text[i] < 0x110000
  }

  /** The size of a payload is the length of its JSON in bytes. */
  lemma WebBytesTheorem(p: WebPayload)
    requires CodePoints(p.title) && CodePoints(p.body) && (p.url.Some? ==> CodePoints(p.url.value))
    ensures |WebJson(p)| == WebBytes(p)
  {
    TextTheorem(p.title);
    TextTheorem(p.body);
    if p.url.Some? {
      TextTheorem(p.url.value);
    }
  }

  function WebBuilder(url: Option<Text>): (Text, Text) -> WebPayload {
    (title, body) => WebPayload(title, body, url)
  }

  lemma {:induction false} PrefixIsShorter(a: Text, b: Text)
    requires a <= b
    ensures TextBytes(a) <= TextBytes(b)
    decreases |b|
  {
    if |a| < |b| {
      PrefixIsShorter(a, b[..|b| - 1]);
    } else {
      assert a == b;
    }
  }

  /** The web builder is one whose size grows, so its truncation is the largest that fits. */
  lemma WebPayloadGrows(url: Option<Text>)
    ensures Grows(WebBuilder(url), WebBytes)
  {
    forall t, t', b, b': Text | t <= t' && b <= b'
      ensures WebBytes(WebBuilder(url)(t, b)) <= WebBytes(WebBuilder(url)(t', b'))
    {
      PrefixIsShorter(t, t');
      PrefixIsShorter(b, b');
    }
  }

  /** The record check of encryptPayload: delimiter byte and authentication tag included. */
  predicate RecordAccepts(payloadBytes: nat) {
    payloadBytes + 1 + 16 <= 4096
  }

  /**
   For every title, body and url: the web payload is refused exactly when the url alone exceeds
   the limit, and otherwise what is sent passes the record check.
   */
  method WebPushText(title: Text, body: Text, url: Option<Text>) returns (payload: Option<WebPayload>)
    ensures payload.None? <==> url.Some? && url.value != [] && TextBytes(url.value) > 2969
    ensures payload.Some? ==> RecordAccepts(WebBytes(payload.value)) && payload.value.url == url
    ensures payload.Some? ==> payload.value.title <= title && payload.value.body <= body
    ensures payload.Some? && payload.value != WebPayload(title, body, url) ==>
              forall n | n > |payload.value.title| && n > |payload.value.body| ::
                WebBytes(WebPayload(Cut(title, n), Cut(body, n), url)) > MAX_PAYLOAD_BYTES
  {
    WebPayloadGrows(url);
    ghost var length;
    payload, length := BoundedPushPayload(title, body, WebBuilder(url), WebBytes);
    if payload.Some? {
      assert payload.value == WebBuilder(url)(Cut(title, length), Cut(body, length));
      forall n | n > length && WebBytes(WebBuilder(url)(title, body)) > MAX_PAYLOAD_BYTES
        ensures WebBytes(WebPayload(Cut(title, n), Cut(body, n), url)) > MAX_PAYLOAD_BYTES
      {
        assert Candidate(title, body, WebBuilder(url), n) == WebPayload(Cut(title, n), Cut(body, n), url);
      }
    }
  }
}
