/**
 The byte formats of sdk/python/ivory_client/codec.py: quant envelopes and unsigned transactions.

 Reading past the end behaves as in Python: an index or a fixed-width read raises, a slice is
 silently shorter. UTF-8 is a parameter that decoding inverts.
 */
module Codec {
  import opened Primitives

  // ----- Little-endian numbers

  function LittleEndian(n: nat, width: nat): (r: Bytes)
    ensures |r| == width
  {
    if width == 0 then [] else [n % 256] + LittleEndian(n / 256, width - 1)
  }

  function FromLittleEndian(bytes: Bytes): (r: nat) {
    if bytes == [] then 0 else bytes[0] + 256 * FromLittleEndian(bytes[1..])
  }

  lemma {:induction false} LittleEndianInvert(n: nat, width: nat)
    requires n < Pow256(width)
    ensures FromLittleEndian(LittleEndian(n, width)) == n
  {
    if width > 0 {
      LittleEndianInvert(n / 256, width - 1);
      assert LittleEndian(n, width)[1..] == LittleEndian(n / 256, width - 1);
    }
  }

  /** Byte `i` is the digit of weight 256^i: the first byte is the least significant. */
  lemma {:induction false} LittleEndianAt(n: nat, width: nat, i: nat)
    requires i < width
    ensures LittleEndian(n, width)[i] == n / Pow256(i) % 256
  {
    if i > 0 {
      LittleEndianAt(n / 256, width - 1, i - 1);
      DividedTwice(n, Pow256(i - 1));
    }
  }

  // ----- Failures

  datatype EncodeError = OutOfRange | NotEncodable

  datatype DecodeError = MissingMagic | Truncated | NotText | UnsupportedVersion | EmptyId

  datatype TextCodec = TextCodec(encode: string -> Option<Bytes>, decode: Bytes -> Option<string>) {
    ghost predicate Faithful() {
      forall s: string :: encode(s).Some? ==> decode(encode(s).value) == Some(s)
    }
  }

  datatype Envelope = Envelope(
    version: int,
    decisionId: string,
    schema: string,
    metrics: seq<(string, string)>,
    contentHash: Option<Bytes>,
    cid: Option<string>)

  const QUANT_MAGIC: Bytes := [73, 81, 78, 84]
  const QUANT_VERSION: int := 1

  // ----- Writing

  function Packed(n: int, width: nat): (r: Result<Bytes, EncodeError>) {
    if 0 <= n < Pow256(width) then Ok(LittleEndian(n, width)) else Err(OutOfRange)
  }

  function Joined(a: Result<Bytes, EncodeError>, b: Result<Bytes, EncodeError>): (r: Result<Bytes, EncodeError>) {
    if a.Err? then a else if b.Err? then b else Ok(a.value + b.value)
  }

  function WriteBytes(data: Bytes): (r: Result<Bytes, EncodeError>) {
    Joined(Packed(|data|, 8), Ok(data))
  }

  function WriteStr(c: TextCodec, s: string): (r: Result<Bytes, EncodeError>) {
    if c.encode(s).None? then Err(NotEncodable) else WriteBytes(c.encode(s).value)
  }

  function WriteOptionBytes(data: Option<Bytes>): (r: Bytes) {
    if data.None? then [0] else [1] + data.value
  }

  function WriteOptionStr(c: TextCodec, s: Option<string>): (r: Result<Bytes, EncodeError>) {
    if s.None? then Ok([0]) else Joined(Ok([1]), WriteStr(c, s.value))
  }

  function WritePairs(c: TextCodec, pairs: seq<(string, string)>): (r: Result<Bytes, EncodeError>) {
    if pairs == [] then Ok([])
    else
      var n := |pairs| - 1;
      Joined(WritePairs(c, pairs[..n]), Joined(WriteStr(c, pairs[n].0), WriteStr(c, pairs[n].1)))
  }

  /** The body after the magic: each part follows the parts before it. */
  function WriteBody(c: TextCodec, e: Envelope): (r: Result<Bytes, EncodeError>) {
    Joined(Packed(e.version, 2),
    Joined(WriteStr(c, e.decisionId),
    Joined(WriteStr(c, e.schema),
    Joined(Packed(|e.metrics|, 8),
    Joined(WritePairs(c, e.metrics),
    Joined(Ok(WriteOptionBytes(e.contentHash)), WriteOptionStr(c, e.cid)))))))
  }

  function Encode(c: TextCodec, e: Envelope): (r: Result<Bytes, EncodeError>) {
    Joined(Ok(QUANT_MAGIC), WriteBody(c, e))
  }

  // ----- Reading

  datatype Read<+T> = Got(value: T, rest: Bytes) | Fail(error: DecodeError)

  function Dropped(view: Bytes, n: nat): (r: Bytes) {
    if n <= |view| then view[n..] else []
  }

  function Taken(view: Bytes, n: nat): (r: Bytes) {
    if n <= |view| then view[..n] else view
  }

  function ReadNumber(view: Bytes, width: nat): (r: Read<nat>) {
    if |view| < width then Fail(Truncated) else Got(FromLittleEndian(view[..width]), view[width..])
  }

  function ReadStr(c: TextCodec, view: Bytes): (r: Read<string>) {
    match ReadNumber(view, 8)
    case Fail(e) => Fail(e)
    case Got(n, rest) =>
      match c.decode(Taken(rest, n))
      case None => Fail(NotText)
      case Some(s) => Got(s, Dropped(rest, n))
  }

  function ReadPair(c: TextCodec, view: Bytes): (r: Read<(string, string)>) {
    match ReadStr(c, view)
    case Fail(e) => Fail(e)
    case Got(a, rest) =>
      match ReadStr(c, rest)
      case Fail(e) => Fail(e)
      case Got(b, rest') => Got((a, b), rest')
  }

  function ReadPairs(c: TextCodec, view: Bytes, n: nat): (r: Read<seq<(string, string)>>) {
    if n == 0 then Got([], view)
    else
      match ReadPairs(c, view, n - 1)
      case Fail(e) => Fail(e)
      case Got(pairs, rest) =>
        match ReadPair(c, rest)
        case Fail(e) => Fail(e)
        case Got(p, rest') => Got(pairs + [p], rest')
  }

  function ReadHash(view: Bytes): (r: Read<Option<Bytes>>) {
    match ReadNumber(view, 1)
    case Fail(e) => Fail(e)
    case Got(flag, rest) => if flag == 1 then Got(Some(Taken(rest, 32)), Dropped(rest, 32)) else Got(None, rest)
  }

  function ReadCid(c: TextCodec, view: Bytes): (r: Read<Option<string>>) {
    match ReadNumber(view, 1)
    case Fail(e) => Fail(e)
    case Got(flag, rest) =>
      if flag != 1 then Got(None, rest)
      else
        match ReadStr(c, rest)
        case Fail(e) => Fail(e)
        case Got(s, rest') => Got(Some(s), rest')
  }

  function ReadMetrics(c: TextCodec, view: Bytes): (r: Read<seq<(string, string)>>) {
    match ReadNumber(view, 8)
    case Fail(e) => Fail(e)
    case Got(n, rest) => ReadPairs(c, rest, n)
  }

  /** All fields in order, before the final checks. */
  function ReadBody(c: TextCodec, view: Bytes): (r: Read<Envelope>) {
    match ReadNumber(view, 2)
    case Fail(e) => Fail(e)
    case Got(version, v1) =>
    match ReadStr(c, v1)
    case Fail(e) => Fail(e)
    case Got(decisionId, v2) =>
    match ReadStr(c, v2)
    case Fail(e) => Fail(e)
    case Got(schema, v3) =>
    match ReadMetrics(c, v3)
    case Fail(e) => Fail(e)
    case Got(metrics, v4) =>
    match ReadHash(v4)
    case Fail(e) => Fail(e)
    case Got(contentHash, v5) =>
    match ReadCid(c, v5)
    case Fail(e) => Fail(e)
    case Got(cid, v6) => Got(Envelope(version, decisionId, schema, metrics, contentHash, cid), v6)
  }

  function Checked(e: Envelope): (r: Result<Envelope, DecodeError>) {
    if e.version != QUANT_VERSION then Err(UnsupportedVersion)
    else if e.decisionId == "" then Err(EmptyId)
    else Ok(e)
  }

  /** What a byte string means as an envelope. */
  function Decode(c: TextCodec, data: Bytes): (r: Result<Envelope, DecodeError>) {
    if Taken(data, 4) != QUANT_MAGIC then Err(MissingMagic)
    else
      match ReadBody(c, data[4..])
      case Fail(e) => Err(e)
      case Got(e, _) => Checked(e)
  }

  // ----- Reading back what was written

  lemma NumberReadBack(n: int, width: nat, tail: Bytes)
    requires 0 <= n < Pow256(width)
    ensures ReadNumber(LittleEndian(n, width) + tail, width) == Got(n, tail)
  {
    var bytes := LittleEndian(n, width);
    LittleEndianInvert(n, width);
    assert (bytes + tail)[..width] == bytes && (bytes + tail)[width..] == tail;
  }

  lemma StrReadBack(c: TextCodec, s: string, tail: Bytes)
    requires c.Faithful() && WriteStr(c, s).Ok?
    ensures ReadStr(c, WriteStr(c, s).value + tail) == Got(s, tail)
  {
    hide LittleEndian, Pow256, FromLittleEndian;
    var data := c.encode(s).value;
    var head := LittleEndian(|data|, 8);
    NumberReadBack(|data|, 8, data + tail);
    assert head + data + tail == head + (data + tail);
    assert (data + tail)[..|data|] == data && (data + tail)[|data|..] == tail;
  }

  lemma PairReadBack(c: TextCodec, p: (string, string), tail: Bytes)
    requires c.Faithful() && WriteStr(c, p.0).Ok? && WriteStr(c, p.1).Ok?
    ensures ReadPair(c, WriteStr(c, p.0).value + WriteStr(c, p.1).value + tail) == Got(p, tail)
  {
    hide WriteStr, ReadStr;
    var a, b := WriteStr(c, p.0).value, WriteStr(c, p.1).value;
    assert a + b + tail == a + (b + tail);
    StrReadBack(c, p.0, b + tail);
    StrReadBack(c, p.1, tail);
  }

  lemma {:induction false} PairsReadBack(c: TextCodec, pairs: seq<(string, string)>, tail: Bytes)
    requires c.Faithful() && WritePairs(c, pairs).Ok?
    ensures ReadPairs(c, WritePairs(c, pairs).value + tail, |pairs|) == Got(pairs, tail)
    decreases |pairs|
  {
    hide WriteStr, ReadStr, ReadPair;
    if pairs == [] {
      assert [] + tail == tail;
    } else {
      var n := |pairs| - 1;
      var front, a, b := WritePairs(c, pairs[..n]).value, WriteStr(c, pairs[n].0).value, WriteStr(c, pairs[n].1).value;
      assert front + (a + b) + tail == front + (a + b + tail);
      PairsReadBack(c, pairs[..n], a + b + tail);
      PairReadBack(c, pairs[n], tail);
      assert pairs == pairs[..n] + [pairs[n]];
    }
  }

  lemma MetricsReadBack(c: TextCodec, pairs: seq<(string, string)>, tail: Bytes)
    requires c.Faithful() && Packed(|pairs|, 8).Ok? && WritePairs(c, pairs).Ok?
    ensures ReadMetrics(c, Packed(|pairs|, 8).value + (WritePairs(c, pairs).value + tail)) == Got(pairs, tail)
  {
    hide WritePairs, ReadPairs, LittleEndian, Pow256, FromLittleEndian;
    NumberReadBack(|pairs|, 8, WritePairs(c, pairs).value + tail);
    PairsReadBack(c, pairs, tail);
  }

  /** A 32-byte hash or none comes back; a hash of any other length does not, whatever follows it. */
  lemma HashReadBack(hash: Option<Bytes>, tail: Bytes)
    requires tail != []
    ensures hash.None? || |hash.value| == 32 ==> ReadHash(WriteOptionBytes(hash) + tail) == Got(hash, tail)
    ensures hash.Some? && |hash.value| != 32 ==>
              var r := ReadHash(WriteOptionBytes(hash) + tail);
              r.Got? && r.value != hash
  {
    var view := WriteOptionBytes(hash) + tail;
    assert FromLittleEndian(view[..1]) == view[0] by { assert view[..1][1..] == []; }
    if hash.None? {
      assert view[1..] == tail;
    } else {
      var h := hash.value;
      assert view[1..] == h + tail;
      if |h| == 32 {
        assert (h + tail)[..32] == h && (h + tail)[32..] == tail;
      } else {
        assert |Taken(h + tail, 32)| != |h|;
      }
    }
  }

  lemma CidReadBack(c: TextCodec, cid: Option<string>, tail: Bytes)
    requires c.Faithful() && WriteOptionStr(c, cid).Ok?
    ensures ReadCid(c, WriteOptionStr(c, cid).value + tail) == Got(cid, tail)
    ensures WriteOptionStr(c, cid).value != []
  {
    hide ReadStr, WriteStr;
    var view := WriteOptionStr(c, cid).value + tail;
    assert FromLittleEndian(view[..1]) == view[0] by { assert view[..1][1..] == []; }
    if cid.None? {
      assert view[1..] == tail;
    } else {
      StrReadBack(c, cid.value, tail);
      assert view[1..] == WriteStr(c, cid.value).value + tail;
    }
  }

  ghost predicate HashFits(e: Envelope) {
    e.contentHash.None? || |e.contentHash.value| == 32
  }

  /** What `ReadBody` makes of a written body, followed by anything. */
  lemma BodyReadBack(c: TextCodec, e: Envelope, tail: Bytes)
    requires c.Faithful() && WriteBody(c, e).Ok?
    ensures var r := ReadBody(c, WriteBody(c, e).value + tail);
            && (HashFits(e) ==> r == Got(e, tail))
            && (!HashFits(e) ==> r.Fail? || r.value.contentHash != e.contentHash)
  {
    hide WriteStr, ReadStr, WritePairs, ReadMetrics, ReadHash;
    hide ReadCid, ReadNumber, WriteOptionBytes, WriteOptionStr, LittleEndian, Pow256;
    var version, id, schema := Packed(e.version, 2).value, WriteStr(c, e.decisionId).value, WriteStr(c, e.schema).value;
    var count, pairs := Packed(|e.metrics|, 8).value, WritePairs(c, e.metrics).value;
    var hash, cid := WriteOptionBytes(e.contentHash), WriteOptionStr(c, e.cid).value;
    Regroup(version, id, schema, count, pairs, hash, cid, tail);
    NumberReadBack(e.version, 2, id + (schema + (count + (pairs + (hash + (cid + tail))))));
    StrReadBack(c, e.decisionId, schema + (count + (pairs + (hash + (cid + tail)))));
    StrReadBack(c, e.schema, count + (pairs + (hash + (cid + tail))));
    MetricsReadBack(c, e.metrics, hash + (cid + tail));
    CidReadBack(c, e.cid, tail);
    HashReadBack(e.contentHash, cid + tail);
  }

  lemma Regroup(a: Bytes, b: Bytes, c: Bytes, d: Bytes, e: Bytes, f: Bytes, g: Bytes, tail: Bytes)
    ensures a + (b + (c + (d + (e + (f + g))))) + tail == a + (b + (c + (d + (e + (f + (g + tail))))))
  {
    assert f + g + tail == f + (g + tail);
    assert e + (f + g) + tail == e + (f + g + tail);
    assert d + (e + (f + g)) + tail == d + (e + (f + g) + tail);
    assert c + (d + (e + (f + g))) + tail == c + (d + (e + (f + g)) + tail);
    assert b + (c + (d + (e + (f + g)))) + tail == b + (c + (d + (e + (f + g))) + tail);
    assert a + (b + (c + (d + (e + (f + g))))) + tail == a + (b + (c + (d + (e + (f + g)))) + tail);
  }

  /**
   An envelope survives encoding and decoding exactly when it has version 1, a non-empty id,
   and no content hash or one of 32 bytes. Bytes after the envelope are ignored.
   */
  lemma RoundTrip(c: TextCodec, e: Envelope, tail: Bytes)
    requires c.Faithful() && Encode(c, e).Ok?
    ensures Decode(c, Encode(c, e).value + tail) == Ok(e) <==>
              e.version == QUANT_VERSION && e.decisionId != "" && HashFits(e)
  {
    hide WriteBody, ReadBody;
    var body := WriteBody(c, e).value;
    var data := QUANT_MAGIC + body + tail;
    assert data[..4] == QUANT_MAGIC && data[4..] == body + tail;
    BodyReadBack(c, e, tail);
  }

  /** No two valid envelopes share an encoding. */
  lemma EncodingUnambiguous(c: TextCodec, e: Envelope, f: Envelope)
    requires c.Faithful() && Encode(c, e).Ok? && Encode(c, e) == Encode(c, f)
    requires e.version == QUANT_VERSION && e.decisionId != "" && HashFits(e)
    requires f.version == QUANT_VERSION && f.decisionId != "" && HashFits(f)
    ensures e == f
  {
    hide Encode, Decode;
    RoundTrip(c, e, []);
    RoundTrip(c, f, []);
  }

  // ----- The encoder and the decoder

  method EncodeEnvelope(c: TextCodec, e: Envelope) returns (r: Result<Bytes, EncodeError>)
    ensures r == Encode(c, e)
  {
    hide WriteStr, LittleEndian, Pow256, WriteOptionBytes, WriteOptionStr;
    var body := Joined(Packed(e.version, 2), Joined(WriteStr(c, e.decisionId), WriteStr(c, e.schema)));
    body := Joined(body, Packed(|e.metrics|, 8));
    ghost var before := body;
    if before.Ok? {
      assert before.value + [] == before.value;
    }
    for i := 0 to |e.metrics|
      invariant body == Joined(before, WritePairs(c, e.metrics[..i]))
    {
      body := Joined(body, Joined(WriteStr(c, e.metrics[i].0), WriteStr(c, e.metrics[i].1)));
      assert e.metrics[..i + 1][..i] == e.metrics[..i];
      JoinedAssoc(before, WritePairs(c, e.metrics[..i]),
                  Joined(WriteStr(c, e.metrics[i].0), WriteStr(c, e.metrics[i].1)));
    }
    assert e.metrics[..|e.metrics|] == e.metrics;
    body := Joined(body, Ok(WriteOptionBytes(e.contentHash)));
    body := Joined(body, WriteOptionStr(c, e.cid));
    LinedUp(Packed(e.version, 2), WriteStr(c, e.decisionId), WriteStr(c, e.schema), Packed(|e.metrics|, 8),
            WritePairs(c, e.metrics), Ok(WriteOptionBytes(e.contentHash)), WriteOptionStr(c, e.cid));
    return Joined(Ok(QUANT_MAGIC), body);
  }

  lemma JoinedAssoc(a: Result<Bytes, EncodeError>, b: Result<Bytes, EncodeError>, d: Result<Bytes, EncodeError>)
    ensures Joined(Joined(a, b), d) == Joined(a, Joined(b, d))
  {
    if a.Ok? && b.Ok? && d.Ok? {
      assert a.value + b.value + d.value == a.value + (b.value + d.value);
    }
  }

  lemma LinedUp(a: Result<Bytes, EncodeError>, b: Result<Bytes, EncodeError>, d: Result<Bytes, EncodeError>,
                n: Result<Bytes, EncodeError>, p: Result<Bytes, EncodeError>, h: Result<Bytes, EncodeError>,
                i: Result<Bytes, EncodeError>)
    ensures Joined(Joined(Joined(Joined(Joined(a, Joined(b, d)), n), p), h), i) ==
            Joined(a, Joined(b, Joined(d, Joined(n, Joined(p, Joined(h, i))))))
  {
    hide Joined;
    JoinedAssoc(a, Joined(b, d), n);
    JoinedAssoc(a, Joined(Joined(b, d), n), p);
    JoinedAssoc(a, Joined(Joined(Joined(b, d), n), p), h);
    JoinedAssoc(a, Joined(Joined(Joined(Joined(b, d), n), p), h), i);
    JoinedAssoc(b, d, n);
    JoinedAssoc(b, Joined(d, n), p);
    JoinedAssoc(b, Joined(Joined(d, n), p), h);
    JoinedAssoc(b, Joined(Joined(Joined(d, n), p), h), i);
    JoinedAssoc(d, n, p);
    JoinedAssoc(d, Joined(n, p), h);
    JoinedAssoc(d, Joined(Joined(n, p), h), i);
    JoinedAssoc(n, p, h);
    JoinedAssoc(n, Joined(p, h), i);
    JoinedAssoc(p, h, i);
  }

  /** The moving view that the nested readers share. */
  class Reader {
    const text: TextCodec
    var view: Bytes

    constructor (text: TextCodec, view: Bytes)
      ensures this.text == text && this.view == view
    {
      this.text, this.view := text, view;
    }

    method TakeNumber(width: nat) returns (r: Result<nat, DecodeError>)
      modifies this
      ensures match ReadNumber(old(view), width)
              case Got(n, rest) => r == Ok(n) && view == rest
              case Fail(e) => r == Err(e) && view == old(view)
    {
      if |view| < width {
        return Err(Truncated);
      }
      r := Ok(FromLittleEndian(view[..width]));
      view := view[width..];
    }

    method TakeStr() returns (r: Result<string, DecodeError>)
      modifies this
      ensures match ReadStr(text, old(view))
              case Got(s, rest) => r == Ok(s) && view == rest
              case Fail(e) => r == Err(e)
    {
      hide ReadNumber;
      var n := TakeNumber(8);
      if n.Err? {
        return Err(n.error);
      }
      var s := text.decode(Taken(view, n.value));
      if s.None? {
        return Err(NotText);
      }
      view := Dropped(view, n.value);
      return Ok(s.value);
    }

    method TakePairs(n: nat) returns (r: Result<seq<(string, string)>, DecodeError>)
      modifies this
      ensures match ReadPairs(text, old(view), n)
              case Got(pairs, rest) => r == Ok(pairs) && view == rest
              case Fail(e) => r == Err(e)
    {
      hide ReadStr;
      var pairs := [];
      ghost var start := view;
      for i := 0 to n
        invariant ReadPairs(text, start, i) == Got(pairs, view)
      {
        var a := TakeStr();
        if a.Err? {
          PairsFail(text, start, i + 1, n, a.error);
          return Err(a.error);
        }
        var b := TakeStr();
        if b.Err? {
          PairsFail(text, start, i + 1, n, b.error);
          return Err(b.error);
        }
        pairs := pairs + [(a.value, b.value)];
      }
      return Ok(pairs);
    }

    method TakeHash() returns (r: Result<Option<Bytes>, DecodeError>)
      modifies this
      ensures match ReadHash(old(view))
              case Got(h, rest) => r == Ok(h) && view == rest
              case Fail(e) => r == Err(e)
    {
      hide ReadNumber;
      var flag := TakeNumber(1);
      if flag.Err? {
        return Err(flag.error);
      }
      if flag.value != 1 {
        return Ok(None);
      }
      r := Ok(Some(Taken(view, 32)));
      view := Dropped(view, 32);
    }

    method TakeCid() returns (r: Result<Option<string>, DecodeError>)
      modifies this
      ensures match ReadCid(text, old(view))
              case Got(s, rest) => r == Ok(s) && view == rest
              case Fail(e) => r == Err(e)
    {
      hide ReadNumber, ReadStr;
      var flag := TakeNumber(1);
      if flag.Err? {
        return Err(flag.error);
      }
      if flag.value != 1 {
        return Ok(None);
      }
      var s := TakeStr();
      return if s.Err? then Err(s.error) else Ok(Some(s.value));
    }
  }

  lemma {:induction false} PairsFail(c: TextCodec, view: Bytes, m: nat, n: nat, e: DecodeError)
    requires m <= n && ReadPairs(c, view, m) == Fail(e)
    ensures ReadPairs(c, view, n) == Fail(e)
  {
    if m < n {
      PairsFail(c, view, m, n - 1, e);
    }
  }

  /** Decoding as the source does it, with one view that every read shortens. */
  method DecodeEnvelope(c: TextCodec, data: Bytes) returns (r: Result<Envelope, DecodeError>)
    ensures r == Decode(c, data)
  {
    hide ReadNumber, ReadStr, ReadPairs, ReadHash, ReadCid;
    if Taken(data, 4) != QUANT_MAGIC {
      return Err(MissingMagic);
    }
    var reader := new Reader(c, data[4..]);
    var version := reader.TakeNumber(2);
    if version.Err? {
      return Err(version.error);
    }
    var decisionId := reader.TakeStr();
    if decisionId.Err? {
      return Err(decisionId.error);
    }
    var schema := reader.TakeStr();
    if schema.Err? {
      return Err(schema.error);
    }
    var count := reader.TakeNumber(8);
    if count.Err? {
      return Err(count.error);
    }
    var metrics := reader.TakePairs(count.value);
    if metrics.Err? {
      return Err(metrics.error);
    }
    var contentHash := reader.TakeHash();
    if contentHash.Err? {
      return Err(contentHash.error);
    }
    var cid := reader.TakeCid();
    if cid.Err? {
      return Err(cid.error);
    }
    if version.value != QUANT_VERSION {
      return Err(UnsupportedVersion);
    }
    if decisionId.value == "" {
      return Err(EmptyId);
    }
    return Ok(Envelope(version.value, decisionId.value, schema.value, metrics.value, contentHash.value, cid.value));
  }

  // ----- Unsigned transactions

  datatype UnsignedTx = UnsignedTx(
    sender: Bytes,
    to: Option<Bytes>,
    value: int,
    data: Bytes,
    gasPrice: int,
    gas: int,
    nonce: int)

  /** `int.to_bytes(32, "big")`, which refuses negative numbers and numbers that do not fit. */
  function WordBytes(n: int): (r: Result<Bytes, EncodeError>) {
    if 0 <= n < TWO_256 then Ok(BigEndian(n, 32)) else Err(OutOfRange)
  }

  function EncodeTx(tx: UnsignedTx): (r: Result<Bytes, EncodeError>) {
    Joined(Ok(tx.sender),
    Joined(Ok(WriteOptionBytes(tx.to)),
    Joined(WordBytes(tx.value),
    Joined(WriteBytes(tx.data),
    Joined(WordBytes(tx.gasPrice),
    Joined(Packed(tx.gas, 8), Packed(tx.nonce, 8)))))))
  }

  lemma SplitAt(a: Bytes, x: Bytes, b: Bytes, y: Bytes)
    requires a + x == b + y && |a| == |b|
    ensures a == b && x == y
  {
    assert (a + x)[..|a|] == a && (b + y)[..|b|] == b;
    assert (a + x)[|a|..] == x && (b + y)[|b|..] == y;
  }

  lemma OptionSplit(a: Option<Bytes>, x: Bytes, b: Option<Bytes>, y: Bytes)
    requires WriteOptionBytes(a) + x == WriteOptionBytes(b) + y
    requires a.Some? && b.Some? ==> |a.value| == |b.value|
    ensures a == b && x == y
  {
    var s, t := WriteOptionBytes(a), WriteOptionBytes(b);
    assert (s + x)[0] == s[0] && (t + y)[0] == t[0];
    SplitAt(s, x, t, y);
    if a.Some? {
      assert s[1..] == a.value && t[1..] == b.value;
    }
  }

  lemma WordSplit(m: int, x: Bytes, n: int, y: Bytes)
    requires WordBytes(m).Ok? && WordBytes(n).Ok? && WordBytes(m).value + x == WordBytes(n).value + y
    ensures m == n && x == y
  {
    hide BigEndian, FromBigEndian;
    SplitAt(WordBytes(m).value, x, WordBytes(n).value, y);
    WordBytesInvert(m);
    WordBytesInvert(n);
  }

  lemma NumberSplit(m: int, x: Bytes, n: int, y: Bytes)
    requires Packed(m, 8).Ok? && Packed(n, 8).Ok? && Packed(m, 8).value + x == Packed(n, 8).value + y
    ensures m == n && x == y
  {
    hide LittleEndian, FromLittleEndian, Pow256;
    SplitAt(Packed(m, 8).value, x, Packed(n, 8).value, y);
    LittleEndianInvert(m, 8);
    LittleEndianInvert(n, 8);
  }

  lemma DataSplit(a: Bytes, x: Bytes, b: Bytes, y: Bytes)
    requires WriteBytes(a).Ok? && WriteBytes(b).Ok? && WriteBytes(a).value + x == WriteBytes(b).value + y
    ensures a == b && x == y
  {
    hide LittleEndian, Pow256;
    var p, q := Packed(|a|, 8).value, Packed(|b|, 8).value;
    assert p + a + x == p + (a + x) && q + b + y == q + (b + y);
    NumberSplit(|a|, a + x, |b|, b + y);
    SplitAt(a, x, b, y);
  }

  /**
   Two transactions with sender addresses of one length and recipients of one length share an
   encoding only if they are equal: the encoding, and so the signing hash, commits to every field.
   */
  lemma TxUnambiguous(s: UnsignedTx, t: UnsignedTx)
    requires EncodeTx(s).Ok? && EncodeTx(s) == EncodeTx(t)
    requires |s.sender| == |t.sender| && (s.to.Some? && t.to.Some? ==> |s.to.value| == |t.to.value|)
    ensures s == t
  {
    hide WordBytes, WriteBytes, Packed, WriteOptionBytes, LittleEndian, BigEndian;
    var s6, t6 := Packed(s.gas, 8).value + Packed(s.nonce, 8).value, Packed(t.gas, 8).value + Packed(t.nonce, 8).value;
    var s5, t5 := WordBytes(s.gasPrice).value + s6, WordBytes(t.gasPrice).value + t6;
    var s4, t4 := WriteBytes(s.data).value + s5, WriteBytes(t.data).value + t5;
    var s3, t3 := WordBytes(s.value).value + s4, WordBytes(t.value).value + t4;
    SplitAt(s.sender, WriteOptionBytes(s.to) + s3, t.sender, WriteOptionBytes(t.to) + t3);
    OptionSplit(s.to, s3, t.to, t3);
    WordSplit(s.value, s4, t.value, t4);
    DataSplit(s.data, s5, t.data, t5);
    WordSplit(s.gasPrice, s6, t.gasPrice, t6);
    NumberSplit(s.gas, Packed(s.nonce, 8).value, t.gas, Packed(t.nonce, 8).value);
    assert Packed(s.nonce, 8).value + [] == Packed(s.nonce, 8).value
      && Packed(t.nonce, 8).value + [] == Packed(t.nonce, 8).value;
    NumberSplit(s.nonce, [], t.nonce, []);
  }

  // ----- Where each field lies

  /** `part` lies in `b` at offset `i`. */
  ghost predicate Lies(b: Bytes, i: nat, part: Bytes) {
    i + |part| <= |b| && b[i..i + |part|] == part
  }

  lemma LiesAfter(x: Bytes, rest: Bytes, i: nat, part: Bytes)
    requires Lies(rest, i, part)
    ensures Lies(x + rest, |x| + i, part)
  {
    assert (x + rest)[|x| + i..|x| + i + |part|] == rest[i..i + |part|];
  }

  lemma LiesFirst(x: Bytes, rest: Bytes)
    ensures Lies(x + rest, 0, x)
  {
  }

  /** The last five fields, from the value on. */
  ghost predicate TxTail(tx: UnsignedTx, b: Bytes, i: nat) {
    && tx.value >= 0 && tx.gasPrice >= 0 && tx.gas >= 0 && tx.nonce >= 0
    && Lies(b, i, BigEndian(tx.value, 32))
    && Lies(b, i + 32, LittleEndian(|tx.data|, 8)) && Lies(b, i + 40, tx.data)
    && Lies(b, i + 40 + |tx.data|, BigEndian(tx.gasPrice, 32))
    && Lies(b, i + 72 + |tx.data|, LittleEndian(tx.gas, 8))
    && Lies(b, i + 80 + |tx.data|, LittleEndian(tx.nonce, 8))
    && |b| == i + 88 + |tx.data|
  }

  lemma TailShifts(tx: UnsignedTx, x: Bytes, rest: Bytes, i: nat)
    requires TxTail(tx, rest, i)
    ensures TxTail(tx, x + rest, |x| + i)
  {
    hide BigEndian, LittleEndian, Lies;
    LiesAfter(x, rest, i, BigEndian(tx.value, 32));
    LiesAfter(x, rest, i + 32, LittleEndian(|tx.data|, 8));
    LiesAfter(x, rest, i + 40, tx.data);
    LiesAfter(x, rest, i + 40 + |tx.data|, BigEndian(tx.gasPrice, 32));
    LiesAfter(x, rest, i + 72 + |tx.data|, LittleEndian(tx.gas, 8));
    LiesAfter(x, rest, i + 80 + |tx.data|, LittleEndian(tx.nonce, 8));
  }

  lemma TailLies(tx: UnsignedTx, b: Bytes)
    requires tx.value >= 0 && tx.gasPrice >= 0 && tx.gas >= 0 && tx.nonce >= 0
    requires b == BigEndian(tx.value, 32) + (LittleEndian(|tx.data|, 8) + tx.data
                  + (BigEndian(tx.gasPrice, 32) + (LittleEndian(tx.gas, 8) + LittleEndian(tx.nonce, 8))))
    ensures TxTail(tx, b, 0)
  {
    hide BigEndian, LittleEndian;
    var d := |tx.data|;
    assert b[0..32] == BigEndian(tx.value, 32);
    assert b[32..40] == LittleEndian(d, 8);
    assert b[40..40 + d] == tx.data;
    assert b[40 + d..72 + d] == BigEndian(tx.gasPrice, 32);
    assert b[72 + d..80 + d] == LittleEndian(tx.gas, 8);
    assert b[80 + d..88 + d] == LittleEndian(tx.nonce, 8);
  }

  /**
   Field by field, where the encoding puts what: the sender, a recipient flag and the recipient,
   then value, data and gas price, gas and nonce; and when there is an encoding at all.
   */
  lemma TxLayout(tx: UnsignedTx)
    ensures EncodeTx(tx).Ok? <==>
            && 0 <= tx.value < TWO_256 && 0 <= tx.gasPrice < TWO_256
            && |tx.data| < TWO_64 && 0 <= tx.gas < TWO_64 && 0 <= tx.nonce < TWO_64
    ensures EncodeTx(tx).Ok? ==>
              var b, s := EncodeTx(tx).value, |tx.sender|;
              && Lies(b, 0, tx.sender) && s < |b| && b[s] == (if tx.to.Some? then 1 else 0)
              && (tx.to.Some? ==> Lies(b, s + 1, tx.to.value))
              && TxTail(tx, b, if tx.to.Some? then s + 1 + |tx.to.value| else s + 1)
  {
    hide BigEndian, LittleEndian, TxTail, Lies;
    EightBytes();
    if EncodeTx(tx).Ok? {
      var tail := WordBytes(tx.value).value + (WriteBytes(tx.data).value + (WordBytes(tx.gasPrice).value
                       + (Packed(tx.gas, 8).value + Packed(tx.nonce, 8).value)));
      TailLies(tx, tail);
      var flagged := WriteOptionBytes(tx.to);
      TailShifts(tx, flagged, tail, 0);
      TailShifts(tx, tx.sender, flagged + tail, |flagged|);
      LiesFirst(tx.sender, flagged + tail);
      assert (tx.sender + (flagged + tail))[|tx.sender|] == flagged[0];
      if tx.to.Some? {
        OptionLies(tx.to.value, tail);
        LiesAfter(tx.sender, flagged + tail, 1, tx.to.value);
      }
    }
  }

  lemma OptionLies(to: Bytes, tail: Bytes)
    ensures Lies([1] + to + tail, 1, to)
  {
    assert ([1] + to + tail)[1..1 + |to|] == to;
  }

  /** A length in eight bytes, then that many bytes. */
  ghost predicate Prefixed(b: Bytes, i: nat, part: Bytes) {
    Lies(b, i, LittleEndian(|part|, 8)) && Lies(b, i + 8, part)
  }

  /** The name and value of every metric, one after the other from `start` to `end`. */
  ghost predicate PairsLie(c: TextCodec, pairs: seq<(string, string)>, b: Bytes, start: nat, end: nat)
    decreases |pairs|
  {
    if |pairs| == 0 then start == end
    else
      var (name, value) := pairs[|pairs| - 1];
      && c.encode(name).Some? && c.encode(value).Some?
      && var x, y := c.encode(name).value, c.encode(value).value;
      && var at := end - 16 - |x| - |y|;
      && at >= 0 && Prefixed(b, at, x) && Prefixed(b, at + 8 + |x|, y)
      && PairsLie(c, pairs[..|pairs| - 1], b, start, at)
  }

  /** An optional content hash, unprefixed, and an optional identifier, up to the end. */
  ghost predicate OptionsLie(c: TextCodec, e: Envelope, b: Bytes, i: nat) {
    && i < |b| && b[i] == (if e.contentHash.Some? then 1 else 0)
    && (e.contentHash.Some? ==> Lies(b, i + 1, e.contentHash.value))
    && var j := if e.contentHash.Some? then i + 1 + |e.contentHash.value| else i + 1;
    && j < |b| && b[j] == (if e.cid.Some? then 1 else 0)
    && (e.cid.None? ==> |b| == j + 1)
    && (e.cid.Some? ==> c.encode(e.cid.value).Some?
                        && Prefixed(b, j + 1, c.encode(e.cid.value).value)
                        && |b| == j + 9 + |c.encode(e.cid.value).value|)
  }

  lemma LiesWithin(x: Bytes, host: Bytes, tail: Bytes, i: nat, part: Bytes)
    requires Lies(host, i, part)
    ensures Lies(x + host + tail, |x| + i, part)
  {
    assert (x + host + tail)[|x| + i..|x| + i + |part|] == host[i..i + |part|];
  }

  lemma PrefixedWithin(x: Bytes, host: Bytes, tail: Bytes, i: nat, part: Bytes)
    requires Prefixed(host, i, part)
    ensures Prefixed(x + host + tail, |x| + i, part)
  {
    hide Lies, LittleEndian;
    LiesWithin(x, host, tail, i, LittleEndian(|part|, 8));
    LiesWithin(x, host, tail, i + 8, part);
  }

  lemma {:induction false} PairsWithin(c: TextCodec, pairs: seq<(string, string)>, x: Bytes, host: Bytes, tail: Bytes,
                                       start: nat, end: nat)
    requires PairsLie(c, pairs, host, start, end)
    ensures PairsLie(c, pairs, x + host + tail, |x| + start, |x| + end)
    decreases |pairs|
  {
    hide Prefixed;
    if |pairs| > 0 {
      var (name, value) := pairs[|pairs| - 1];
      var a, b := c.encode(name).value, c.encode(value).value;
      var at := end - 16 - |a| - |b|;
      PrefixedWithin(x, host, tail, at, a);
      PrefixedWithin(x, host, tail, at + 8 + |a|, b);
      PairsWithin(c, pairs[..|pairs| - 1], x, host, tail, start, at);
    }
  }

  lemma StrLies(c: TextCodec, s: string)
    requires WriteStr(c, s).Ok?
    ensures c.encode(s).Some? && |WriteStr(c, s).value| == 8 + |c.encode(s).value|
    ensures Prefixed(WriteStr(c, s).value, 0, c.encode(s).value)
  {
    hide LittleEndian;
    var b, part := WriteStr(c, s).value, c.encode(s).value;
    assert b[0..8] == LittleEndian(|part|, 8) && b[8..8 + |part|] == part;
  }

  lemma {:induction false} PairsWritten(c: TextCodec, pairs: seq<(string, string)>)
    requires WritePairs(c, pairs).Ok?
    ensures PairsLie(c, pairs, WritePairs(c, pairs).value, 0, |WritePairs(c, pairs).value|)
    decreases |pairs|
  {
    hide WriteStr, Prefixed;
    if |pairs| > 0 {
      var (name, value) := pairs[|pairs| - 1];
      var front := WritePairs(c, pairs[..|pairs| - 1]).value;
      var x, y := WriteStr(c, name).value, WriteStr(c, value).value;
      PairsWritten(c, pairs[..|pairs| - 1]);
      PairsWithin(c, pairs[..|pairs| - 1], [], front, x + y, 0, |front|);
      assert [] + front + (x + y) == front + (x + y);
      StrLies(c, name);
      StrLies(c, value);
      PrefixedWithin(front, x, y, 0, c.encode(name).value);
      PrefixedWithin(front + x, y, [], 0, c.encode(value).value);
      assert front + x + y == front + (x + y) == front + x + y + [];
    }
  }

  lemma OptionsWritten(c: TextCodec, e: Envelope, x: Bytes)
    requires WriteOptionStr(c, e.cid).Ok?
    ensures OptionsLie(c, e, x + (WriteOptionBytes(e.contentHash) + WriteOptionStr(c, e.cid).value), |x|)
  {
    hide WriteStr, Prefixed;
    var h, o := WriteOptionBytes(e.contentHash), WriteOptionStr(c, e.cid).value;
    var b := x + (h + o);
    if e.contentHash.Some? {
      assert b[|x| + 1..|x| + 1 + |e.contentHash.value|] == e.contentHash.value;
    }
    if e.cid.Some? {
      StrLies(c, e.cid.value);
      PrefixedWithin(x + h + [1], WriteStr(c, e.cid.value).value, [], 0, c.encode(e.cid.value).value);
      assert b == x + h + [1] + WriteStr(c, e.cid.value).value + [];
    }
  }

  /** Field by field, where an encoded envelope holds what. */
  lemma EnvelopeLayout(c: TextCodec, e: Envelope)
    requires Encode(c, e).Ok?
    ensures var b := Encode(c, e).value;
            && b[..4] == [73, 81, 78, 84] && 0 <= e.version < 65536 && Lies(b, 4, LittleEndian(e.version, 2))
            && c.encode(e.decisionId).Some? && c.encode(e.schema).Some?
            && var d, s := c.encode(e.decisionId).value, c.encode(e.schema).value;
            && var i := 22 + |d| + |s|;
            && Prefixed(b, 6, d) && Prefixed(b, 14 + |d|, s) && Lies(b, i, LittleEndian(|e.metrics|, 8))
            && exists end: nat :: PairsLie(c, e.metrics, b, i + 8, end) && OptionsLie(c, e, b, end)
  {
    hide WriteStr, WritePairs, WriteOptionBytes, WriteOptionStr, LittleEndian, Lies, Prefixed, PairsLie, OptionsLie;
    var v, d, s := Packed(e.version, 2).value, WriteStr(c, e.decisionId).value, WriteStr(c, e.schema).value;
    var k, p := Packed(|e.metrics|, 8).value, WritePairs(c, e.metrics).value;
    var o := WriteOptionBytes(e.contentHash) + WriteOptionStr(c, e.cid).value;
    var b, x := Encode(c, e).value, QUANT_MAGIC;
    StrLies(c, e.decisionId);
    StrLies(c, e.schema);
    Spread(x, v, d, s, k, p, o);
    LiesFirst(v, []);
    LiesFirst(k, []);
    assert v + [] == v && k + [] == k;
    LiesWithin(x, v, d + s + k + p + o, 0, v);
    PrefixedWithin(x + v, d, s + k + p + o, 0, c.encode(e.decisionId).value);
    PrefixedWithin(x + v + d, s, k + p + o, 0, c.encode(e.schema).value);
    LiesWithin(x + v + d + s, k, p + o, 0, k);
    PairsWritten(c, e.metrics);
    PairsWithin(c, e.metrics, x + v + d + s + k, p, o, 0, |p|);
    OptionsWritten(c, e, x + v + d + s + k + p);
    assert b[..4] == x;
  }

  lemma Spread(x: Bytes, v: Bytes, d: Bytes, s: Bytes, k: Bytes, p: Bytes, o: Bytes)
    ensures var b := x + (v + (d + (s + (k + (p + o)))));
            && b == x + v + (d + s + k + p + o) && b == x + v + d + (s + k + p + o)
            && b == x + v + d + s + (k + p + o) && b == x + v + d + s + k + (p + o)
            && b == x + v + d + s + k + p + o
  {
  }

  // ----- Where the encoding is ambiguous

  function Zeros(n: nat): (r: Bytes)
    ensures |r| == n && forall i :: 0 <= i < n ==> r[i] == 0
  {
    seq(n, _ => 0)
  }

  /** The 48 bytes of a zero gas price, gas limit and nonce, which end both transactions of a collision. */
  function Ending(): (r: Bytes) {
    BigEndian(0, 32) + (LittleEndian(0, 8) + LittleEndian(0, 8))
  }

  /** At `m` the bytes read as a value, a data length, and data of just that length. */
  ghost predicate Parses(y: Bytes, m: nat) {
    && m + 40 <= |y| && |y| - m - 40 < TWO_64
    && y[m + 32..m + 40] == LittleEndian(|y| - m - 40, 8)
  }

  function ValueAt(y: Bytes, m: nat): (v: int)
    requires m + 32 <= |y|
  {
    FromBigEndian(y[m..m + 32])
  }

  lemma ParsedBytes(y: Bytes, m: nat)
    requires Parses(y, m)
    ensures WordBytes(ValueAt(y, m)) == Ok(y[m..m + 32])
    ensures WriteBytes(y[m + 40..]) == Ok(y[m + 32..])
  {
    hide BigEndian, FromBigEndian, LittleEndian, Pow256;
    var v := y[m..m + 32];
    BytesBound(v);
    WordWidth();
    BytesInvert(v);
    EightBytes();
    assert y[m + 32..] == y[m + 32..m + 40] + y[m + 40..];
  }

  lemma EightBytes()
    ensures Pow256(8) == TWO_64
  {
    assert Pow256(4) == 0x1_0000_0000;
  }

  /** The transaction that pays `y[..m]` and is read off `y`. */
  ghost function ToPrefix(sender: Bytes, y: Bytes, m: nat): UnsignedTx
    requires Parses(y, m)
  {
    UnsignedTx(sender, Some(y[..m]), ValueAt(y, m), y[m + 40..], 0, 0, 0)
  }

  lemma EncodeEnding(tx: UnsignedTx)
    requires tx.gasPrice == tx.gas == tx.nonce == 0 && WordBytes(tx.value).Ok? && WriteBytes(tx.data).Ok?
    ensures EncodeTx(tx) ==
            Ok(tx.sender +
               (WriteOptionBytes(tx.to) + (WordBytes(tx.value).value + (WriteBytes(tx.data).value + Ending()))))
  {
    hide WriteBytes, BigEndian, LittleEndian, WriteOptionBytes;
  }

  lemma ToPrefixEncodes(sender: Bytes, y: Bytes, m: nat)
    requires Parses(y, m)
    ensures EncodeTx(ToPrefix(sender, y, m)) == Ok(sender + ([1] + (y + Ending())))
  {
    hide WordBytes, WriteBytes, EncodeTx, Ending, LittleEndian, ValueAt;
    ParsedBytes(y, m);
    EncodeEnding(ToPrefix(sender, y, m));
    var to, value, rest, end := y[..m], y[m..m + 32], y[m + 32..], Ending();
    assert y == to + (value + rest);
    assert [1] + to + (value + (rest + end)) == [1] + (to + (value + rest) + end);
  }

  /** The transaction sent by `y[..m]`, without a recipient, read off `y`. */
  ghost function FromPrefix(y: Bytes, m: nat): UnsignedTx
    requires Parses(y, m + 1)
  {
    UnsignedTx(y[..m], None, ValueAt(y, m + 1), y[m + 41..], 0, 0, 0)
  }

  lemma FromPrefixEncodes(y: Bytes, m: nat)
    requires Parses(y, m + 1) && y[m] == 0
    ensures EncodeTx(FromPrefix(y, m)) == Ok(y + Ending())
  {
    hide WordBytes, WriteBytes, EncodeTx, Ending, LittleEndian, ValueAt;
    ParsedBytes(y, m + 1);
    EncodeEnding(FromPrefix(y, m));
    var sender, value, rest, end := y[..m], y[m + 1..m + 33], y[m + 33..], Ending();
    assert y == sender + ([0] + (value + rest));
    assert sender + ([0] + (value + (rest + end))) == sender + ([0] + (value + rest)) + end;
  }

  lemma {:induction false} ZeroDigits(n: nat, width: nat, i: nat)
    requires n < Pow256(i) && i <= width
    ensures forall j :: i <= j < width ==> LittleEndian(n, width)[j] == 0
    decreases width
  {
    if i == 0 {
      AllZero(width);
    } else {
      ZeroDigits(n / 256, width - 1, i - 1);
    }
  }

  lemma {:induction false} AllZero(width: nat)
    ensures LittleEndian(0, width) == Zeros(width)
  {
    if width > 0 {
      AllZero(width - 1);
    }
  }

  /** Bytes whose length field, read `d` places further on, reads as zero. */
  ghost function Overlap(n: nat, d: nat): (y: Bytes)
    requires d < TWO_64
  {
    Zeros(n + 32) + LittleEndian(d, 8) + Zeros(d)
  }

  /** The same bytes parse at `n` with `d` bytes of data and at `n + d` with none. */
  lemma OverlapParses(n: nat, d: nat)
    requires 0 < d < TWO_64
    ensures Parses(Overlap(n, d), n) && Parses(Overlap(n, d), n + d)
  {
    hide LittleEndian, Pow256;
    var y, length := Overlap(n, d), LittleEndian(d, 8);
    assert y[n + 32..n + 40] == length;
    AllZero(8);
    if d < 8 {
      assert d < Pow256(1) by { assert Pow256(1) == 256 by { OneByte(); } }
      ZeroDigits(d, 8, 1);
    }
    assert y[n + d + 32..n + d + 40] == Zeros(8);
  }

  lemma OneByte()
    ensures Pow256(1) == 256 && Pow256(2) == 65536
  {
  }

  /**
   Nothing delimits the recipient either: for every sender and every two recipient lengths less
   than 2^64 apart there are two different transactions with one encoding.
   */
  lemma RecipientsCollide(sender: Bytes, n: nat, d: nat) returns (s: UnsignedTx, t: UnsignedTx)
    requires 0 < d < TWO_64
    ensures s.sender == t.sender == sender && s.to.Some? && t.to.Some?
    ensures |s.to.value| == n && |t.to.value| == n + d
    ensures EncodeTx(s).Ok? && EncodeTx(s) == EncodeTx(t)
  {
    hide EncodeTx, Parses, Overlap;
    OverlapParses(n, d);
    ParsedSize(Overlap(n, d), n);
    ParsedSize(Overlap(n, d), n + d);
    var y := Overlap(n, d);
    s, t := ToPrefix(sender, y, n), ToPrefix(sender, y, n + d);
    ToPrefixEncodes(sender, y, n);
    ToPrefixEncodes(sender, y, n + d);
  }

  lemma ParsedSize(y: Bytes, m: nat)
    requires Parses(y, m)
    ensures m + 40 <= |y|
  {
    hide LittleEndian;
  }

  /** Bytes that two senders, `d` bytes apart, can both claim. */
  ghost function Claimed(n: nat, d: nat): (y: Bytes)
    requires d < TWO_64
  {
    if d != 33 then Overlap(n + 1, d)
    else Zeros(n + 33) + LittleEndian(256, 8) + Zeros(25) + LittleEndian(223, 8) + Zeros(223)
  }

  lemma ClaimedParses(n: nat, d: nat)
    requires 0 < d < TWO_64
    ensures var y := Claimed(n, d);
            Parses(y, n + 1) && Parses(y, n + d + 1) && y[n] == 0 && y[n + d] == 0
  {
    hide LittleEndian, Pow256;
    var y := Claimed(n, d);
    OneByte();
    if d != 33 {
      OverlapParses(n + 1, d);
      if 33 < d < 41 {
        ZeroDigits(d, 8, 1);
        assert y[n + d] == LittleEndian(d, 8)[d - 33];
      }
    } else {
      assert LittleEndian(256, 8)[0] == 0 by { LowByte(); }
      assert y[n + 33..n + 41] == LittleEndian(256, 8);
      assert y[n + 66..n + 74] == LittleEndian(223, 8);
    }
  }

  lemma LowByte()
    ensures LittleEndian(256, 8)[0] == 0
  {
  }

  /** For every two sender lengths less than 2^64 apart there are two different transactions with one encoding. */
  lemma SendersCollide(n: nat, d: nat) returns (s: UnsignedTx, t: UnsignedTx)
    requires 0 < d < TWO_64
    ensures |s.sender| == n && |t.sender| == n + d && s.to.None? && t.to.None?
    ensures EncodeTx(s).Ok? && EncodeTx(s) == EncodeTx(t)
  {
    hide EncodeTx, Parses, Claimed;
    ClaimedParses(n, d);
    var y := Claimed(n, d);
    ParsedSize(y, n + 1);
    ParsedSize(y, n + d + 1);
    s, t := FromPrefix(y, n), FromPrefix(y, n + d);
    FromPrefixEncodes(y, n);
    FromPrefixEncodes(y, n + d);
  }

  /** Transactions whose sender and recipient lengths are among the given ones; a recipient may be missing. */
  ghost predicate Sized(tx: UnsignedTx, senders: set<nat>, recipients: set<nat>) {
    |tx.sender| in senders && (tx.to.Some? ==> |tx.to.value| in recipients)
  }

  ghost predicate Unambiguous(senders: set<nat>, recipients: set<nat>) {
    forall s: UnsignedTx, t: UnsignedTx ::
      (&& Sized(s, senders, recipients) && Sized(t, senders, recipients)
       && EncodeTx(s).Ok? && EncodeTx(s) == EncodeTx(t)) ==> s == t
  }

  ghost predicate OneLength(lengths: set<nat>) {
    forall m, n :: m in lengths && n in lengths ==> m == n
  }

  /**
   Exactly when the unsigned encoding commits to its fields: a class of transactions fixed by
   its address lengths is unambiguous if and only if it allows one sender length and one
   recipient length. Ledger addresses, always 20 bytes, are such a class.
   */
  lemma UnambiguousIff(senders: set<nat>, recipients: set<nat>)
    requires senders != {} && forall n :: n in senders + recipients ==> n < TWO_64
    ensures Unambiguous(senders, recipients) <==> OneLength(senders) && OneLength(recipients)
  {
    hide EncodeTx;
    if OneLength(senders) && OneLength(recipients) {
      forall s: UnsignedTx, t: UnsignedTx
        | && Sized(s, senders, recipients) && Sized(t, senders, recipients)
          && EncodeTx(s).Ok? && EncodeTx(s) == EncodeTx(t)
        ensures s == t
      {
        TxUnambiguous(s, t);
      }
    } else if !OneLength(senders) {
      var m, n :| m in senders && n in senders && m < n;
      assert n in senders + recipients;
      var s, t := SendersCollide(m, n - m);
      assert Sized(s, senders, recipients) && Sized(t, senders, recipients) && s != t;
    } else {
      var k :| k in senders;
      var m, n :| m in recipients && n in recipients && m < n;
      assert n in senders + recipients;
      var s, t := RecipientsCollide(Zeros(k), m, n - m);
      assert Sized(s, senders, recipients) && Sized(t, senders, recipients) && s != t;
    }
  }
}
