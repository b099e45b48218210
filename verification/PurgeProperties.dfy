/** The purge-properties message of the Astarte MQTT v1 protocol (src/properties.rs). */
module PurgeProperties {
  import opened Basics
  import opened RetentionIds

  /** A Rust string: the bytes of its UTF-8 encoding. */
  type Str = seq<Byte>

  const SEMICOLON: Byte := 59

  datatype PurgeError = Invalid | Decode

  /** A zlib compressor, and a decompressor that fails on what is not compressed text. */
  datatype Zlib = Zlib(deflate: Str -> seq<Byte>, readToString: seq<Byte> -> Option<Str>)

  /** What RFC 1950 promises. */
  ghost predicate Inverse(z: Zlib) {
    forall s :: z.readToString(z.deflate(s)) == Some(s)
  }

  /** The entries with a separator between any two. */
  function Join(l: seq<Str>): Str {
    if l == [] then []
    else if |l| == 1 then l[0]
    else l[0] + [SEMICOLON] + Join(l[1..])
  }

  /** `str::split`: one more piece than there are separators. */
  function Split(s: Str): (r: seq<Str>)
    ensures r != [] && forall e :: e in r ==> SEMICOLON !in e
  {
    if s == [] then [[]]
    else
      var rest := Split(s[1..]);
      if s[0] == SEMICOLON then [[]] + rest else [[s[0]] + rest[0]] + rest[1..]
  }

  // ---- Encoding -----------------------------------------------------------------------------------

  class Encoder {
    const zlib: Zlib
    const prefix: seq<Byte>
    var written: Str

    constructor (zlib: Zlib, prefix: seq<Byte>)
      ensures this.zlib == zlib && this.prefix == prefix && written == []
    {
      this.zlib, this.prefix, written := zlib, prefix, [];
    }

    method WriteAll(bytes: Str)
      modifies this
      ensures written == old(written) + bytes
    {
      written := written + bytes;
    }

    method Finish() returns (buf: seq<Byte>)
      ensures buf == prefix + zlib.deflate(written)
    {
      buf := prefix + zlib.deflate(written);
    }
  }

  /** Counts the bytes before it writes them; the count is a `u32`. */
  method EncodeProp(encoder: Encoder, size: nat, value: Str) returns (r: Result<nat, PurgeError>)
    requires size <= U32_MAX
    modifies encoder
    ensures r.Ok? <==> size + |value| <= U32_MAX
    ensures r.Ok? ==> r.value == size + |value| && encoder.written == old(encoder.written) + value
    ensures r.Err? ==> r.error == Invalid
  {
    if |value| > U32_MAX || size + |value| > U32_MAX {
      return Err(Invalid);
    }
    encoder.WriteAll(value);
    return Ok(size + |value|);
  }

  /** The separator, and then the entry. */
  method EncodeEntry(encoder: Encoder, size: nat, value: Str) returns (r: Result<nat, PurgeError>)
    requires size <= U32_MAX
    modifies encoder
    ensures r.Ok? <==> size + 1 + |value| <= U32_MAX
    ensures r.Ok? ==>
              r.value == size + 1 + |value| && encoder.written == old(encoder.written) + [SEMICOLON] + value
    ensures r.Err? ==> r.error == Invalid
  {
    r := EncodeProp(encoder, size, [SEMICOLON]);
    if r.Ok? {
      r := EncodeProp(encoder, r.value, value);
    }
  }

  /** The joined length, big-endian, and the compressed entries; an error when the length is no `u32`. */
  method EncodeSetProperties(zlib: Zlib, paths: seq<Str>) returns (r: Result<seq<Byte>, PurgeError>)
    ensures r == Encoded(zlib, paths)
  {
    var encoder := new Encoder(zlib, [0, 0, 0, 0]);
    if paths == [] {
      var empty := encoder.Finish();
      assert ToBytes(0, 4) == [0, 0, 0, 0];
      return Ok(empty);
    }
    assert paths[..1] == [paths[0]];
    JoinedLength(paths, 1);
    var size := EncodeProp(encoder, 0, paths[0]);
    if size.Err? {
      return Err(size.error);
    }
    for k := 1 to |paths|
      invariant fresh(encoder) && size.Ok? && size.value <= U32_MAX
      invariant encoder.written == Join(paths[..k]) && size.value == |Join(paths[..k])|
    {
      NextEntry(paths, k);
      size := EncodeEntry(encoder, size.value, paths[k]);
      if size.Err? {
        return Err(size.error);
      }
    }
    assert paths[..|paths|] == paths;
    var res := encoder.Finish();
    AfterHeader([0, 0, 0, 0], zlib.deflate(encoder.written));
    var bytes := ToBytes(size.value, 4);
    res := bytes + res[4..];
    return Ok(res);
  }

  lemma AfterHeader(header: seq<Byte>, rest: seq<Byte>)
    ensures (header + rest)[|header|..] == rest
  {
  }

  /** An entry more, with its separator; no shorter text is too long if this one is not. */
  lemma NextEntry(paths: seq<Str>, k: nat)
    requires 0 < k < |paths|
    ensures Join(paths[..k + 1]) == Join(paths[..k]) + [SEMICOLON] + paths[k]
    ensures |Join(paths[..k + 1])| == |Join(paths[..k])| + 1 + |paths[k]| <= |Join(paths)|
  {
    JoinSnoc(paths, k);
    JoinedLength(paths, k + 1);
  }

  function Encoded(zlib: Zlib, paths: seq<Str>): Result<seq<Byte>, PurgeError> {
    if |Join(paths)| <= U32_MAX then Ok(ToBytes(|Join(paths)|, 4) + zlib.deflate(Join(paths))) else Err(Invalid)
  }

  lemma {:induction false} JoinTail(l: seq<Str>, x: Str)
    requires l != []
    ensures Join(l + [x]) == Join(l) + [SEMICOLON] + x
  {
    if |l| > 1 {
      assert (l + [x])[1..] == l[1..] + [x];
      JoinTail(l[1..], x);
    }
  }

  lemma JoinSnoc(l: seq<Str>, k: nat)
    requires 0 < k < |l|
    ensures Join(l[..k + 1]) == Join(l[..k]) + [SEMICOLON] + l[k]
  {
    assert l[..k + 1] == l[..k] + [l[k]];
    JoinTail(l[..k], l[k]);
  }

  lemma {:induction false} JoinedLength(l: seq<Str>, k: nat)
    requires 0 < k <= |l|
    ensures |Join(l[..k])| <= |Join(l)|
    decreases |l| - k
  {
    if k < |l| {
      JoinSnoc(l, k);
      JoinedLength(l, k + 1);
    } else {
      assert l[..k] == l;
    }
  }

  // ---- Decoding -----------------------------------------------------------------------------------

  /** A length that does not match the text is logged and otherwise ignored in release builds. */
  function ExtractSetProperties(zlib: Zlib, data: seq<Byte>): Result<seq<Str>, PurgeError> {
    if |data| < 4 then Err(Invalid)
    else
      match zlib.readToString(data[4..])
      case None => Err(Decode)
      case Some(s) => if s == [] then Ok([]) else Ok(Split(s))
  }

  lemma {:induction false} SplitJoined(e: Str, t: Str)
    requires SEMICOLON !in e
    ensures Split(e) == [e] && Split(e + [SEMICOLON] + t) == [e] + Split(t)
  {
    var s := e + [SEMICOLON] + t;
    if e == [] {
      assert s[1..] == t;
    } else {
      assert s[1..] == e[1..] + [SEMICOLON] + t;
      assert [e[0]] + e[1..] == e;
      SplitJoined(e[1..], t);
    }
  }

  lemma {:induction false} SplitJoin(l: seq<Str>)
    requires l != [] && forall e :: e in l ==> SEMICOLON !in e
    ensures Split(Join(l)) == l
  {
    SplitJoined(l[0], Join(l[1..]));
    if |l| > 1 {
      SplitJoin(l[1..]);
    }
  }

  lemma {:induction false} JoinSplit(s: Str)
    ensures Join(Split(s)) == s
  {
    if s != [] {
      JoinSplit(s[1..]);
      var rest := Split(s[1..]);
      if s[0] != SEMICOLON && |rest| > 1 {
        assert ([[s[0]] + rest[0]] + rest[1..])[1..] == rest[1..];
      }
      if s[0] == SEMICOLON {
        assert ([[]] + rest)[1..] == rest;
      }
    }
  }

  /**
   A list of properties survives the round trip exactly when no entry holds a separator and the list is
   not the one empty entry; the header is the length of the text.
   */
  lemma RoundTripIff(zlib: Zlib, l: seq<Str>)
    requires Inverse(zlib) && |Join(l)| <= U32_MAX
    ensures FromBytes(Encoded(zlib, l).value[..4]) == |Join(l)|
    ensures ExtractSetProperties(zlib, Encoded(zlib, l).value) == Ok(l)
       <==> (forall e :: e in l ==> SEMICOLON !in e) && l != [[]]
  {
    var data, text := Encoded(zlib, l).value, Join(l);
    HeaderRoundTrip(|text|);
    assert data[..4] == ToBytes(|text|, 4) && data[4..] == zlib.deflate(text);
    assert zlib.readToString(zlib.deflate(text)) == Some(text);
    if l != [] && forall e :: e in l ==> SEMICOLON !in e {
      SplitJoin(l);
      if text == [] {
        assert Split([]) == [[]];
      }
    }
  }

  lemma HeaderRoundTrip(n: nat)
    requires n <= U32_MAX
    ensures FromBytes(ToBytes(n, 4)) == n
  {
    BytesRoundTrip(n, 4);
    assert Pow256(4) == 0x1_0000_0000;
  }

  /** Whatever message is accepted, joining the entries read gives back its text. */
  lemma ExtractKeepsText(zlib: Zlib, data: seq<Byte>)
    requires ExtractSetProperties(zlib, data).Ok?
    ensures zlib.readToString(data[4..]) == Some(Join(ExtractSetProperties(zlib, data).value))
  {
    JoinSplit(zlib.readToString(data[4..]).value);
  }
}
