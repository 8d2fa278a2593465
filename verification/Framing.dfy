/** Bytes, the two network byte orders the protocol uses, and the message frame:
    'P' 'S', a 16-bit id, a 32-bit body length, then the body. */
module Framing {
  type byte = b: int | 0 <= b < 0x100
  type u16 = x: int | 0 <= x < 0x1_0000
  type u32 = x: int | 0 <= x < 0x1_0000_0000

  datatype Option<+T> = None | Some(value: T)

  function BE16(x: u16): (r: seq<byte>)
    ensures |r| == 2
  {
    [x / 0x100, x % 0x100]
  }

  function BE32(x: u32): (r: seq<byte>)
    ensures |r| == 4
  {
    BE16(x / 0x1_0000) + BE16(x % 0x1_0000)
  }

  function Val16(b: seq<byte>): u16
    requires |b| == 2
  {
    (b[0] as int) * 0x100 + b[1]
  }

  function Val32(b: seq<byte>): u32
    requires |b| == 4
  {
    Val16(b[..2]) * 0x1_0000 + Val16(b[2..])
  }

  lemma Big16Inverse(x: u16, b: seq<byte>)
    requires |b| == 2
    ensures Val16(BE16(x)) == x && BE16(Val16(b)) == b
  {
  }

  lemma Big32Inverse(x: u32, b: seq<byte>)
    requires |b| == 4
    ensures Val32(BE32(x)) == x && BE32(Val32(b)) == b
  {
    Big16Inverse(x / 0x1_0000, b[..2]);
    Big16Inverse(x % 0x1_0000, b[2..]);
    assert BE32(x)[..2] == BE16(x / 0x1_0000) && BE32(x)[2..] == BE16(x % 0x1_0000);
    assert b == b[..2] + b[2..];
  }

  // ----- frames -----

  const HEADER_SIZE := 8
  const MAGIC: seq<byte> := ['P' as int, 'S' as int]

  datatype Frame = Frame(id: u16, body: seq<byte>)

  function Header(id: u16, len: u32): (r: seq<byte>)
    ensures |r| == HEADER_SIZE
  {
    MAGIC + BE16(id) + BE32(len)
  }

  /** The low 32 bits of a size_t, as stored in the header's length field. */
  function Low32(n: nat): u32 { n % 0x1_0000_0000 }

  function Encode(f: Frame): seq<byte> { Header(f.id, Low32(|f.body|)) + f.body }

  predicate Fits(f: Frame) { |f.body| < 0x1_0000_0000 }

  function EncodeAll(fs: seq<Frame>): seq<byte> {
    if fs == [] then [] else Encode(fs[0]) + EncodeAll(fs[1..])
  }

  predicate HeaderOk(b: seq<byte>) requires HEADER_SIZE <= |b| { b[..2] == MAGIC }
  function HeaderId(b: seq<byte>): u16 requires HEADER_SIZE <= |b| { Val16(b[2..4]) }
  function HeaderLen(b: seq<byte>): u32 requires HEADER_SIZE <= |b| { Val32(b[4..8]) }

  /** The eight bytes on the wire. */
  lemma HeaderLayout(id: u16, len: u32)
    ensures Header(id, len) ==
            ['P' as int, 'S' as int, id / 0x100, id % 0x100,
             len / 0x1_0000 / 0x100, len / 0x1_0000 % 0x100, len % 0x1_0000 / 0x100, len % 0x1_0000 % 0x100]
  {
    assert BE16(id) == [id / 0x100, id % 0x100];
    assert BE32(len) == BE16(len / 0x1_0000) + BE16(len % 0x1_0000);
  }

  lemma HeaderInverse(id: u16, len: u32, rest: seq<byte>)
    ensures var b := Header(id, len) + rest;
            HeaderOk(b) && HeaderId(b) == id && HeaderLen(b) == len && b[HEADER_SIZE..] == rest
  {
    var b := Header(id, len) + rest;
    assert b[..2] == MAGIC && b[2..4] == BE16(id) && b[4..8] == BE32(len);
    Big16Inverse(id, BE16(id));
    Big32Inverse(len, BE32(len));
  }

  lemma HeaderSound(b: seq<byte>)
    requires HEADER_SIZE <= |b| && HeaderOk(b)
    ensures b[..HEADER_SIZE] == Header(HeaderId(b), HeaderLen(b))
  {
    Big16Inverse(0, b[2..4]);
    Big32Inverse(0, b[4..8]);
    assert b[..HEADER_SIZE] == b[..2] + b[2..4] + b[4..8];
  }

  // ----- the reference parser -----

  /** Whole frames in front, what is left over, and whether the left-over starts with a bad header. */
  datatype Parsed = Parsed(frames: seq<Frame>, tail: seq<byte>, bad: bool)

  function Parse(b: seq<byte>): Parsed
    decreases |b|
  {
    if |b| < HEADER_SIZE then Parsed([], b, false)
    else if !HeaderOk(b) then Parsed([], b, true)
    else
      var end := HEADER_SIZE + HeaderLen(b);
      if |b| < end then Parsed([], b, false)
      else
        var p := Parse(b[end..]);
        Parsed([Frame(HeaderId(b), b[HEADER_SIZE..end])] + p.frames, p.tail, p.bad)
  }

  predicate IsFramed(b: seq<byte>) { Parse(b).tail == [] }

  lemma EncodeNothing()
    ensures EncodeAll([]) == []
  {
  }

  lemma EncodeAllCons(f: Frame, fs: seq<Frame>, t: seq<byte>)
    ensures EncodeAll([f] + fs) + t == Encode(f) + (EncodeAll(fs) + t)
  {
    assert ([f] + fs)[1..] == fs;
  }

  /** Parsing loses nothing: the frames, encoded again, and the tail are the input. */
  lemma {:induction false} ParseSound(b: seq<byte>)
    ensures EncodeAll(Parse(b).frames) + Parse(b).tail == b
    ensures forall f :: f in Parse(b).frames ==> Fits(f)
    decreases |b|
  {
    hide Encode, EncodeAll, Parse, HeaderOk, HeaderId, HeaderLen;
    EncodeNothing();
    if StartsWithFrame(b) {
      var end := HEADER_SIZE + HeaderLen(b);
      var f, p := Frame(HeaderId(b), b[HEADER_SIZE..end]), Parse(b[end..]);
      ParseSound(b[end..]);
      ParseFront(b);
      EncodeAllCons(f, p.frames, p.tail);
      assert b == b[..end] + b[end..];
    } else {
      ParseStops(b);
    }
  }

  predicate StartsWithFrame(b: seq<byte>) {
    HEADER_SIZE <= |b| && HeaderOk(b) && HEADER_SIZE + HeaderLen(b) <= |b|
  }

  lemma ParseStops(b: seq<byte>)
    requires !StartsWithFrame(b)
    ensures Parse(b).frames == [] && Parse(b).tail == b
  {
  }

  lemma ParseFront(b: seq<byte>)
    requires StartsWithFrame(b)
    ensures var end := HEADER_SIZE + HeaderLen(b);
            var f, p := Frame(HeaderId(b), b[HEADER_SIZE..end]), Parse(b[end..]);
            Fits(f) && Encode(f) == b[..end] && Parse(b) == Parsed([f] + p.frames, p.tail, p.bad)
  {
    hide Header, HeaderOk, HeaderId, HeaderLen;
    var end := HEADER_SIZE + HeaderLen(b);
    HeaderSound(b);
    assert b[..end] == b[..HEADER_SIZE] + b[HEADER_SIZE..end];
  }

  lemma ParseCons(f: Frame, rest: seq<byte>)
    requires Fits(f)
    ensures Parse(Encode(f) + rest) ==
            Parsed([f] + Parse(rest).frames, Parse(rest).tail, Parse(rest).bad)
  {
    var b := Encode(f) + rest;
    assert b == Header(f.id, |f.body| as u32) + (f.body + rest);
    HeaderInverse(f.id, |f.body| as u32, f.body + rest);
    var end := HEADER_SIZE + |f.body|;
    assert b[HEADER_SIZE..end] == f.body && b[end..] == rest;
  }

  /** Parsing undoes encoding, whatever follows the encoded frames. */
  lemma {:induction false} ParseEncoded(fs: seq<Frame>, t: seq<byte>)
    requires forall f :: f in fs ==> Fits(f)
    ensures Parse(EncodeAll(fs) + t) == Parsed(fs + Parse(t).frames, Parse(t).tail, Parse(t).bad)
  {
    if fs == [] {
      assert EncodeAll(fs) + t == t;
    } else {
      var f, fs' := fs[0], fs[1..];
      calc {
        Parse(EncodeAll(fs) + t);
        { assert fs == [f] + fs'; EncodeAllCons(f, fs', t); }
        Parse(Encode(f) + (EncodeAll(fs') + t));
        { ParseCons(f, EncodeAll(fs') + t); ParseEncoded(fs', t); }
        Parsed([f] + (fs' + Parse(t).frames), Parse(t).tail, Parse(t).bad);
        { assert [f] + (fs' + Parse(t).frames) == fs + Parse(t).frames; }
        Parsed(fs + Parse(t).frames, Parse(t).tail, Parse(t).bad);
      }
    }
  }

  lemma ParseEncodedExactly(fs: seq<Frame>)
    requires forall f :: f in fs ==> Fits(f)
    ensures Parse(EncodeAll(fs)) == Parsed(fs, [], false)
  {
    ParseEncoded(fs, []);
    assert EncodeAll(fs) + [] == EncodeAll(fs);
  }

  /** Two streams joined: whole frames of the first, then what follows it. */
  lemma ParseAppend(a: seq<byte>, b: seq<byte>)
    requires IsFramed(a)
    ensures Parse(a + b) == Parsed(Parse(a).frames + Parse(b).frames, Parse(b).tail, Parse(b).bad)
  {
    ParseSound(a);
    assert EncodeAll(Parse(a).frames) == a;
    ParseEncoded(Parse(a).frames, b);
  }

  lemma EncodeOne(f: Frame)
    ensures EncodeAll([f]) == Encode(f)
  {
    assert EncodeAll([f]) == Encode(f) + [] == Encode(f);
  }

  /** A single frame is a framed stream exactly when its length field did not wrap. */
  lemma FramedIffFits(f: Frame)
    ensures Fits(f) ==> Parse(Encode(f)) == Parsed([f], [], false)
    ensures !Fits(f) ==> Parse(Encode(f)).frames != [f]
  {
    if Fits(f) {
      ParseEncodedExactly([f]);
      EncodeOne(f);
    } else {
      ParseSound(Encode(f));
    }
  }

  lemma {:induction false} EncodeAllAppend(a: seq<Frame>, b: seq<Frame>)
    ensures EncodeAll(a + b) == EncodeAll(a) + EncodeAll(b)
  {
    if a == [] {
      assert a + b == b;
    } else {
      calc {
        EncodeAll(a + b);
        { assert a + b == [a[0]] + (a[1..] + b); EncodeAllCons(a[0], a[1..] + b, []); }
        Encode(a[0]) + EncodeAll(a[1..] + b);
        { EncodeAllAppend(a[1..], b); }
        Encode(a[0]) + (EncodeAll(a[1..]) + EncodeAll(b));
        { assert a == [a[0]] + a[1..]; EncodeAllCons(a[0], a[1..], EncodeAll(b)); }
        EncodeAll(a) + EncodeAll(b);
      }
    }
  }
}
