/** Byte strings, fixed-width integers, and the two result types every layer uses. */
module Bytes {
  type byte = b: int | 0 <= b < 256
  type bytes = seq<byte>
  type u32 = n: int | 0 <= n < 0x1_0000_0000

  datatype Option<+T> = None | Some(value: T)

  datatype Result<+T, +E> = Ok(value: T) | Err(error: E)

  function Pow256(n: nat): (p: nat)
    ensures p >= 1
  {
    if n == 0 then 1 else 256 * Pow256(n - 1)
  }

  /** struct.pack of one unsigned little-endian field of `width` bytes. */
  function ToLE(v: nat, width: nat): (s: bytes)
    ensures |s| == width
  {
    if width == 0 then [] else [v % 256] + ToLE(v / 256, width - 1)
  }

  /** struct.unpack of one unsigned little-endian field. */
  function FromLE(s: bytes): (v: nat) {
    if s == [] then 0 else s[0] + 256 * FromLE(s[1..])
  }

  lemma {:induction false} FromToLE(v: nat, width: nat)
    requires v < Pow256(width)
    ensures FromLE(ToLE(v, width)) == v
  {
    if width == 0 {
    } else {
      FromToLE(v / 256, width - 1);
      assert ToLE(v, width)[1..] == ToLE(v / 256, width - 1);
    }
  }

  /** The first byte counts least, and each further one 256 times as much. */
  lemma {:induction false} LittleEndian(s: bytes, x: byte)
    ensures FromLE([]) == 0
    ensures FromLE(s + [x]) == FromLE(s) + Pow256(|s|) * x
  {
    if s == [] {
      assert [x][1..] == [] && [] + [x] == [x];
    } else {
      LittleEndian(s[1..], x);
      assert (s + [x])[1..] == s[1..] + [x];
      assert 256 * (Pow256(|s| - 1) * x) == Pow256(|s|) * x;
    }
  }

  /** A '<I' field. */
  function Word(v: u32): (s: bytes)
    ensures |s| == 4
  {
    [v % 256, v / 256 % 256, v / 65536 % 256, v / 16777216]
  }

  /** The number whose bytes, the least significant first, these are. */
  lemma WordIs(v: u32)
    ensures var s := Word(v);
            s[0] as int + 0x100 * (s[1] as int) + 0x1_0000 * (s[2] as int) + 0x100_0000 * (s[3] as int) == v
  {
    assert v / 256 / 256 == v / 65536 && v / 65536 / 256 == v / 16777216;
  }

  function UnWord(s: bytes): (v: u32)
    requires |s| == 4
  {
    s[0] as int + 256 * (s[1] as int) + 65536 * (s[2] as int) + 16777216 * (s[3] as int)
  }

  lemma WordRoundTrip(v: u32)
    ensures UnWord(Word(v)) == v
  {
    WordIs(v);
  }

  lemma UnWordRoundTrip(s: bytes)
    requires |s| == 4
    ensures Word(UnWord(s)) == s
  {
    var v := UnWord(s);
    var b1: int, b2: int, b3: int := s[1], s[2], s[3];
    assert v / 256 == b1 + 256 * b2 + 65536 * b3;
    assert v / 65536 == b2 + 256 * b3;
    assert Word(v)[0] == s[0] && Word(v)[1] == s[1] && Word(v)[2] == s[2] && Word(v)[3] == s[3];
  }

  /** struct.pack('<nI', *ws) */
  function PackWords(ws: seq<u32>): (s: bytes)
    ensures |s| == 4 * |ws|
  {
    if ws == [] then [] else Word(ws[0]) + PackWords(ws[1..])
  }

  /** struct.unpack('<nI', s) */
  function UnpackWords(s: bytes): (ws: seq<u32>)
    requires |s| % 4 == 0
    ensures 4 * |ws| == |s|
  {
    if s == [] then [] else [UnWord(s[..4])] + UnpackWords(s[4..])
  }

  lemma {:induction false} WordsRoundTrip(ws: seq<u32>)
    ensures UnpackWords(PackWords(ws)) == ws
  {
    if ws == [] {
    } else {
      var s := PackWords(ws);
      assert s[..4] == Word(ws[0]) && s[4..] == PackWords(ws[1..]);
      WordRoundTrip(ws[0]);
      WordsRoundTrip(ws[1..]);
    }
  }

  lemma {:induction false} UnpackedAt(s: bytes, i: nat)
    requires |s| % 4 == 0 && 4 * i < |s|
    ensures UnpackWords(s)[i] == UnWord(s[4 * i..4 * i + 4])
  {
    if i > 0 {
      var rest, j := s[4..], 4 * (i - 1);
      UnpackedAt(rest, i - 1);
      Later(s, j);
      assert UnpackWords(s)[i] == UnpackWords(rest)[i - 1];
    }
  }

  lemma Later(s: bytes, j: nat)
    requires j + 8 <= |s|
    ensures s[4..][j..j + 4] == s[j + 4..j + 8]
  {
  }

  /** The value of a four-letter ASCII command read as a '<I' field. */
  function Letters(a: char, b: char, c: char, d: char): (v: u32)
    requires a < 128 as char && b < 128 as char && c < 128 as char && d < 128 as char
  {
    a as int + 0x100 * (b as int) + 0x1_0000 * (c as int) + 0x100_0000 * (d as int)
  }

  function Code(c: char): (b: byte)
    requires c < 128 as char
    ensures b == c as int
  {
    c as int
  }

  /** A string of ASCII characters as bytes. */
  function Ascii(s: string): (b: bytes)
    requires forall c | c in s :: c < 128 as char
    ensures |b| == |s| && forall i | 0 <= i < |s| :: b[i] == s[i] as int
  {
    seq(|s|, i requires 0 <= i < |s| => assert s[i] in s; Code(s[i]))
  }

  lemma LettersAscii(a: char, b: char, c: char, d: char)
    requires a < 128 as char && b < 128 as char && c < 128 as char && d < 128 as char
    ensures Word(Letters(a, b, c, d)) == Ascii([a, b, c, d])
  {
    UnWordRoundTrip(Ascii([a, b, c, d]));
  }

  /** b''.join(parts) */
  function Join(parts: seq<bytes>): bytes {
    if parts == [] then [] else parts[0] + Join(parts[1..])
  }

  lemma {:induction false} JoinAppend(parts: seq<bytes>, more: seq<bytes>)
    ensures Join(parts + more) == Join(parts) + Join(more)
  {
    if parts == [] {
      assert parts + more == more;
    } else {
      var all := parts + more;
      assert all[0] == parts[0] && all[1..] == parts[1..] + more;
      JoinAppend(parts[1..], more);
      assert Join(all) == parts[0] + Join(parts[1..] + more);
    }
  }

  lemma JoinSnoc(parts: seq<bytes>, last: bytes)
    ensures Join(parts + [last]) == Join(parts) + last
  {
    JoinAppend(parts, [last]);
    assert Join([last]) == last + Join([]);
  }

  /** What has been written once each of `xs` has been written in turn. */
  function Written<T>(xs: seq<T>, f: T --> bytes): bytes
    requires forall x | x in xs :: f.requires(x)
  {
    if xs == [] then [] else Written(xs[..|xs| - 1], f) + f(xs[|xs| - 1])
  }

  lemma WrittenSnoc<T>(xs: seq<T>, x: T, f: T --> bytes)
    requires forall y | y in xs + [x] :: f.requires(y)
    ensures forall y | y in xs :: y in xs + [x]
    ensures Written(xs + [x], f) == Written(xs, f) + f(x)
  {
    assert (xs + [x])[..|xs|] == xs;
  }

  lemma WrittenOne<T>(x: T, f: T --> bytes)
    requires f.requires(x)
    ensures Written([x], f) == f(x)
  {
    WrittenSnoc([], x, f);
    assert [] + [x] == [x];
  }

  lemma WrittenFirst<T>(x: T, more: seq<T>, f: T --> bytes)
    requires f.requires(x) && forall y | y in more :: f.requires(y)
    ensures forall y | y in [x] + more :: f.requires(y)
    ensures Written([x] + more, f) == f(x) + Written(more, f)
  {
    WrittenAppend([x], more, f);
    WrittenOne(x, f);
  }

  lemma {:induction false} WrittenAppend<T>(xs: seq<T>, ys: seq<T>, f: T --> bytes)
    requires forall y | y in xs + ys :: f.requires(y)
    ensures forall y | y in xs || y in ys :: y in xs + ys
    ensures Written(xs + ys, f) == Written(xs, f) + Written(ys, f)
  {
    if ys == [] {
      assert xs + ys == xs;
    } else {
      var init, last := ys[..|ys| - 1], ys[|ys| - 1];
      var all := xs + ys;
      assert all[..|all| - 1] == xs + init && all[|all| - 1] == last;
      WrittenAppend(xs, init, f);
    }
  }
}
