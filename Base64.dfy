/**
 * The standard base64 encoding of section 4 of RFC 4648, as produced by
 * Python's `base64.standard_b64encode`.  The encoding is taken in the two
 * steps the RFC describes: every group of three bytes (24 bits) is split
 * into four 6-bit values, a final group of one or two bytes is zero-filled
 * and completed with the pad value; then each value is written as the
 * character Table 1 of the RFC gives it.  `Decode` is the strict inverse
 * of both steps, used to state the round trips.
 */
module Base64 {
  import opened Results

  type byte = x: int | 0 <= x < 256

  /** A value of Table 1 of RFC 4648: 0 to 63 stand for six bits, 64 is the pad. */
  type symbol = x: int | 0 <= x <= 64

  const PAD_VALUE: symbol := 64
  const PAD_CHAR: char := '='

  /** Table 1 of RFC 4648: 0-25 are `A`-`Z`, 26-51 are `a`-`z`, 52-61 are
    * `0`-`9`, 62 is `+`, 63 is `/` and the pad is `=`. */
  function CharOf(v: symbol): char
  {
    if v < 26 then ('A' as int + v) as char
    else if v < 52 then ('a' as int + (v - 26)) as char
    else if v < 62 then ('0' as int + (v - 52)) as char
    else if v == 62 then '+'
    else if v == 63 then '/'
    else PAD_CHAR
  }

  /** The 64 characters of the standard alphabet (the pad not included). */
  predicate IsAlphabetChar(c: char)
  {
    ('A' <= c <= 'Z') || ('a' <= c <= 'z') || ('0' <= c <= '9') || c == '+' || c == '/'
  }

  /** Reading Table 1 backwards; `None` for a character outside it. */
  function SymbolOf(c: char): Option<symbol>
  {
    if 'A' <= c <= 'Z' then Some(c as int - 'A' as int)
    else if 'a' <= c <= 'z' then Some(c as int - 'a' as int + 26)
    else if '0' <= c <= '9' then Some(c as int - '0' as int + 52)
    else if c == '+' then Some(62)
    else if c == '/' then Some(63)
    else if c == PAD_CHAR then Some(PAD_VALUE)
    else None
  }

  lemma SymbolOfCharOf(v: symbol)
    ensures SymbolOf(CharOf(v)) == Some(v)
    ensures v < PAD_VALUE <==> IsAlphabetChar(CharOf(v))
    ensures v == PAD_VALUE <==> CharOf(v) == PAD_CHAR
  {
  }

  lemma CharOfSymbolOf(c: char)
    requires SymbolOf(c).Some?
    ensures CharOf(SymbolOf(c).value) == c
  {
  }

  // ---- step 1: bytes to 6-bit values ----

  /** Three bytes as four 6-bit values, most significant bits first. */
  function SplitGroup(b0: byte, b1: byte, b2: byte): seq<symbol>
  {
    [b0 / 4, (b0 % 4) * 16 + b1 / 16, (b1 % 16) * 4 + b2 / 64, b2 % 64]
  }

  /** Four 6-bit values as three bytes. */
  function JoinGroup(v0: symbol, v1: symbol, v2: symbol, v3: symbol): seq<byte>
    requires v0 < 64 && v1 < 64 && v2 < 64 && v3 < 64
  {
    [v0 * 4 + v1 / 16, (v1 % 16) * 16 + v2 / 4, (v2 % 4) * 64 + v3]
  }

  /** How many pad values end the encoding of `n` bytes. */
  function PaddingLength(n: nat): nat
  {
    if n % 3 == 0 then 0 else 3 - n % 3
  }

  /** The 6-bit values of `data`; a final group of one byte gives 8 bits
    * zero-filled to 12 and two pads, one of two bytes gives 16 bits
    * zero-filled to 18 and one pad. */
  function Sextets(data: seq<byte>): (vs: seq<symbol>)
    ensures |vs| == 4 * ((|data| + 2) / 3)
    decreases |data|
  {
    if |data| == 0 then []
    else if |data| == 1 then [data[0] / 4, (data[0] % 4) * 16, PAD_VALUE, PAD_VALUE]
    else if |data| == 2 then [data[0] / 4, (data[0] % 4) * 16 + data[1] / 16, (data[1] % 16) * 4, PAD_VALUE]
    else SplitGroup(data[0], data[1], data[2]) + Sextets(data[3..])
  }

  /** The last four values, which may end in one or two pads; the bits the
    * zero fill supplied must be zero. */
  function JoinFinal(v0: symbol, v1: symbol, v2: symbol, v3: symbol): Option<seq<byte>>
  {
    if v0 == PAD_VALUE || v1 == PAD_VALUE then None
    else if v2 == PAD_VALUE then
      if v3 == PAD_VALUE && v1 % 16 == 0 then Some([v0 * 4 + v1 / 16]) else None
    else if v3 == PAD_VALUE then
      if v2 % 4 == 0 then Some([v0 * 4 + v1 / 16, (v1 % 16) * 16 + v2 / 4]) else None
    else Some(JoinGroup(v0, v1, v2, v3))
  }

  /** Undoes `Sextets`; `None` for values it cannot produce. */
  function Join(vs: seq<symbol>): Option<seq<byte>>
    decreases |vs|
  {
    if |vs| == 0 then Some([])
    else if |vs| < 4 then None
    else if |vs| == 4 then JoinFinal(vs[0], vs[1], vs[2], vs[3])
    else if vs[0] == PAD_VALUE || vs[1] == PAD_VALUE || vs[2] == PAD_VALUE || vs[3] == PAD_VALUE then None
    else
      match Join(vs[4..])
      case None => None
      case Some(tail) => Some(JoinGroup(vs[0], vs[1], vs[2], vs[3]) + tail)
  }

  // ---- step 2: values to characters ----

  function Spell(vs: seq<symbol>): (s: string)
    ensures |s| == |vs|
  {
    if vs == [] then "" else [CharOf(vs[0])] + Spell(vs[1..])
  }

  function Read(s: string): Option<seq<symbol>>
  {
    if s == [] then Some([])
    else
      match (SymbolOf(s[0]), Read(s[1..]))
      case (Some(v), Some(vs)) => Some([v] + vs)
      case _ => None
  }

  // ---- the encoding and its inverse ----

  /** The standard base64 text of `data`: its 6-bit values, spelled out. */
  function Encode(data: seq<byte>): (s: string)
    ensures |s| == 4 * ((|data| + 2) / 3)
  {
    Spell(Sextets(data))
  }

  /** Strict decoding: `None` for any text `Encode` cannot produce. */
  function Decode(s: string): Option<seq<byte>>
  {
    match Read(s)
    case None => None
    case Some(vs) => Join(vs)
  }

  // ---- round trips ----

  /** Splitting three bytes into four 6-bit values and joining them again. */
  lemma SplitJoin(b0: byte, b1: byte, b2: byte)
    ensures 0 <= (b0 % 4) * 16 + b1 / 16 < 64 && 0 <= (b1 % 16) * 4 + b2 / 64 < 64
    ensures var v0, v1, v2, v3 := b0 / 4, (b0 % 4) * 16 + b1 / 16, (b1 % 16) * 4 + b2 / 64, b2 % 64;
      v0 * 4 + v1 / 16 == b0 && (v1 % 16) * 16 + v2 / 4 == b1 && (v2 % 4) * 64 + v3 == b2
  {
  }

  /** Joining four 6-bit values into three bytes and splitting them again. */
  lemma JoinSplit(v0: int, v1: int, v2: int, v3: int)
    requires 0 <= v0 < 64 && 0 <= v1 < 64 && 0 <= v2 < 64 && 0 <= v3 < 64
    ensures 0 <= v0 * 4 + v1 / 16 < 256 && 0 <= (v1 % 16) * 16 + v2 / 4 < 256 && 0 <= (v2 % 4) * 64 + v3 < 256
    ensures var b0, b1, b2 := v0 * 4 + v1 / 16, (v1 % 16) * 16 + v2 / 4, (v2 % 4) * 64 + v3;
      b0 / 4 == v0 && (b0 % 4) * 16 + b1 / 16 == v1 && (b1 % 16) * 4 + b2 / 64 == v2 && b2 % 64 == v3
  {
  }

  /** The 6-bit values of one byte, zero-filled to 12 bits, join back. */
  lemma SplitJoinOne(b0: byte)
    ensures var v0, v1 := b0 / 4, (b0 % 4) * 16;
      && v0 < 64 && v1 < 64 && v1 % 16 == 0 && v0 * 4 + v1 / 16 == b0
  {
  }

  /** The 6-bit values of two bytes, zero-filled to 18 bits, join back. */
  lemma SplitJoinTwo(b0: byte, b1: byte)
    ensures var v0, v1, v2 := b0 / 4, (b0 % 4) * 16 + b1 / 16, (b1 % 16) * 4;
      && v0 < 64 && v1 < 64 && v2 < 64 && v2 % 4 == 0
      && v0 * 4 + v1 / 16 == b0 && (v1 % 16) * 16 + v2 / 4 == b1
  {
  }

  /** One byte's values end in two pads and join back to it. */
  lemma JoinFinalOne(v0: symbol, v1: symbol, b0: byte)
    requires v0 < 64 && v1 < 64 && v1 % 16 == 0 && v0 * 4 + v1 / 16 == b0
    ensures JoinFinal(v0, v1, PAD_VALUE, PAD_VALUE) == Some([b0])
  {
  }

  /** Two bytes' values end in one pad and join back to them. */
  lemma JoinFinalTwo(v0: symbol, v1: symbol, v2: symbol, b0: byte, b1: byte)
    requires v0 < 64 && v1 < 64 && v2 < 64 && v2 % 4 == 0
    requires v0 * 4 + v1 / 16 == b0 && (v1 % 16) * 16 + v2 / 4 == b1
    ensures JoinFinal(v0, v1, v2, PAD_VALUE) == Some([b0, b1])
  {
  }

  /** The values of a full group, free of pads, and the group they join back to. */
  lemma GroupValues(b0: byte, b1: byte, b2: byte) returns (vs: seq<symbol>)
    ensures |vs| == 4 && vs[0] < 64 && vs[1] < 64 && vs[2] < 64 && vs[3] < 64
    ensures SplitGroup(b0, b1, b2) == vs
    ensures JoinGroup(vs[0], vs[1], vs[2], vs[3]) == [b0, b1, b2]
  {
    vs := SplitGroup(b0, b1, b2);
    var v0: int, v1: int, v2: int, v3: int := b0 / 4, (b0 % 4) * 16 + b1 / 16, (b1 % 16) * 4 + b2 / 64, b2 % 64;
    assert vs == [v0, v1, v2, v3];
    SplitJoin(b0, b1, b2);
    JoinGroupOf(v0, v1, v2, v3, b0, b1, b2);
  }

  /** The bytes four pad-free values join to, and the values they split into. */
  lemma GroupBytes(v0: symbol, v1: symbol, v2: symbol, v3: symbol) returns (bs: seq<byte>)
    requires v0 < 64 && v1 < 64 && v2 < 64 && v3 < 64
    ensures |bs| == 3 && JoinGroup(v0, v1, v2, v3) == bs
    ensures SplitGroup(bs[0], bs[1], bs[2]) == [v0, v1, v2, v3]
  {
    bs := JoinGroup(v0, v1, v2, v3);
    var b0: int, b1: int, b2: int := v0 * 4 + v1 / 16, (v1 % 16) * 16 + v2 / 4, (v2 % 4) * 64 + v3;
    assert bs == [b0, b1, b2];
    JoinSplit(v0, v1, v2, v3);
    SplitGroupOf(b0, b1, b2, v0, v1, v2, v3);
  }

  lemma JoinGroupOf(v0: symbol, v1: symbol, v2: symbol, v3: symbol, b0: byte, b1: byte, b2: byte)
    requires v0 < 64 && v1 < 64 && v2 < 64 && v3 < 64
    requires v0 * 4 + v1 / 16 == b0 && (v1 % 16) * 16 + v2 / 4 == b1 && (v2 % 4) * 64 + v3 == b2
    ensures JoinGroup(v0, v1, v2, v3) == [b0, b1, b2]
  {
  }

  lemma SplitGroupOf(b0: byte, b1: byte, b2: byte, v0: symbol, v1: symbol, v2: symbol, v3: symbol)
    requires b0 / 4 == v0 && (b0 % 4) * 16 + b1 / 16 == v1 && (b1 % 16) * 4 + b2 / 64 == v2 && b2 % 64 == v3
    ensures SplitGroup(b0, b1, b2) == [v0, v1, v2, v3]
  {
  }

  /** Joining four pad-free values in front of a joinable tail. */
  lemma JoinCons(head: seq<symbol>, rest: seq<symbol>, bytes: seq<byte>, tail: seq<byte>)
    requires |head| == 4 && head[0] < 64 && head[1] < 64 && head[2] < 64 && head[3] < 64
    requires JoinGroup(head[0], head[1], head[2], head[3]) == bytes
    requires Join(rest) == Some(tail)
    ensures Join(head + rest) == Some(bytes + tail)
  {
    var vs := head + rest;
    assert vs[..4] == head && vs[4..] == rest;
    if rest == [] {
      assert vs == head && tail == [] && bytes + tail == bytes;
      assert JoinFinal(head[0], head[1], head[2], head[3]) == Some(bytes);
    }
  }

  /** The values of three bytes in front of the rest. */
  lemma SextetsCons(b0: byte, b1: byte, b2: byte, rest: seq<byte>)
    ensures Sextets([b0, b1, b2] + rest) == SplitGroup(b0, b1, b2) + Sextets(rest)
  {
    var data := [b0, b1, b2] + rest;
    assert data[0] == b0 && data[1] == b1 && data[2] == b2 && data[3..] == rest;
  }

  lemma {:induction false} JoinSextets(data: seq<byte>)
    ensures Join(Sextets(data)) == Some(data)
    decreases |data|
  {
    if |data| == 1 {
      JoinSextetsOne(data);
    } else if |data| == 2 {
      JoinSextetsTwo(data);
    } else if |data| > 2 {
      var head := [data[0], data[1], data[2]];
      assert data == head + data[3..];
      SextetsCons(data[0], data[1], data[2], data[3..]);
      var vs := GroupValues(data[0], data[1], data[2]);
      JoinSextets(data[3..]);
      JoinCons(vs, Sextets(data[3..]), head, data[3..]);
    }
  }

  lemma JoinSextetsOne(data: seq<byte>)
    requires |data| == 1
    ensures Join(Sextets(data)) == Some(data)
  {
    var b0 := data[0];
    var v0, v1 := b0 / 4, (b0 % 4) * 16;
    assert Sextets(data) == [data[0] / 4, (data[0] % 4) * 16, PAD_VALUE, PAD_VALUE];
    SplitJoinOne(b0);
    JoinFinalOne(v0, v1, b0);
    assert data == [b0];
  }

  lemma JoinSextetsTwo(data: seq<byte>)
    requires |data| == 2
    ensures Join(Sextets(data)) == Some(data)
  {
    var b0, b1 := data[0], data[1];
    var v0, v1, v2 := b0 / 4, (b0 % 4) * 16 + b1 / 16, (b1 % 16) * 4;
    assert Sextets(data) == [data[0] / 4, (data[0] % 4) * 16 + data[1] / 16, (data[1] % 16) * 4, PAD_VALUE];
    SplitJoinTwo(b0, b1);
    JoinFinalTwo(v0, v1, v2, b0, b1);
    assert data == [b0, b1];
  }

  lemma FinalOfJoin(v0: symbol, v1: symbol, v2: symbol, v3: symbol)
    requires JoinFinal(v0, v1, v2, v3).Some?
    ensures var b := JoinFinal(v0, v1, v2, v3).value; 1 <= |b| <= 3 && Sextets(b) == [v0, v1, v2, v3]
  {
    var b := JoinFinal(v0, v1, v2, v3).value;
    if v2 == PAD_VALUE {
      JoinSplit(v0, v1, 0, 0);
    } else if v3 == PAD_VALUE {
      JoinSplit(v0, v1, v2, 0);
    } else {
      JoinSplit(v0, v1, v2, v3);
      assert Sextets(b) == SplitGroup(b[0], b[1], b[2]) + Sextets([]);
    }
  }

  lemma {:induction false} SextetsOfJoin(vs: seq<symbol>)
    requires Join(vs).Some?
    ensures Sextets(Join(vs).value) == vs
    decreases |vs|
  {
    if |vs| == 0 {
    } else if |vs| == 4 {
      FinalOfJoin(vs[0], vs[1], vs[2], vs[3]);
      assert vs == [vs[0], vs[1], vs[2], vs[3]];
    } else {
      var tail := Join(vs[4..]).value;
      var bs := GroupBytes(vs[0], vs[1], vs[2], vs[3]);
      assert Join(vs) == Some(bs + tail);
      SextetsOfJoin(vs[4..]);
      assert bs + tail == [bs[0], bs[1], bs[2]] + tail;
      SextetsCons(bs[0], bs[1], bs[2], tail);
      assert vs == vs[..4] + vs[4..];
    }
  }

  lemma {:induction false} ReadSpell(vs: seq<symbol>)
    ensures Read(Spell(vs)) == Some(vs)
  {
    if vs != [] {
      var s := Spell(vs);
      assert s[0] == CharOf(vs[0]) && s[1..] == Spell(vs[1..]);
      SymbolOfCharOf(vs[0]);
      ReadSpell(vs[1..]);
      assert vs == [vs[0]] + vs[1..];
    }
  }

  lemma {:induction false} SpellRead(s: string)
    requires Read(s).Some?
    ensures Spell(Read(s).value) == s
  {
    if s != [] {
      var vs := Read(s).value;
      CharOfSymbolOf(s[0]);
      SpellRead(s[1..]);
      assert vs[0] == SymbolOf(s[0]).value && vs[1..] == Read(s[1..]).value;
      assert s == [s[0]] + s[1..];
    }
  }

  /** Decoding the encoding of any bytes gives those bytes back. */
  lemma DecodeEncode(data: seq<byte>)
    ensures Decode(Encode(data)) == Some(data)
  {
    ReadSpell(Sextets(data));
    JoinSextets(data);
  }

  /** Any text that decodes is the encoding of what it decodes to, so the
    * encoding is one-to-one and `Decode` accepts exactly its image. */
  lemma EncodeDecode(s: string)
    requires Decode(s).Some?
    ensures Encode(Decode(s).value) == s
  {
    var vs := Read(s).value;
    SextetsOfJoin(vs);
    SpellRead(s);
  }

  // ---- the shape of encoded text ----

  /** Everything before position `k` is a character of the standard
    * alphabet and everything from `k` on is `=`. */
  predicate IsPaddedAt(s: string, k: int)
    requires 0 <= k <= |s|
  {
    && (forall i :: 0 <= i < k ==> IsAlphabetChar(s[i]))
    && (forall i :: k <= i < |s| ==> s[i] == PAD_CHAR)
  }

  /** Values below 64 before position `k`, pads from `k` on. */
  predicate IsPaddedSextetsAt(vs: seq<symbol>, k: int)
    requires 0 <= k <= |vs|
  {
    && (forall i :: 0 <= i < k ==> vs[i] < PAD_VALUE)
    && (forall i :: k <= i < |vs| ==> vs[i] == PAD_VALUE)
  }

  lemma {:induction false} SextetsPadding(data: seq<byte>)
    ensures PaddingLength(|data|) <= |Sextets(data)|
    ensures IsPaddedSextetsAt(Sextets(data), |Sextets(data)| - PaddingLength(|data|))
    decreases |data|
  {
    if |data| == 1 {
      var b0 := data[0];
      assert Sextets(data) == [b0 / 4, (b0 % 4) * 16, PAD_VALUE, PAD_VALUE];
      SplitJoinOne(b0);
    } else if |data| == 2 {
      var b0, b1 := data[0], data[1];
      assert Sextets(data) == [b0 / 4, (b0 % 4) * 16 + b1 / 16, (b1 % 16) * 4, PAD_VALUE];
      SplitJoinTwo(b0, b1);
    } else if |data| > 2 {
      var vs := Sextets(data);
      var head := SplitGroup(data[0], data[1], data[2]);
      var tail := Sextets(data[3..]);
      assert data == [data[0], data[1], data[2]] + data[3..];
      SextetsCons(data[0], data[1], data[2], data[3..]);
      var values := GroupValues(data[0], data[1], data[2]);
      SextetsPadding(data[3..]);
      assert PaddingLength(|data|) == PaddingLength(|data| - 3);
      forall i | 0 <= i < |vs| ensures vs[i] == if i < 4 then head[i] else tail[i - 4] {
      }
    }
  }

  lemma {:induction false} SpellPadding(vs: seq<symbol>, k: int)
    requires 0 <= k <= |vs| && IsPaddedSextetsAt(vs, k)
    ensures IsPaddedAt(Spell(vs), k)
  {
    if vs != [] {
      SymbolOfCharOf(vs[0]);
      var s := Spell(vs);
      assert s[1..] == Spell(vs[1..]);
      var k' := if k == 0 then 0 else k - 1;
      assert IsPaddedSextetsAt(vs[1..], k');
      SpellPadding(vs[1..], k');
      forall i | 1 <= i < |s| ensures s[i] == s[1..][i - 1] {
      }
    }
  }

  /** Encoded text uses only the standard alphabet and ends in its `=`
    * padding; it has four characters for every started group of three
    * bytes, and as many `=` as the last group lacks bytes. */
  lemma EncodeShape(data: seq<byte>)
    ensures |Encode(data)| == 4 * ((|data| + 2) / 3)
    ensures PaddingLength(|data|) <= |Encode(data)|
    ensures IsPaddedAt(Encode(data), |Encode(data)| - PaddingLength(|data|))
  {
    SextetsPadding(data);
    SpellPadding(Sextets(data), |Sextets(data)| - PaddingLength(|data|));
  }
}
