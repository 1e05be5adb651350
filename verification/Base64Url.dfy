// The URL-safe Base 64 alphabet without padding, section 5 of RFC 4648, as a
// strict decoder reads it: unused bits must be zero, line breaks are skipped.
module Base64Url {
  import opened Options

  type Byte = x: int | 0 <= x < 256

  function Letter(n: int): char
    requires 0 <= n < 64
  {
    if n < 26 then ('A' as int + n) as char
    else if n < 52 then ('a' as int + n - 26) as char
    else if n < 62 then ('0' as int + n - 52) as char
    else if n == 62 then '-' else '_'
  }

  // The value of a letter, or -1.
  function Sextet(c: char): (n: int)
    ensures -1 <= n < 64
  {
    if 'A' <= c <= 'Z' then c as int - 'A' as int
    else if 'a' <= c <= 'z' then c as int - 'a' as int + 26
    else if '0' <= c <= '9' then c as int - '0' as int + 52
    else if c == '-' then 62 else if c == '_' then 63 else -1
  }

  // The alphabet of the standard: upper case, lower case, digits, and two signs.
  lemma LetterIs()
    ensures Letter(0) == 'A' && Letter(25) == 'Z' && Letter(26) == 'a' && Letter(51) == 'z' && Letter(52) == '0' && Letter(61) == '9'
    ensures Letter(62) == '-' && Letter(63) == '_'
    ensures forall n | 0 <= n < 61 && n != 25 && n != 51 :: Letter(n + 1) as int == Letter(n) as int + 1
  {
  }

  lemma LetterRoundTrip(n: int)
    requires 0 <= n < 64
    ensures Sextet(Letter(n)) == n && Letter(n) != '\r' && Letter(n) != '\n'
  {
  }

  lemma SextetRoundTrip(c: char)
    ensures Sextet(c) >= 0 ==> Letter(Sextet(c)) == c
  {
  }

  // --- Three bytes are four sextets ----------------------------------------------

  type Sextet6 = x: int | 0 <= x < 64

  function First(a: Byte): Sextet6 { a / 4 }
  function Second(a: Byte, b: Byte): Sextet6 { a % 4 * 16 + b / 16 }
  function Third(b: Byte, c: Byte): Sextet6 { b % 16 * 4 + c / 64 }
  function Fourth(c: Byte): Sextet6 { c % 64 }

  function ByteA(w: Sextet6, x: Sextet6): Byte { w * 4 + x / 16 }
  function ByteB(x: Sextet6, y: Sextet6): Byte { x % 16 * 16 + y / 4 }
  function ByteC(y: Sextet6, z: Sextet6): Byte { y % 4 * 64 + z }

  function Pack(b: seq<Byte>): (s: seq<Sextet6>)
    ensures |b| <= |s|
  {
    if |b| == 0 then []
    else if |b| == 1 then [First(b[0]), Second(b[0], 0)]
    else if |b| == 2 then [First(b[0]), Second(b[0], b[1]), Third(b[1], 0)]
    else [First(b[0]), Second(b[0], b[1]), Third(b[1], b[2]), Fourth(b[2])] + Pack(b[3..])
  }

  // The bytes of sextets, of which the last group may be partial.
  function Unpack(s: seq<Sextet6>): Option<seq<Byte>> {
    if |s| == 0 then Some([])
    else if |s| == 1 then None
    else if |s| == 2 then (if s[1] % 16 == 0 then Some([ByteA(s[0], s[1])]) else None)
    else if |s| == 3 then (if s[2] % 4 == 0 then Some([ByteA(s[0], s[1]), ByteB(s[1], s[2])]) else None)
    else match Unpack(s[4..])
      case None => None
      case Some(rest) => Some([ByteA(s[0], s[1]), ByteB(s[1], s[2]), ByteC(s[2], s[3])] + rest)
  }

  lemma Group(a: Byte, b: Byte, c: Byte)
    ensures ByteA(First(a), Second(a, b)) == a && ByteB(Second(a, b), Third(b, c)) == b && ByteC(Third(b, c), Fourth(c)) == c
    ensures Second(a, 0) % 16 == 0 && Third(b, 0) % 4 == 0
  {
  }

  lemma Ungroup(w: Sextet6, x: Sextet6, y: Sextet6, z: Sextet6)
    ensures First(ByteA(w, x)) == w && Second(ByteA(w, x), ByteB(x, y)) == x
    ensures Third(ByteB(x, y), ByteC(y, z)) == y && Fourth(ByteC(y, z)) == z
    ensures x % 16 == 0 ==> Second(ByteA(w, x), 0) == x
    ensures y % 4 == 0 ==> Third(ByteB(x, y), 0) == y
  {
  }

  // The four sextets are the digits of the three bytes, read as one number with
  // the first byte most significant.
  lemma GroupIsOneNumber(a: Byte, b: Byte, c: Byte)
    ensures ((First(a) * 64 + Second(a, b)) * 64 + Third(b, c)) * 64 + Fourth(c) == (a * 256 + b) * 256 + c
  {
  }

  // A partial group is filled up with zero bits.
  lemma PackIsGrouped(a: Byte, b: Byte, c: Byte, rest: seq<Byte>)
    ensures Pack([a]) == [First(a), Second(a, 0)] && Pack([a, b]) == [First(a), Second(a, b), Third(b, 0)]
    ensures Pack([a, b, c] + rest) == [First(a), Second(a, b), Third(b, c), Fourth(c)] + Pack(rest)
  {
    PackGroup(a, b, c, rest);
  }

  lemma {:induction false} UnpackPack(b: seq<Byte>)
    ensures Unpack(Pack(b)) == Some(b)
  {
    if |b| >= 3 {
      UnpackPack(b[3..]);
      UnpackGroup(b[0], b[1], b[2], Pack(b[3..]), b[3..]);
      assert b == [b[0], b[1], b[2]] + b[3..];
    } else if |b| == 2 {
      assert b == [b[0], b[1]];
      UnpackTwo(b[0], b[1]);
    } else if |b| == 1 {
      assert b == [b[0]];
      UnpackOne(b[0]);
    }
  }

  lemma UnpackPair(w: Sextet6, x: Sextet6)
    requires x % 16 == 0
    ensures Unpack([w, x]) == Some([ByteA(w, x)])
  {
  }

  lemma UnpackOne(a: Byte)
    ensures Unpack([First(a), Second(a, 0)]) == Some([a])
  {
    Group(a, 0, 0);
    UnpackPair(First(a), Second(a, 0));
  }

  lemma UnpackTwo(a: Byte, b: Byte)
    ensures Unpack([First(a), Second(a, b), Third(b, 0)]) == Some([a, b])
  {
    Group(a, b, 0);
  }

  lemma UnpackGroup(a: Byte, b: Byte, c: Byte, s: seq<Sextet6>, rest: seq<Byte>)
    requires Unpack(s) == Some(rest)
    ensures Unpack([First(a), Second(a, b), Third(b, c), Fourth(c)] + s) == Some([a, b, c] + rest)
  {
    Group(a, b, c);
    assert ([First(a), Second(a, b), Third(b, c), Fourth(c)] + s)[4..] == s;
  }

  lemma {:induction false} PackUnpack(s: seq<Sextet6>)
    requires Unpack(s).Some?
    ensures Pack(Unpack(s).value) == s
  {
    if |s| >= 4 {
      PackUnpack(s[4..]);
      PackUnpackGroup(s);
    } else if |s| == 3 {
      Ungroup(s[0], s[1], s[2], 0);
      assert s == [s[0], s[1], s[2]];
    } else if |s| == 2 {
      Ungroup(s[0], s[1], 0, 0);
      assert s == [s[0], s[1]];
    }
  }

  lemma PackUnpackGroup(s: seq<Sextet6>)
    requires |s| >= 4 && Unpack(s).Some? && Unpack(s[4..]).Some? && Pack(Unpack(s[4..]).value) == s[4..]
    ensures Pack(Unpack(s).value) == s
  {
    Ungroup(s[0], s[1], s[2], s[3]);
    var rest := Unpack(s[4..]).value;
    PackGroup(ByteA(s[0], s[1]), ByteB(s[1], s[2]), ByteC(s[2], s[3]), rest);
    assert s == [s[0], s[1], s[2], s[3]] + s[4..];
  }

  lemma PackGroup(a: Byte, b: Byte, c: Byte, rest: seq<Byte>)
    ensures Pack([a, b, c] + rest) == [First(a), Second(a, b), Third(b, c), Fourth(c)] + Pack(rest)
  {
    assert ([a, b, c] + rest)[3..] == rest;
  }

  // --- Letters -------------------------------------------------------------------------

  function Letters(s: seq<Sextet6>): string {
    seq(|s|, i requires 0 <= i < |s| => Letter(s[i]))
  }

  function Encode(b: seq<Byte>): string { Letters(Pack(b)) }

  // The decoder skips line breaks.
  function WithoutBreaks(s: string): string {
    if s == "" then "" else (if s[0] == '\r' || s[0] == '\n' then "" else [s[0]]) + WithoutBreaks(s[1..])
  }

  function Sextets(s: string): seq<int> { seq(|s|, i requires 0 <= i < |s| => Sextet(s[i])) }

  function Decode(s: string): Option<seq<Byte>> {
    var sextets := Sextets(WithoutBreaks(s));
    if forall i | 0 <= i < |sextets| :: sextets[i] >= 0 then Unpack(sextets) else None
  }

  lemma SextetsOfLetters(s: seq<Sextet6>)
    ensures Sextets(Letters(s)) == s
    ensures forall i | 0 <= i < |s| :: Letters(s)[i] != '\r' && Letters(s)[i] != '\n'
  {
    forall i | 0 <= i < |s| ensures Sextet(Letter(s[i])) == s[i] && Letter(s[i]) != '\r' && Letter(s[i]) != '\n' {
      LetterRoundTrip(s[i]);
    }
  }

  lemma LettersOfSextets(s: string)
    requires forall i | 0 <= i < |s| :: Sextet(s[i]) >= 0
    ensures Letters(Sextets(s)) == s
  {
    forall i | 0 <= i < |s| ensures Letter(Sextet(s[i])) == s[i] {
      SextetRoundTrip(s[i]);
    }
  }

  lemma {:induction false} NoBreaksToSkip(s: string)
    requires forall i | 0 <= i < |s| :: s[i] != '\r' && s[i] != '\n'
    ensures WithoutBreaks(s) == s
  {
    if s != "" {
      NoBreaksToSkip(s[1..]);
      assert s == [s[0]] + s[1..];
    }
  }

  // Every byte sequence comes back.
  lemma Base64RoundTrip(b: seq<Byte>)
    ensures Decode(Encode(b)) == Some(b) && |b| <= |Encode(b)|
  {
    SextetsOfLetters(Pack(b));
    NoBreaksToSkip(Encode(b));
    UnpackPack(b);
  }

  // Up to line breaks, no two texts decode to the same bytes.
  lemma DecodingIsUnique(s: string, b: seq<Byte>)
    requires Decode(s) == Some(b)
    ensures WithoutBreaks(s) == Encode(b)
  {
    var letters := WithoutBreaks(s);
    assert forall i | 0 <= i < |letters| :: Sextets(letters)[i] == Sextet(letters[i]);
    PackUnpack(Sextets(letters));
    LettersOfSextets(letters);
  }
}
