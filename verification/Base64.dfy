// base64_encode of controllers/authentication.cc, against section 4 of RFC 4648.
module Base64 {
  import opened Prelude

  const TABLE := "ABCDEFGHIJKLM" + "NOPQRSTUVWXYZ" + "abcdefghijklm" + "nopqrstuvwxyz" + "0123456789+/"

  type Byte = b: int | 0 <= b < 256
  type Six = v: int | 0 <= v < 64

  // ---- the standard, independent of the implementation ----------------------

  /** The character of a six-bit value. */
  function Letter(v: Six): char {
    if v < 26 then 'A' + v as char
    else if v < 52 then 'a' + (v - 26) as char
    else if v < 62 then '0' + (v - 52) as char
    else if v == 62 then '+' else '/'
  }

  function Value(c: char): Option<Six>
  {
    if 'A' <= c <= 'Z' then Some((c - 'A') as int)
    else if 'a' <= c <= 'z' then Some((c - 'a') as int + 26)
    else if '0' <= c <= '9' then Some((c - '0') as int + 52)
    else if c == '+' then Some(62)
    else if c == '/' then Some(63)
    else None
  }

  // The four six-bit values of three bytes.

  function First(a: Byte): Six {
    a / 4
  }

  function Second(a: Byte, b: Byte): Six {
    a % 4 * 16 + b / 16
  }

  function Third(b: Byte, c: Byte): Six {
    b % 16 * 4 + c / 64
  }

  function Fourth(c: Byte): Six {
    c % 64
  }

  /**
   * Whole groups of three bytes give four characters; a last group of one or two is filled with zero bits and padded.
   */
  function Encode(data: seq<Byte>): string {
    if |data| == 0 then ""
    else if |data| == 1 then [Letter(First(data[0])), Letter(Second(data[0], 0)), '=', '=']
    else if |data| == 2 then
      [Letter(First(data[0])), Letter(Second(data[0], data[1])), Letter(Third(data[1], 0)), '=']
    else
      Group(data[0], data[1], data[2]) + Encode(data[3..])
  }

  function Group(a: Byte, b: Byte, c: Byte): (s: string)
    ensures |s| == 4
  {
    [Letter(First(a)), Letter(Second(a, b)), Letter(Third(b, c)), Letter(Fourth(c))]
  }

  // The three bytes of four six-bit values.

  function Upper(p: Six, q: Six): Byte {
    p * 4 + q / 16
  }

  function Middle(q: Six, r: Six): Byte {
    q % 16 * 16 + r / 4
  }

  function Lower(r: Six, t: Six): Byte {
    r % 4 * 64 + t
  }

  // The last group may end in two or one padding characters; the bits they leave over must be zero.

  function LastOne(p: Option<Six>, q: Option<Six>): Option<seq<Byte>> {
    if p.Some? && q.Some? && q.value % 16 == 0 then Some([Upper(p.value, q.value)]) else None
  }

  function LastTwo(p: Option<Six>, q: Option<Six>, r: Option<Six>): Option<seq<Byte>> {
    if p.Some? && q.Some? && r.Some? && r.value % 4 == 0 then
      Some([Upper(p.value, q.value), Middle(q.value, r.value)])
    else None
  }

  function Three(p: Option<Six>, q: Option<Six>, r: Option<Six>, t: Option<Six>): Option<seq<Byte>> {
    if p.Some? && q.Some? && r.Some? && t.Some? then
      Some([Upper(p.value, q.value), Middle(q.value, r.value), Lower(r.value, t.value)])
    else None
  }

  function Joined(head: Option<seq<Byte>>, tail: Option<seq<Byte>>): Option<seq<Byte>> {
    if head.Some? && tail.Some? then Some(head.value + tail.value) else None
  }

  /** A strict decoder: no stray characters, padding only at the end, unused bits zero. */
  function Decode(s: string): Option<seq<Byte>> {
    if s == "" then Some([])
    else if |s| < 4 then None
    else if |s| == 4 && s[2] == '=' && s[3] == '=' then LastOne(Value(s[0]), Value(s[1]))
    else if |s| == 4 && s[3] == '=' then LastTwo(Value(s[0]), Value(s[1]), Value(s[2]))
    else Joined(Three(Value(s[0]), Value(s[1]), Value(s[2]), Value(s[3])), Decode(s[4..]))
  }

  lemma LetterValue(v: Six)
    ensures Value(Letter(v)) == Some(v) && Letter(v) != '='
  {
  }

  lemma TableLetters(v: Six)
    ensures TABLE[v] == Letter(v)
  {
    match v
    case 0 => case 1 => case 2 => case 3 => case 4 => case 5 => case 6 => case 7 => case 8 => case 9 => case 10 =>
    case 11 => case 12 =>
    case 13 => case 14 => case 15 => case 16 => case 17 => case 18 => case 19 => case 20 => case 21 => case 22 =>
    case 23 => case 24 => case 25 =>
    case 26 => case 27 => case 28 => case 29 => case 30 => case 31 => case 32 => case 33 => case 34 => case 35 =>
    case 36 => case 37 => case 38 =>
    case 39 => case 40 => case 41 => case 42 => case 43 => case 44 => case 45 => case 46 => case 47 => case 48 =>
    case 49 => case 50 => case 51 =>
    case 52 => case 53 => case 54 => case 55 => case 56 => case 57 => case 58 => case 59 => case 60 => case 61 =>
    case 62 => case 63 =>
  }

  // ---- what the standard gives -------------------------------------------------

  lemma SecondParts(a: Byte, b: Byte)
    ensures Second(a, b) / 16 == a % 4 && Second(a, b) % 16 == b / 16
  {
  }

  lemma ThirdParts(b: Byte, c: Byte)
    ensures Third(b, c) / 4 == b % 16 && Third(b, c) % 4 == c / 64
  {
  }

  lemma Rejoined(a: Byte, b: Byte, c: Byte)
    ensures Upper(First(a), Second(a, b)) == a
    ensures Middle(Second(a, b), Third(b, c)) == b
    ensures Lower(Third(b, c), Fourth(c)) == c
    ensures Second(a, 0) % 16 == 0 && Third(b, 0) % 4 == 0
  {
    hide Second, Third;
    SecondParts(a, b);
    SecondParts(a, 0);
    ThirdParts(b, c);
    ThirdParts(b, 0);
  }

  lemma GroupDecodes(a: Byte, b: Byte, c: Byte, more: string)
    ensures Decode(Group(a, b, c) + more) == Joined(Some([a, b, c]), Decode(more))
  {
    hide First, Second, Third, Fourth, Upper, Middle, Lower, Letter, Value;
    LetterValue(First(a));
    LetterValue(Second(a, b));
    LetterValue(Third(b, c));
    LetterValue(Fourth(c));
    Rejoined(a, b, c);
    var s := Group(a, b, c) + more;
    assert s[4..] == more;
  }

  lemma OneByteDecodes(a: Byte)
    ensures Decode(Encode([a])) == Some([a])
  {
    hide First, Second, Third, Fourth, Upper, Middle, Lower, Letter, Value;
    LetterValue(First(a));
    LetterValue(Second(a, 0));
    Rejoined(a, 0, 0);
  }

  lemma TwoBytesDecode(a: Byte, b: Byte)
    ensures Decode(Encode([a, b])) == Some([a, b])
  {
    hide First, Second, Third, Fourth, Upper, Middle, Lower, Letter, Value;
    LetterValue(First(a));
    LetterValue(Second(a, b));
    LetterValue(Third(b, 0));
    Rejoined(a, b, 0);
  }

  /** Decoding undoes encoding for every byte sequence. */
  lemma {:induction false} RoundTrip(data: seq<Byte>)
    ensures Decode(Encode(data)) == Some(data)
    decreases |data|
  {
    hide First, Second, Third, Fourth, Upper, Middle, Lower, Letter, Value;
    if |data| == 1 {
      OneByteDecodes(data[0]);
      assert data == [data[0]];
    } else if |data| == 2 {
      TwoBytesDecode(data[0], data[1]);
      assert data == [data[0], data[1]];
    } else if |data| >= 3 {
      GroupDecodes(data[0], data[1], data[2], Encode(data[3..]));
      RoundTrip(data[3..]);
      assert data == [data[0], data[1], data[2]] + data[3..];
    }
  }

  lemma Recut(p: Six, q: Six, r: Six, t: Six)
    ensures First(Upper(p, q)) == p
    ensures Second(Upper(p, q), Middle(q, r)) == q
    ensures Third(Middle(q, r), Lower(r, t)) == r
    ensures Fourth(Lower(r, t)) == t
  {
  }

  lemma RecutLast(p: Six, q: Six, r: Six)
    ensures q % 16 == 0 ==> Second(Upper(p, q), 0) == q
    ensures r % 4 == 0 ==> Third(Middle(q, r), 0) == r
  {
  }

  lemma ValueLetter(c: char)
    requires Value(c).Some?
    ensures Letter(Value(c).value) == c
  {
  }

  lemma LastOneEncoded(p: Six, q: Six)
    requires q % 16 == 0
    ensures Encode([Upper(p, q)]) == [Letter(p), Letter(q), '=', '=']
  {
    hide First, Second, Third, Fourth, Upper, Middle, Lower, Letter, Value;
    Recut(p, q, 0, 0);
    RecutLast(p, q, 0);
  }

  lemma LastTwoEncoded(p: Six, q: Six, r: Six)
    requires r % 4 == 0
    ensures Encode([Upper(p, q), Middle(q, r)]) == [Letter(p), Letter(q), Letter(r), '=']
  {
    hide First, Second, Third, Fourth, Upper, Middle, Lower, Letter, Value;
    Recut(p, q, r, 0);
    RecutLast(p, q, r);
  }

  lemma ThreeEncoded(p: Six, q: Six, r: Six, t: Six, more: seq<Byte>)
    ensures Encode([Upper(p, q), Middle(q, r), Lower(r, t)] + more)
         == [Letter(p), Letter(q), Letter(r), Letter(t)] + Encode(more)
  {
    hide First, Second, Third, Fourth, Upper, Middle, Lower, Letter, Value;
    Recut(p, q, r, t);
    var all := [Upper(p, q), Middle(q, r), Lower(r, t)] + more;
    assert all[3..] == more;
  }

  /** What the decoder accepts is the encoding of what it returns: each byte sequence has one accepted spelling. */
  lemma {:induction false} OneSpelling(s: string)
    requires Decode(s).Some?
    ensures Encode(Decode(s).value) == s
    decreases |s|
  {
    hide First, Second, Third, Fourth, Upper, Middle, Lower, Letter, Value;
    if s != "" {
      if |s| == 4 && s[2] == '=' && s[3] == '=' {
        LastOneEncoded(Value(s[0]).value, Value(s[1]).value);
      } else if |s| == 4 && s[3] == '=' {
        LastTwoEncoded(Value(s[0]).value, Value(s[1]).value, Value(s[2]).value);
        ValueLetter(s[2]);
      } else {
        ThreeEncoded(Value(s[0]).value, Value(s[1]).value, Value(s[2]).value, Value(s[3]).value, Decode(s[4..]).value);
        ValueLetter(s[2]);
        ValueLetter(s[3]);
        OneSpelling(s[4..]);
      }
      ValueLetter(s[0]);
      ValueLetter(s[1]);
    }
  }

  /** Padding characters after n bytes. */
  function Padding(n: nat): nat {
    (3 - n % 3) % 3
  }

  lemma ThreeLess(n: nat)
    requires n >= 3
    ensures Padding(n - 3) == Padding(n) && (n - 3) % 3 == n % 3
    ensures (n + 2) / 3 == (n - 1) / 3 + 1
  {
  }

  predicate Shaped(s: string, pad: nat) {
    && pad <= |s|
    && (forall i :: 0 <= i < |s| - pad ==> Value(s[i]).Some?)
    && (forall i :: |s| - pad <= i < |s| ==> s[i] == '=')
  }

  lemma LettersShaped(p: Six, q: Six, r: Six, t: Six)
    ensures Shaped([Letter(p), Letter(q), Letter(r), Letter(t)], 0)
    ensures Shaped([Letter(p), Letter(q), Letter(r), '='], 1)
    ensures Shaped([Letter(p), Letter(q), '=', '='], 2)
  {
    LetterValue(p);
    LetterValue(q);
    LetterValue(r);
    LetterValue(t);
  }

  lemma ShapedAppend(s: string, t: string, pad: nat)
    requires Shaped(s, 0) && Shaped(t, pad)
    ensures Shaped(s + t, pad)
  {
  }

  lemma {:induction false} LengthOfEncode(data: seq<Byte>)
    ensures |Encode(data)| == 4 * ((|data| + 2) / 3)
    decreases |data|
  {
    if |data| >= 3 {
      LengthOfEncode(data[3..]);
      ThreeLess(|data|);
    }
  }

  lemma OneGroupShaped(a: Byte, b: Byte, c: Byte)
    ensures Shaped(Group(a, b, c), 0)
    ensures Shaped(Encode([a, b]), 1)
    ensures Shaped(Encode([a]), 2)
  {
    LettersShaped(First(a), Second(a, b), Third(b, c), Fourth(c));
    LettersShaped(First(a), Second(a, b), Third(b, 0), 0);
    LettersShaped(First(a), Second(a, 0), 0, 0);
  }

  /** Four characters per started group of three bytes; padding fills the last group; all else is in the alphabet. */
  lemma {:induction false} Shape(data: seq<Byte>)
    ensures |Encode(data)| == 4 * ((|data| + 2) / 3)
    ensures Shaped(Encode(data), Padding(|data|))
    decreases |data|
  {
    LengthOfEncode(data);
    if |data| == 1 {
      OneGroupShaped(data[0], 0, 0);
      assert data == [data[0]];
    } else if |data| == 2 {
      OneGroupShaped(data[0], data[1], 0);
      assert data == [data[0], data[1]];
    } else if |data| >= 3 {
      OneGroupShaped(data[0], data[1], data[2]);
      Shape(data[3..]);
      ThreeLess(|data|);
      ShapedAppend(Group(data[0], data[1], data[2]), Encode(data[3..]), Padding(|data|));
    }
  }

  // ---- the implementation ------------------------------------------------------

  function At(data: seq<Byte>, i: nat): Byte {
    if i < |data| then data[i] else 0
  }

  /** All groups from byte i on, missing bytes taken as zero. */
  function Groups(data: seq<Byte>, i: nat): string
    decreases |data| - i
  {
    if i >= |data| then ""
    else Group(At(data, i), At(data, i + 1), At(data, i + 2)) + Groups(data, i + 3)
  }

  /** The last one or two characters overwritten by padding. */
  function Padded(s: string, rest: nat): string
    requires rest == 0 || |s| >= 2
  {
    if rest == 0 then s
    else
      var once := s[|s| - 1 := '='];
      if rest == 1 then once[|s| - 2 := '='] else once
  }

  lemma PaddedAppend(head: string, tail: string, rest: nat)
    requires rest == 0 || |tail| >= 2
    ensures Padded(head + tail, rest) == head + Padded(tail, rest)
  {
  }

  lemma {:induction false} PaddedGroups(data: seq<Byte>, i: nat)
    requires i <= |data|
    ensures (|data| - i) % 3 == 0 || |Groups(data, i)| >= 4
    ensures Padded(Groups(data, i), (|data| - i) % 3) == Encode(data[i..])
    decreases |data| - i
  {
    if |data| - i >= 3 {
      PaddedGroups(data, i + 3);
      ThreeLess(|data| - i);
      assert data[i..][3..] == data[i + 3..];
      PaddedAppend(Group(data[i], data[i + 1], data[i + 2]), Groups(data, i + 3), (|data| - i) % 3);
    } else if |data| - i > 0 {
      assert Groups(data, i + 3) == "";
    }
  }

  // The 24-bit group cut into six-bit values by shift and mask.

  lemma TopBits(a: Byte, b: Byte, c: Byte)
    ensures (a * 0x1_0000 + b * 0x100 + c) / 0x4_0000 % 64 == First(a)
    ensures (a * 0x1_0000 + b * 0x100 + c) / 0x1000 % 64 == Second(a, b)
  {
    var triple := a * 0x1_0000 + b * 0x100 + c;
    assert triple / 0x4_0000 == a / 4;
    assert triple / 0x1000 == a * 16 + b / 16;
    assert a * 16 + b / 16 == a / 4 * 64 + Second(a, b);
  }

  lemma SixBits(x: int, q: int, r: Six)
    requires x == q * 64 + r
    ensures x / 64 == q && x % 64 == r
  {
  }

  lemma LowBits(a: Byte, b: Byte, c: Byte)
    ensures (a * 0x1_0000 + b * 0x100 + c) / 64 % 64 == Third(b, c)
    ensures (a * 0x1_0000 + b * 0x100 + c) % 64 == Fourth(c)
  {
    var upper := a * 1024 + b * 4 + c / 64;
    SixBits(a * 0x1_0000 + b * 0x100 + c, upper, Fourth(c));
    SixBits(upper, a * 16 + b / 16, Third(b, c));
  }

  /** encoding_table[v] */
  method Look(v: Six) returns (c: char)
    ensures c == Letter(v)
  {
    TableLetters(v);
    c := TABLE[v];
  }

  /** One round of the loop: three bytes to four characters. */
  method PushGroup(before: string, a: Byte, b: Byte, c: Byte) returns (encoded: string)
    ensures encoded == before + Group(a, b, c)
  {
    var triple := a * 0x1_0000 + b * 0x100 + c;
    var p := Look(triple / 0x4_0000 % 64);
    var q := Look(triple / 0x1000 % 64);
    var r := Look(triple / 64 % 64);
    var t := Look(triple % 64);
    TopBits(a, b, c);
    LowBits(a, b, c);
    encoded := before + [p] + [q] + [r] + [t];
  }

  method Base64Encode(data: seq<Byte>) returns (encoded: string)
    ensures encoded == Encode(data)
  {
    encoded := "";
    var i := 0;
    while i < |data|
      invariant encoded + Groups(data, i) == Groups(data, 0)
    {
      var a := At(data, i);
      var b := At(data, i + 1);
      var c := At(data, i + 2);
      Assoc(encoded, Group(a, b, c), Groups(data, i + 3));
      encoded := PushGroup(encoded, a, b, c);
      i := i + 3;
    }
    PaddedGroups(data, 0);
    assert data[0..] == data;
    assert encoded == Groups(data, 0);
    var rest := |data| % 3;
    if rest != 0 {
      encoded := encoded[|encoded| - 1 := '='];
      if rest == 1 {
        encoded := encoded[|encoded| - 2 := '='];
      }
    }
  }
}
