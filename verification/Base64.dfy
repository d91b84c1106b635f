/** encoding/base64.StdEncoding: the alphabet and padding of section 4 of RFC 4648,
    with the decoder's two leniencies (CR and LF are skipped, spare bits are ignored). */
module Base64 {
  import opened Prelude

  type sextet = x: int | 0 <= x < 64

  /** One group of four characters: one, two or three bytes. */
  datatype Quantum =
    | One(v0: sextet, v1: sextet)
    | Two(v0: sextet, v1: sextet, v2: sextet)
    | Three(v0: sextet, v1: sextet, v2: sextet, v3: sextet)
  {
    /** The bits the padding leaves unused are zero. */
    predicate SpareBitsZero() {
      match this
      case One(_, v1) => v1 % 16 == 0
      case Two(_, _, v2) => v2 % 4 == 0
      case Three(_, _, _, _) => true
    }
  }

  // -- bytes and sextets ---------------------------------------------------

  function Pack(b: Bytes): Quantum
    requires 1 <= |b| <= 3
  {
    if |b| == 1 then One(b[0] / 4, b[0] % 4 * 16)
    else if |b| == 2 then Two(b[0] / 4, b[0] % 4 * 16 + b[1] / 16, b[1] % 16 * 4)
    else Three(b[0] / 4, b[0] % 4 * 16 + b[1] / 16, b[1] % 16 * 4 + b[2] / 64, b[2] % 64)
  }

  function Unpack(q: Quantum): (b: Bytes)
    ensures |b| == if q.One? then 1 else if q.Two? then 2 else 3
  {
    match q
    case One(v0, v1) =>
      var b0: byte := v0 * 4 + v1 / 16;
      [b0]
    case Two(v0, v1, v2) =>
      var b0: byte, b1: byte := v0 * 4 + v1 / 16, v1 % 16 * 16 + v2 / 4;
      [b0, b1]
    case Three(v0, v1, v2, v3) =>
      var b0: byte, b1: byte, b2: byte := v0 * 4 + v1 / 16, v1 % 16 * 16 + v2 / 4, v2 % 4 * 64 + v3;
      [b0, b1, b2]
  }

  lemma UnpackPack(b: Bytes)
    requires 1 <= |b| <= 3
    ensures Unpack(Pack(b)) == b
    ensures Pack(b).SpareBitsZero()
    ensures Pack(b).Three? <==> |b| == 3
  {}

  /** The bits of two neighbouring sextets, joined into a byte, come apart again. */
  lemma Rejoins(high: nat, low: nat, size: nat)
    requires size in {4, 16, 64} && low < size
    ensures (high * size + low) / size == high && (high * size + low) % size == low
  {}

  lemma PackUnpack(q: Quantum)
    ensures Pack(Unpack(q)) == q <==> q.SpareBitsZero()
  {
    Rejoins(q.v0, q.v1 / 16, 4);
    if !q.One? {
      Rejoins(q.v1 % 16, q.v2 / 4, 16);
    }
    if q.Three? {
      Rejoins(q.v2 % 4, q.v3, 64);
    }
  }

  // -- sextets and characters ----------------------------------------------

  function EncodeSextet(v: sextet): char {
    if v < 26 then ('A' as int + v) as char
    else if v < 52 then ('a' as int + (v - 26)) as char
    else if v < 62 then ('0' as int + (v - 52)) as char
    else if v == 62 then '+'
    else '/'
  }

  function DecodeSextet(c: char): Option<sextet> {
    if 'A' <= c <= 'Z' then Some(c as int - 'A' as int)
    else if 'a' <= c <= 'z' then Some(c as int - 'a' as int + 26)
    else if '0' <= c <= '9' then Some(c as int - '0' as int + 52)
    else if c == '+' then Some(62)
    else if c == '/' then Some(63)
    else None
  }

  predicate IsNewline(c: char) {
    c == '\r' || c == '\n'
  }

  lemma SextetRoundTrip(v: sextet)
    ensures DecodeSextet(EncodeSextet(v)) == Some(v)
    ensures EncodeSextet(v) != '=' && !IsNewline(EncodeSextet(v))
  {}

  lemma SextetCanonical(c: char)
    ensures DecodeSextet(c).Some? ==> EncodeSextet(DecodeSextet(c).value) == c && c != '='
  {}

  function Write(q: Quantum): (s: string)
    ensures |s| == 4
  {
    match q
    case One(v0, v1) => [EncodeSextet(v0), EncodeSextet(v1), '=', '=']
    case Two(v0, v1, v2) => [EncodeSextet(v0), EncodeSextet(v1), EncodeSextet(v2), '=']
    case Three(v0, v1, v2, v3) => [EncodeSextet(v0), EncodeSextet(v1), EncodeSextet(v2), EncodeSextet(v3)]
  }

  function Read(s: string): Option<Quantum>
    requires |s| == 4
  {
    match (DecodeSextet(s[0]), DecodeSextet(s[1]), DecodeSextet(s[2]), DecodeSextet(s[3]))
    case (Some(v0), Some(v1), Some(v2), Some(v3)) => Some(Three(v0, v1, v2, v3))
    case (Some(v0), Some(v1), Some(v2), None) => if s[3] == '=' then Some(Two(v0, v1, v2)) else None
    case (Some(v0), Some(v1), None, None) => if s[2] == '=' && s[3] == '=' then Some(One(v0, v1)) else None
    case _ => None
  }

  lemma ReadWrite(q: Quantum)
    ensures Read(Write(q)) == Some(q)
    ensures NewlineFree(Write(q))
  {
    SextetRoundTrip(q.v0);
    SextetRoundTrip(q.v1);
    if !q.One? {
      SextetRoundTrip(q.v2);
    }
    if q.Three? {
      SextetRoundTrip(q.v3);
    }
  }

  lemma WriteRead(s: string)
    requires |s| == 4 && Read(s).Some?
    ensures Write(Read(s).value) == s
  {
    SextetCanonical(s[0]);
    SextetCanonical(s[1]);
    SextetCanonical(s[2]);
    SextetCanonical(s[3]);
  }

  // -- whole texts -----------------------------------------------------------

  function Encode(b: Bytes): string {
    if |b| == 0 then ""
    else if |b| <= 3 then Write(Pack(b))
    else Write(Pack(b[..3])) + Encode(b[3..])
  }

  /** Four characters at a time; padding may only close the text. */
  function DecodeQuanta(s: string): Option<Bytes> {
    if s == [] then Some([])
    else if |s| < 4 || Read(s[..4]).None? then None
    else
      var q := Read(s[..4]).value;
      if !q.Three? then (if |s| == 4 then Some(Unpack(q)) else None)
      else if DecodeQuanta(s[4..]).None? then None
      else Some(Unpack(q) + DecodeQuanta(s[4..]).value)
  }

  function SkipNewlines(s: string): string {
    if s == [] then []
    else if IsNewline(s[0]) then SkipNewlines(s[1..])
    else [s[0]] + SkipNewlines(s[1..])
  }

  function Decode(s: string): Option<Bytes> {
    DecodeQuanta(SkipNewlines(s))
  }

  ghost predicate NewlineFree(s: string) {
    forall i :: 0 <= i < |s| ==> !IsNewline(s[i])
  }

  lemma {:induction false} SkipNothing(s: string)
    ensures SkipNewlines(s) == s <==> NewlineFree(s)
    ensures |SkipNewlines(s)| <= |s|
    ensures NewlineFree(SkipNewlines(s))
  {
    if s != [] {
      SkipNothing(s[1..]);
      assert s == [s[0]] + s[1..];
      if SkipNewlines(s) == s && !IsNewline(s[0]) {
        assert SkipNewlines(s)[1..] == SkipNewlines(s[1..]);
      }
    }
  }

  lemma {:induction false} QuantaRoundTrip(b: Bytes)
    ensures DecodeQuanta(Encode(b)) == Some(b)
    ensures NewlineFree(Encode(b))
  {
    if 1 <= |b| <= 3 {
      UnpackPack(b);
      ReadWrite(Pack(b));
      assert Encode(b)[..4] == Encode(b);
      assert Encode(b)[4..] == [];
      assert DecodeQuanta([]) == Some([]) && b + [] == b;
    } else if |b| > 3 {
      UnpackPack(b[..3]);
      ReadWrite(Pack(b[..3]));
      QuantaRoundTrip(b[3..]);
      assert Encode(b)[..4] == Write(Pack(b[..3]));
      assert Encode(b)[4..] == Encode(b[3..]);
      assert b == b[..3] + b[3..];
    }
  }

  /** Every byte string survives the trip through text. */
  lemma RoundTrip(b: Bytes)
    ensures Decode(Encode(b)) == Some(b)
  {
    QuantaRoundTrip(b);
    SkipNothing(Encode(b));
  }

  /** The last group of a text leaves no spare bit set. */
  predicate ClosesCleanly(s: string) {
    |s| >= 4 && Read(s[|s| - 4..]).Some? ==> Read(s[|s| - 4..]).value.SpareBitsZero()
  }

  lemma LastGroupCanonical(s: string)
    requires |s| == 4 && DecodeQuanta(s).Some?
    ensures Encode(DecodeQuanta(s).value) == s <==> Read(s).value.SpareBitsZero()
    ensures Read(s).Some? && DecodeQuanta(s).value != []
  {
    assert s[..4] == s && s[4..] == [];
    var q := Read(s).value;
    assert DecodeQuanta([]) == Some([]);
    assert Unpack(q) + [] == Unpack(q);
    var b := DecodeQuanta(s).value;
    assert b == Unpack(q);
    WriteRead(s);
    PackUnpack(q);
    ReadWrite(Pack(b));
    ReadWrite(q);
  }

  lemma FirstGroupCanonical(s: string)
    requires |s| > 4 && DecodeQuanta(s).Some?
    ensures DecodeQuanta(s[4..]).Some?
    ensures DecodeQuanta(s).value != []
    ensures DecodeQuanta(s[4..]).value != [] ==>
              Encode(DecodeQuanta(s).value) == s[..4] + Encode(DecodeQuanta(s[4..]).value)
  {
    var q := Read(s[..4]).value;
    var b := DecodeQuanta(s).value;
    WriteRead(s[..4]);
    PackUnpack(q);
    assert b[..3] == Unpack(q) && b[3..] == DecodeQuanta(s[4..]).value;
  }

  lemma {:induction false} QuantaCanonical(s: string)
    requires DecodeQuanta(s).Some?
    ensures Encode(DecodeQuanta(s).value) == s <==> ClosesCleanly(s)
    ensures DecodeQuanta(s).value == [] <==> s == []
  {
    if |s| == 4 {
      LastGroupCanonical(s);
      assert s[|s| - 4..] == s;
    } else if s != [] {
      FirstGroupCanonical(s);
      QuantaCanonical(s[4..]);
      var tail := Encode(DecodeQuanta(s[4..]).value);
      assert s == s[..4] + s[4..];
      assert (s[..4] + tail)[4..] == tail;
      assert s[4..][|s[4..]| - 4..] == s[|s| - 4..];
    }
  }

  /** Which texts are the encoder's own: re-encoding an accepted text returns it exactly when
      it has no line breaks and leaves no spare bit set. */
  lemma DecodeThenEncode(s: string)
    requires Decode(s).Some?
    ensures Encode(Decode(s).value) == s <==> NewlineFree(s) && ClosesCleanly(s)
  {
    SkipNothing(s);
    QuantaCanonical(SkipNewlines(s));
    QuantaRoundTrip(Decode(s).value);
  }

  // -- the code itself ---------------------------------------------------------

  /** Table 1 of RFC 4648, section 4, eight characters a row: character v stands for v. */
  const ALPHABET: seq<string> :=
    ["ABCDEFGH", "IJKLMNOP", "QRSTUVWX", "YZabcdef", "ghijklmn", "opqrstuv", "wxyz0123", "456789+/"]

  lemma AlphabetByIndex(v: sextet)
    ensures |ALPHABET[v / 8]| == 8 && EncodeSextet(v) == ALPHABET[v / 8][v % 8]
  {}

  /** A character decodes exactly when it is in the table, and to its place there. */
  lemma DecodesByIndex(c: char, v: sextet)
    ensures DecodeSextet(c) == Some(v) <==> c == ALPHABET[v / 8][v % 8]
  {
    AlphabetByIndex(v);
    SextetRoundTrip(v);
    SextetCanonical(c);
  }

  lemma GroupIsFour(b: Bytes)
    requires b != []
    ensures |Encode(b)| == 4 + if |b| > 3 then |Encode(b[3..])| else 0
  {}

  function Groups(n: nat): nat {
    if n == 0 then 0 else if n <= 3 then 1 else 1 + Groups(n - 3)
  }

  lemma {:induction false} GroupsRoundUp(n: nat)
    ensures Groups(n) == (n + 2) / 3
  {
    if n > 3 {
      GroupsRoundUp(n - 3);
    }
  }

  lemma {:induction false} FourAGroup(b: Bytes)
    ensures |Encode(b)| == 4 * Groups(|b|)
  {
    if b != [] {
      GroupIsFour(b);
      if |b| > 3 {
        FourAGroup(b[3..]);
      }
    }
  }

  /** How many groups of three bytes there are, a shorter last one counted, decides the length. */
  lemma EncodedLength(b: Bytes)
    ensures |Encode(b)| == (|b| + 2) / 3 * 4
  {
    FourAGroup(b);
    GroupsRoundUp(|b|);
  }

  /** The text opens with the first group of these bytes: six bits a character, highest first; what
      is missing from the group counts as zero bits, and is padded. */
  predicate OpensWith(t: string, b: Bytes)
    requires b != []
  {
    var b1, b2 := if |b| > 1 then b[1] else 0, if |b| > 2 then b[2] else 0;
    && |t| >= 4
    && t[0] == EncodeSextet(b[0] / 4)
    && t[1] == EncodeSextet(b[0] % 4 * 16 + b1 / 16)
    && t[2] == (if |b| > 1 then EncodeSextet(b1 % 16 * 4 + b2 / 64) else '=')
    && t[3] == (if |b| > 2 then EncodeSextet(b2 % 64) else '=')
  }

  lemma FirstGroup(b: Bytes)
    requires b != []
    ensures OpensWith(Encode(b), b)
  {
    var group := if |b| <= 3 then b else b[..3];
    assert Encode(b)[..4] == Write(Pack(group));
  }

  /** Every group of three bytes, and the shorter one at the end, is written in its place. */
  lemma {:induction false} EncodesByPlace(b: Bytes, g: nat)
    requires 3 * g < |b|
    ensures |Encode(b)| == (|b| + 2) / 3 * 4
    ensures OpensWith(Encode(b)[4 * g..], b[3 * g..])
  {
    EncodedLength(b);
    if g == 0 {
      assert b[0..] == b && Encode(b)[0..] == Encode(b);
      FirstGroup(b);
    } else {
      EncodesByPlace(b[3..], g - 1);
      var t := Encode(b);
      assert t[4..] == Encode(b[3..]);
      assert b[3..][3 * (g - 1)..] == b[3 * g..] && t[4..][4 * (g - 1)..] == t[4 * g..];
    }
  }

  /** Line breaks are skipped wherever they stand. */
  lemma NewlinesSkipped(before: string, c: char, after: string)
    requires c == '\r' || c == '\n'
    ensures Decode(before + [c] + after) == Decode(before + after)
  {
    SkipsOne(before, c, after);
  }

  lemma {:induction false} SkipsOne(before: string, c: char, after: string)
    requires c == '\r' || c == '\n'
    ensures SkipNewlines(before + [c] + after) == SkipNewlines(before + after)
  {
    var s, t := before + [c] + after, before + after;
    if before == [] {
      assert s[1..] == after && t == after;
    } else {
      SkipsOne(before[1..], c, after);
      assert s[1..] == before[1..] + [c] + after && t[1..] == before[1..] + after;
    }
  }

  /** The shape of a text: groups of four letters, of which the last may end in one or two pads. */
  ghost predicate WellFormed(t: string) {
    && |t| % 4 == 0
    && (forall i :: 0 <= i < |t| - 2 ==> DecodeSextet(t[i]).Some?)
    && (t == []
        || (DecodeSextet(t[|t| - 2]).Some? && (DecodeSextet(t[|t| - 1]).Some? || t[|t| - 1] == '='))
        || (t[|t| - 2] == '=' && t[|t| - 1] == '='))
  }

  lemma ReadsWellFormed(s: string)
    requires |s| == 4
    ensures Read(s).Some? <==> WellFormed(s)
    ensures Read(s).Some? ==> (Read(s).value.Three? <==> forall i :: 0 <= i < 4 ==> DecodeSextet(s[i]).Some?)
  {
    assert DecodeSextet('=').None?;
  }

  /** Exactly the well-formed texts decode, whatever their spare bits. */
  lemma {:induction false} DecodesExactlyWellFormed(t: string)
    ensures DecodeQuanta(t).Some? <==> WellFormed(t)
  {
    if |t| >= 4 {
      var group, rest := t[..4], t[4..];
      ReadsWellFormed(group);
      if rest == [] {
        assert group == t;
      } else {
        DecodesExactlyWellFormed(rest);
        assert forall i :: 4 <= i < |t| ==> t[i] == rest[i - 4];
        assert forall i :: 0 <= i < 4 ==> t[i] == group[i];
        WellFormedSplits(t);
      }
    }
  }

  lemma WellFormedSplits(t: string)
    requires |t| > 4
    ensures WellFormed(t) <==> (forall i :: 0 <= i < 4 ==> DecodeSextet(t[i]).Some?) && WellFormed(t[4..])
  {
    var rest := t[4..];
    assert forall i :: 4 <= i < |t| ==> t[i] == rest[i - 4];
    if WellFormed(t) {
      assert |t| >= 8;
      assert forall i :: 0 <= i < |rest| - 2 ==> rest[i] == t[i + 4];
    }
  }
}
