/**
  Canonical unpadded base64url, as section 5 of RFC 4648 with the zero pad bits of its section
  3.5. The strict decoder accepts exactly the encodings, and the two field patterns accept
  exactly the encodings of 32 and of 64 bytes.
 */
module Base64Url {
  import opened Common

  type Sextet = x: int | 0 <= x < 64

  // ---------------------------------------------------------------------------------------
  // The alphabet

  function Letter(v: Sextet): char {
    if v < 26 then (65 + v) as char
    else if v < 52 then (71 + v) as char
    else if v < 62 then (v - 4) as char
    else if v == 62 then '-'
    else '_'
  }

  predicate InAlphabet(c: char) {
    'A' <= c <= 'Z' || 'a' <= c <= 'z' || '0' <= c <= '9' || c == '-' || c == '_'
  }

  function Digit(c: char): (v: Sextet)
    requires InAlphabet(c)
    ensures Letter(v) == c
  {
    if 'A' <= c <= 'Z' then c as int - 65
    else if 'a' <= c <= 'z' then c as int - 71
    else if '0' <= c <= '9' then c as int + 4
    else if c == '-' then 62
    else 63
  }

  predicate AllInAlphabet(s: string) {
    forall i :: 0 <= i < |s| ==> InAlphabet(s[i])
  }

  function Digits(s: string): (r: seq<Sextet>)
    requires AllInAlphabet(s)
    ensures |r| == |s|
  {
    seq(|s|, i requires 0 <= i < |s| => Digit(s[i]))
  }

  function Letters(v: seq<Sextet>): (s: string)
    ensures |s| == |v|
  {
    seq(|v|, i requires 0 <= i < |v| => Letter(v[i]))
  }

  lemma LettersAndDigits(s: string, v: seq<Sextet>)
    ensures AllInAlphabet(Letters(v)) && Digits(Letters(v)) == v
    ensures AllInAlphabet(s) ==> Letters(Digits(s)) == s
  {
  }

  // ---------------------------------------------------------------------------------------
  // Groups of three bytes and four sextets

  function S0(x: Byte): Sextet { var v: int := x; v / 4 }
  function S1(x: Byte, y: Byte): Sextet { var v: int, w: int := x, y; v % 4 * 16 + w / 16 }
  function S2(y: Byte, z: Byte): Sextet { var v: int, w: int := y, z; v % 16 * 4 + w / 64 }
  function S3(z: Byte): Sextet { var v: int := z; v % 64 }

  function B0(a: Sextet, b: Sextet): Byte { var v: int, w: int := a, b; v * 4 + w / 16 }
  function B1(b: Sextet, c: Sextet): Byte { var v: int, w: int := b, c; v % 16 * 16 + w / 4 }
  function B2(c: Sextet, d: Sextet): Byte { var v: int, w: int := c, d; v % 4 * 64 + w }

  lemma BytesComeBack(x: Byte, y: Byte, z: Byte)
    ensures B0(S0(x), S1(x, y)) == x && B1(S1(x, y), S2(y, z)) == y && B2(S2(y, z), S3(z)) == z
    ensures S1(x, 0) % 16 == 0 && S2(y, 0) % 4 == 0
  {
  }

  lemma SextetsComeBack(a: Sextet, b: Sextet, c: Sextet, d: Sextet)
    ensures S0(B0(a, b)) == a && S1(B0(a, b), B1(b, c)) == b && S2(B1(b, c), B2(c, d)) == c && S3(B2(c, d)) == d
    ensures b % 16 == 0 ==> S1(B0(a, b), 0) == b
    ensures c % 4 == 0 ==> S2(B1(b, c), 0) == c
  {
  }

  function EncodeBytes(b: seq<Byte>): (s: seq<Sextet>) {
    if b == [] then []
    else if |b| == 1 then [S0(b[0]), S1(b[0], 0)]
    else if |b| == 2 then [S0(b[0]), S1(b[0], b[1]), S2(b[1], 0)]
    else [S0(b[0]), S1(b[0], b[1]), S2(b[1], b[2]), S3(b[2])] + EncodeBytes(b[3..])
  }

  /** The library decoder ignores the unused low bits of the last sextet. */
  function DecodeSextets(s: seq<Sextet>): Result<seq<Byte>> {
    if s == [] then Ok([])
    else if |s| == 1 then Rejected
    else if |s| == 2 then Ok([B0(s[0], s[1])])
    else if |s| == 3 then Ok([B0(s[0], s[1]), B1(s[1], s[2])])
    else
      var rest :- DecodeSextets(s[4..]);
      Ok([B0(s[0], s[1]), B1(s[1], s[2]), B2(s[2], s[3])] + rest)
  }

  /** The pad bits are zero and no sextet is left over. */
  predicate Canonical(s: seq<Sextet>) {
    && |s| % 4 != 1
    && (|s| % 4 == 2 ==> s[|s| - 1] % 16 == 0)
    && (|s| % 4 == 3 ==> s[|s| - 1] % 4 == 0)
  }

  lemma {:induction false} DecodeUndoesEncode(b: seq<Byte>)
    ensures DecodeSextets(EncodeBytes(b)) == Ok(b)
  {
    hide S0, S1, S2, S3, B0, B1, B2;
    if |b| >= 3 {
      DecodeUndoesEncode(b[3..]);
      BytesComeBack(b[0], b[1], b[2]);
      assert EncodeBytes(b)[4..] == EncodeBytes(b[3..]);
      assert b == [b[0], b[1], b[2]] + b[3..];
    } else if |b| == 2 {
      BytesComeBack(b[0], b[1], 0);
      assert b == [b[0], b[1]];
    } else if |b| == 1 {
      BytesComeBack(b[0], 0, 0);
      assert b == [b[0]];
    }
  }

  function EncodedLength(n: nat): nat {
    n / 3 * 4 + (if n % 3 == 0 then 0 else n % 3 + 1)
  }

  lemma {:induction false} EncodingIsCanonical(b: seq<Byte>)
    ensures Canonical(EncodeBytes(b)) && |EncodeBytes(b)| == EncodedLength(|b|)
  {
    hide S0, S1, S2, S3;
    if |b| >= 3 {
      EncodingIsCanonical(b[3..]);
      var s, rest := EncodeBytes(b), EncodeBytes(b[3..]);
      assert |s| == 4 + |rest| && (rest != [] ==> s[|s| - 1] == rest[|rest| - 1]);
      FourMore(|rest|);
    } else if |b| == 2 {
      BytesComeBack(b[0], b[1], 0);
    } else if |b| == 1 {
      BytesComeBack(b[0], 0, 0);
    }
  }

  lemma FourMore(n: nat)
    ensures (4 + n) % 4 == n % 4
  {
  }

  lemma {:induction false} EncodeUndoesDecode(s: seq<Sextet>)
    requires Canonical(s)
    ensures DecodeSextets(s).Ok? && EncodeBytes(DecodeSextets(s).value) == s
  {
    hide S0, S1, S2, S3, B0, B1, B2;
    if |s| >= 4 {
      EncodeUndoesDecode(s[4..]);
      SextetsComeBack(s[0], s[1], s[2], s[3]);
      assert DecodeSextets(s).value[3..] == DecodeSextets(s[4..]).value;
      assert s == [s[0], s[1], s[2], s[3]] + s[4..];
    } else if |s| == 3 {
      SextetsComeBack(s[0], s[1], s[2], 0);
      assert s == [s[0], s[1], s[2]];
    } else if |s| == 2 {
      SextetsComeBack(s[0], s[1], 0, 0);
      assert s == [s[0], s[1]];
    }
  }

  // ---------------------------------------------------------------------------------------
  // The strict decoder

  function Encode(b: seq<Byte>): string {
    Letters(EncodeBytes(b))
  }

  function DecodeStrict(value: string, expected: nat): Result<seq<Byte>> {
    if value == "" || !AllInAlphabet(value) then Rejected
    else
      var decoded :- DecodeSextets(Digits(value));
      if |decoded| != expected then Rejected
      else if Encode(decoded) != value then Rejected
      else Ok(decoded)
  }

  /** A one-to-one correspondence: a text decodes to `b` exactly when it is the encoding of `b`
      and `b` has the expected length. */
  lemma StrictDecodingIsExact(value: string, expected: nat, b: seq<Byte>)
    requires expected > 0
    ensures DecodeStrict(value, expected) == Ok(b) <==> |b| == expected && value == Encode(b)
  {
    hide EncodeBytes, DecodeSextets;
    DecodeUndoesEncode(b);
    EncodingIsCanonical(b);
    LettersAndDigits(value, EncodeBytes(b));
  }

  lemma LengthsDiffer(m: nat, n: nat)
    requires EncodedLength(m) == EncodedLength(n)
    ensures m == n
  {
  }

  lemma NotEmpty(n: nat)
    requires n > 0
    ensures EncodedLength(n) > 0
  {
  }

  /** Accepted are exactly the canonical texts of the right length. */
  lemma AcceptedTexts(value: string, expected: nat)
    requires expected > 0 && AllInAlphabet(value)
    ensures DecodeStrict(value, expected).Ok?
            <==> |value| == EncodedLength(expected) && Canonical(Digits(value))
  {
    hide EncodeBytes, DecodeSextets, Canonical, EncodedLength;
    var s := Digits(value);
    LettersAndDigits(value, s);
    if DecodeStrict(value, expected).Ok? {
      var b := DecodeStrict(value, expected).value;
      EncodingIsCanonical(b);
      LettersAndDigits(value, EncodeBytes(b));
    }
    if Canonical(s) && |value| == EncodedLength(expected) {
      EncodeUndoesDecode(s);
      var b := DecodeSextets(s).value;
      EncodingIsCanonical(b);
      LengthsDiffer(|b|, expected);
      NotEmpty(expected);
    }
  }

  // ---------------------------------------------------------------------------------------
  // The field patterns

  predicate KeyPattern(value: string) {
    && |value| == 43 && AllInAlphabet(value)
    && value[42] in {'A', 'E', 'I', 'M', 'Q', 'U', 'Y', 'c', 'g', 'k', 'o', 's', 'w', '0', '4', '8'}
  }

  predicate SignaturePattern(value: string) {
    |value| == 86 && AllInAlphabet(value) && value[85] in {'A', 'Q', 'g', 'w'}
  }

  lemma LastKeyLetter(c: char)
    requires InAlphabet(c)
    ensures c in {'A', 'E', 'I', 'M', 'Q', 'U', 'Y', 'c', 'g', 'k', 'o', 's', 'w', '0', '4', '8'} <==> Digit(c) % 4 == 0
  {
  }

  lemma LastSignatureLetter(c: char)
    requires InAlphabet(c)
    ensures c in {'A', 'Q', 'g', 'w'} <==> Digit(c) % 16 == 0
  {
  }

  /** The public-key pattern matches exactly the texts of 32-byte values. */
  lemma KeyPatternIsExact(value: string)
    ensures KeyPattern(value) <==> DecodeStrict(value, 32).Ok?
    ensures KeyPattern(value) ==>
              |DecodeStrict(value, 32).value| == 32 && Encode(DecodeStrict(value, 32).value) == value
  {
    if AllInAlphabet(value) {
      AcceptedTexts(value, 32);
      if |value| == 43 {
        LastKeyLetter(value[42]);
      }
    }
  }

  /** The signature pattern matches exactly the texts of 64-byte values. */
  lemma SignaturePatternIsExact(value: string)
    ensures SignaturePattern(value) <==> DecodeStrict(value, 64).Ok?
    ensures SignaturePattern(value) ==>
              |DecodeStrict(value, 64).value| == 64 && Encode(DecodeStrict(value, 64).value) == value
  {
    if AllInAlphabet(value) {
      AcceptedTexts(value, 64);
      if |value| == 86 {
        LastSignatureLetter(value[85]);
      }
    }
  }
}
