/** Keys as text: base64.StdEncoding and wgtypes.Key. */
module Base64 {
  import opened Wrappers
  import opened WgTypes
  import opened Text

  // ----- the alphabet -----

  function SextetChar(v: int): char
    requires 0 <= v < 64
  {
    if v < 26 then ('A' as int + v) as char
    else if v < 52 then ('a' as int + v - 26) as char
    else if v < 62 then ('0' as int + v - 52) as char
    else if v == 62 then '+'
    else '/'
  }

  /** The value of a character of the alphabet, or 64. */
  function Sextet(c: char): (v: nat)
    ensures v <= 64
  {
    if 'A' <= c <= 'Z' then c as int - 'A' as int
    else if 'a' <= c <= 'z' then c as int - 'a' as int + 26
    else if '0' <= c <= '9' then c as int - '0' as int + 52
    else if c == '+' then 62
    else if c == '/' then 63
    else 64
  }

  predicate InAlphabet(s: string) {
    forall i :: 0 <= i < |s| ==> Sextet(s[i]) < 64
  }

  // ----- encoding -----

  /** The four characters of three bytes. */
  function Quad(x: byte, y: byte, z: byte): (q: string)
    ensures |q| == 4
  {
    [SextetChar(x / 4), SextetChar(x % 4 * 16 + y / 16), SextetChar(y % 16 * 4 + z / 64), SextetChar(z % 64)]
  }

  function EncodeBytes(b: seq<byte>): string
  {
    if b == [] then []
    else if |b| == 1 then Quad(b[0], 0, 0)[..2] + "=="
    else if |b| == 2 then Quad(b[0], b[1], 0)[..3] + "="
    else Quad(b[0], b[1], b[2]) + EncodeBytes(b[3..])
  }

  // ----- decoding -----

  /** Newlines are ignored wherever they are. */
  function WithoutNewlines(s: string): string
  {
    if s == [] then []
    else
      var c := s[|s| - 1];
      WithoutNewlines(s[..|s| - 1]) + if c == '\r' || c == '\n' then [] else [c]
  }

  /** Four sextets at a time; only the last four may be padded, and spare bits are ignored. */
  function DecodeQuads(s: string): Option<seq<byte>>
  {
    if s == [] then Some([])
    else if |s| < 4 || !InAlphabet(s[..2]) then None
    else
      var a, b, c, d := Sextet(s[0]), Sextet(s[1]), Sextet(s[2]), Sextet(s[3]);
      var first := a * 4 + b / 16;
      if s[2] == '=' && s[3] == '=' then
        if |s| == 4 then Some([first]) else None
      else if c == 64 then None
      else
        var second := b % 16 * 16 + c / 4;
        if s[3] == '=' then
          if |s| == 4 then Some([first, second]) else None
        else if d == 64 then None
        else
          match DecodeQuads(s[4..])
          case Some(rest) => Some([first, second, c % 4 * 64 + d] + rest)
          case None => None
  }

  function Decode(s: string): Option<seq<byte>> {
    DecodeQuads(WithoutNewlines(s))
  }

  // ----- keys -----

  function KeyText(k: Key): string {
    EncodeBytes(k)
  }

  /** wgtypes.ParseKey */
  function ReadKey(s: string): Option<Key> {
    match Decode(s)
    case Some(b) => if |b| == KEY_LEN then Some(b) else None
    case None => None
  }

  /** parseKey of wg(8) files: the text must be the canonical one. */
  function ReadCanonicalKey(s: string): Option<Key> {
    var k := ReadKey(s);
    if k.Some? && KeyText(k.value) != s then None else k
  }

  // ----- laws -----

  lemma {:induction false} SextetRoundTrip(v: int)
    requires 0 <= v < 64
    ensures Sextet(SextetChar(v)) == v && Graphic(SextetChar(v)) && SextetChar(v) != '='
  {
  }

  /** Three bytes are recovered from their four sextets. */
  lemma {:induction false} SextetsOfBytes(x: byte, y: byte, z: byte)
    ensures var a, b, c, d := x / 4, x % 4 * 16 + y / 16, y % 16 * 4 + z / 64, z % 64;
            && 0 <= a < 64 && 0 <= b < 64 && 0 <= c < 64 && 0 <= d < 64
            && a * 4 + b / 16 == x && b % 16 * 16 + c / 4 == y && c % 4 * 64 + d == z
  {
  }

  /** The four characters stand for the three bytes. */
  predicate Spells(q: string, x: byte, y: byte, z: byte) {
    && |q| == 4 && InAlphabet(q) && Token(q) && q[2] != '=' && q[3] != '='
    && Sextet(q[0]) * 4 + Sextet(q[1]) / 16 == x
    && Sextet(q[1]) % 16 * 16 + Sextet(q[2]) / 4 == y
    && Sextet(q[2]) % 4 * 64 + Sextet(q[3]) == z
  }

  lemma {:induction false} QuadSpells(x: byte, y: byte, z: byte)
    ensures Spells(Quad(x, y, z), x, y, z)
  {
    hide SextetChar, Sextet;
    SextetsOfBytes(x, y, z);
    SextetRoundTrip(x / 4);
    SextetRoundTrip(x % 4 * 16 + y / 16);
    SextetRoundTrip(y % 16 * 4 + z / 64);
    SextetRoundTrip(z % 64);
  }

  /** Four sextets that are not padding, before a text that can be decoded. */
  lemma {:induction false} DecodeSextets(s: string)
    requires |s| >= 4 && InAlphabet(s[..4]) && s[2] != '=' && s[3] != '=' && DecodeQuads(s[4..]).Some?
    ensures DecodeQuads(s).Some?
    ensures DecodeQuads(s).value ==
            [Sextet(s[0]) * 4 + Sextet(s[1]) / 16, Sextet(s[1]) % 16 * 16 + Sextet(s[2]) / 4,
             Sextet(s[2]) % 4 * 64 + Sextet(s[3])]
            + DecodeQuads(s[4..]).value
  {
    hide Sextet;
    assert s[..4][0] == s[0] && s[..4][1] == s[1] && s[..4][2] == s[2] && s[..4][3] == s[3];
  }

  lemma {:induction false} DecodeQuad(q: string, rest: string, x: byte, y: byte, z: byte)
    requires Spells(q, x, y, z) && DecodeQuads(rest).Some?
    ensures DecodeQuads(q + rest) == Some([x, y, z] + DecodeQuads(rest).value)
  {
    hide Sextet;
    var s := q + rest;
    assert s[..4] == q && s[4..] == rest;
    assert s[0] == q[0] && s[1] == q[1] && s[2] == q[2] && s[3] == q[3];
    DecodeSextets(s);
  }

  lemma {:induction false} DecodePadded(q: string, x: byte, y: byte, z: byte)
    requires Spells(q, x, y, z)
    ensures DecodeQuads(q[..2] + "==") == Some([x]) && DecodeQuads(q[..3] + "=") == Some([x, y])
  {
    hide Sextet;
    var s, t := q[..2] + "==", q[..3] + "=";
    assert s[0] == q[0] && s[1] == q[1] && s[2] == '=' && s[3] == '=' && s[..2] == q[..2];
    assert t[0] == q[0] && t[1] == q[1] && t[2] == q[2] && t[3] == '=' && t[..2] == q[..2];
  }

  /** Decoding undoes encoding, for any number of bytes. */
  lemma {:induction false} DecodeEncode(b: seq<byte>)
    ensures DecodeQuads(EncodeBytes(b)) == Some(b)
  {
    hide Spells, Quad;
    if b == [] {
    } else {
      var x, y, z := b[0], if |b| > 1 then b[1] else 0, if |b| > 2 then b[2] else 0;
      QuadSpells(x, y, z);
      var q := Quad(x, y, z);
      DecodePadded(q, x, y, z);
      if |b| == 1 {
        assert b == [x];
      } else if |b| == 2 {
        assert b == [x, y];
      } else {
        DecodeEncode(b[3..]);
        DecodeQuad(q, EncodeBytes(b[3..]), x, y, z);
        assert b == [x, y, z] + b[3..];
      }
    }
  }

  lemma {:induction false} EncodeIsToken(b: seq<byte>)
    ensures Token(EncodeBytes(b))
  {
    if b == [] {
    } else {
      QuadSpells(b[0], if |b| > 1 then b[1] else 0, if |b| > 2 then b[2] else 0);
      if |b| >= 3 {
        EncodeIsToken(b[3..]);
      }
    }
  }

  lemma {:induction false} TokenHasNoNewlines(s: string)
    requires Token(s)
    ensures WithoutNewlines(s) == s
  {
    if s == [] {
    } else {
      TokenHasNoNewlines(s[..|s| - 1]);
      assert Graphic(s[|s| - 1]);
      assert s == s[..|s| - 1] + [s[|s| - 1]];
    }
  }

  lemma {:induction false} KeyTextReads(k: Key)
    ensures ReadKey(KeyText(k)) == Some(k) && Token(KeyText(k))
  {
    DecodeEncode(k);
    EncodeIsToken(k);
    TokenHasNoNewlines(KeyText(k));
  }

  /** A file's key is accepted exactly when it is the text Key.String writes. */
  lemma {:induction false} CanonicalExactly(s: string, k: Key)
    ensures ReadCanonicalKey(s) == Some(k) <==> s == KeyText(k)
  {
    KeyTextReads(k);
  }

  /** Distinct keys have distinct texts. */
  lemma {:induction false} KeyTextInjective(a: Key, b: Key)
    requires KeyText(a) == KeyText(b)
    ensures a == b
  {
    KeyTextReads(a);
    KeyTextReads(b);
  }
}
