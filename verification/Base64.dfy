/** Standard base64 with padding (section 4 of RFC 4648), as the core writes it and the
    renderer-side validator reads it. */
module Base64 {
  import opened Common

  type Bytes = seq<Byte>

  function Letter(n: nat): char
    requires n < 64
  {
    if n < 26 then 'A' + n as char
    else if n < 52 then 'a' + (n - 26) as char
    else if n < 62 then '0' + (n - 52) as char
    else if n == 62 then '+' else '/'
  }

  predicate InAlphabet(c: char) {
    'A' <= c <= 'Z' || 'a' <= c <= 'z' || '0' <= c <= '9' || c == '+' || c == '/'
  }

  function Value(c: char): (n: nat)
    requires InAlphabet(c)
    ensures n < 64
  {
    if 'A' <= c <= 'Z' then (c - 'A') as nat
    else if 'a' <= c <= 'z' then (c - 'a') as nat + 26
    else if '0' <= c <= '9' then (c - '0') as nat + 52
    else if c == '+' then 62 else 63
  }

  lemma LettersAreDistinct(n: nat)
    requires n < 64
    ensures InAlphabet(Letter(n)) && Value(Letter(n)) == n && Letter(n) != '='
  {}

  // ---- Groups ----

  function Group3(a: Byte, b: Byte, c: Byte): string {
    [Letter(a / 4), Letter(a % 4 * 16 + b / 16), Letter(b % 16 * 4 + c / 64), Letter(c % 64)]
  }

  function Group2(a: Byte, b: Byte): string {
    [Letter(a / 4), Letter(a % 4 * 16 + b / 16), Letter(b % 16 * 4), '=']
  }

  function Group1(a: Byte): string { [Letter(a / 4), Letter(a % 4 * 16), '=', '='] }

  function Encode(bytes: Bytes): string {
    if bytes == [] then []
    else if |bytes| == 1 then Group1(bytes[0])
    else if |bytes| == 2 then Group2(bytes[0], bytes[1])
    else Group3(bytes[0], bytes[1], bytes[2]) + Encode(bytes[3..])
  }

  /** A group of the validator's pattern: four letters, or a last group with padding. */
  predicate FullGroup(g: string) { |g| == 4 && forall i :: 0 <= i < 4 ==> InAlphabet(g[i]) }

  predicate PaddedGroup(g: string) {
    && |g| == 4 && InAlphabet(g[0]) && InAlphabet(g[1]) && g[3] == '='
    && (InAlphabet(g[2]) || g[2] == '=')
  }

  predicate Shape(text: string) {
    text == [] || (|text| == 4 && PaddedGroup(text)) || (4 <= |text| && FullGroup(text[..4]) && Shape(text[4..]))
  }

  function DecodeGroup(g: string): Bytes
    requires FullGroup(g) || PaddedGroup(g)
  {
    var a, b := Value(g[0]), Value(g[1]);
    if g[2] == '=' then [a * 4 + b / 16]
    else
      var c := Value(g[2]);
      if g[3] == '=' then [a * 4 + b / 16, b % 16 * 16 + c / 4]
      else [a * 4 + b / 16, b % 16 * 16 + c / 4, c % 4 * 64 + Value(g[3])]
  }

  /** Bits left over in a padded group are ignored. */
  function Decode(text: string): Bytes
    requires Shape(text)
  {
    if text == [] then []
    else if PaddedGroup(text[..4]) then DecodeGroup(text[..4])
    else DecodeGroup(text[..4]) + Decode(text[4..])
  }

  /** Splitting three bytes into sextets loses nothing. */
  lemma SextetsRejoin(a: Byte, b: Byte, c: Byte)
    ensures a / 4 * 4 + (a % 4 * 16 + b / 16) / 16 == a
    ensures (a % 4 * 16 + b / 16) % 16 * 16 + (b % 16 * 4 + c / 64) / 4 == b
    ensures (b % 16 * 4 + c / 64) % 4 * 64 + c % 64 == c
  {}

  lemma Group3RoundTrip(a: Byte, b: Byte, c: Byte)
    ensures FullGroup(Group3(a, b, c)) && !PaddedGroup(Group3(a, b, c)) && DecodeGroup(Group3(a, b, c)) == [a, b, c]
  {
    LettersAreDistinct(a / 4);
    LettersAreDistinct(a % 4 * 16 + b / 16);
    LettersAreDistinct(b % 16 * 4 + c / 64);
    LettersAreDistinct(c % 64);
    SextetsRejoin(a, b, c);
    hide Letter, Value, InAlphabet;
  }

  lemma Group2RoundTrip(a: Byte, b: Byte)
    ensures PaddedGroup(Group2(a, b)) && DecodeGroup(Group2(a, b)) == [a, b]
  {
    LettersAreDistinct(a / 4);
    LettersAreDistinct(a % 4 * 16 + b / 16);
    LettersAreDistinct(b % 16 * 4);
    SextetsRejoin(a, b, 0);
    hide Letter, Value, InAlphabet;
  }

  lemma Group1RoundTrip(a: Byte)
    ensures PaddedGroup(Group1(a)) && DecodeGroup(Group1(a)) == [a]
  {
    LettersAreDistinct(a / 4);
    LettersAreDistinct(a % 4 * 16);
    SextetsRejoin(a, 0, 0);
    hide Letter, Value, InAlphabet;
  }

  lemma DecodeFullGroup(group: string, rest: string)
    requires FullGroup(group) && !PaddedGroup(group) && Shape(rest)
    ensures Shape(group + rest) && Decode(group + rest) == DecodeGroup(group) + Decode(rest)
  {
    hide DecodeGroup;
    assert (group + rest)[..4] == group && (group + rest)[4..] == rest;
  }

  lemma DecodeLastGroup(group: string)
    requires PaddedGroup(group)
    ensures Shape(group) && Decode(group) == DecodeGroup(group)
  {
    hide DecodeGroup;
    assert group[..4] == group;
  }

  /** Decoding undoes encoding, for all bytes; the text has the validator's shape and four
      characters for every three bytes begun. */
  lemma {:induction false} EncodeDecode(bytes: Bytes)
    ensures Shape(Encode(bytes)) && Decode(Encode(bytes)) == bytes
    ensures |Encode(bytes)| == (|bytes| + 2) / 3 * 4
  {
    hide Shape, Decode, DecodeGroup, Group1, Group2, Group3;
    if bytes == [] {
      NothingDecodes();
    } else if |bytes| == 1 {
      Group1RoundTrip(bytes[0]);
      DecodeLastGroup(Encode(bytes));
    } else if |bytes| == 2 {
      Group2RoundTrip(bytes[0], bytes[1]);
      DecodeLastGroup(Encode(bytes));
    } else {
      Group3RoundTrip(bytes[0], bytes[1], bytes[2]);
      EncodeDecode(bytes[3..]);
      DecodeFullGroup(Group3(bytes[0], bytes[1], bytes[2]), Encode(bytes[3..]));
      assert bytes == [bytes[0], bytes[1], bytes[2]] + bytes[3..];
    }
  }

  lemma GroupsOfVectors()
    ensures Group1(102) == "Zg==" && Group2(102, 111) == "Zm8=" && Group3(102, 111, 111) == "Zm9v"
    ensures Group1(98) == "Yg==" && Group2(98, 97) == "YmE=" && Group3(98, 97, 114) == "YmFy"
    ensures Group3(0xFB, 0xEF, 0xFF) == "++//"
  {}

  /** The bytes of "foobar" in ASCII. */
  const FOOBAR: Bytes := [102, 111, 111, 98, 97, 114]

  lemma LongVectors()
    ensures Encode(FOOBAR[..4]) == Group3(102, 111, 111) + Group1(98)
    ensures Encode(FOOBAR[..5]) == Group3(102, 111, 111) + Group2(98, 97)
    ensures Encode(FOOBAR) == Group3(102, 111, 111) + Group3(98, 97, 114)
  {
    hide Group1, Group2, Group3;
    assert FOOBAR[..4][3..] == [98] && FOOBAR[..5][3..] == [98, 97] && FOOBAR[3..] == [98, 97, 114];
    assert [98, 97, 114][3..] == [];
    assert Encode([98, 97, 114]) == Group3(98, 97, 114) + Encode([]);
  }

  /** The test vectors of section 10 of RFC 4648, and the two letters they do not use. */
  lemma RfcVectors()
    ensures Encode(FOOBAR[..0]) == ""
    ensures Encode(FOOBAR[..1]) == "Zg==" && Encode(FOOBAR[..2]) == "Zm8=" && Encode(FOOBAR[..3]) == "Zm9v"
    ensures Encode(FOOBAR[..4]) == "Zm9vYg==" && Encode(FOOBAR[..5]) == "Zm9vYmE=" && Encode(FOOBAR) == "Zm9vYmFy"
    ensures Encode([0xFB, 0xEF, 0xFF]) == "++//"
  {
    hide Group1, Group2, Group3;
    GroupsOfVectors();
    LongVectors();
    assert FOOBAR[..3][3..] == [] && [0xFB, 0xEF, 0xFF][3..] == [];
    assert Encode(FOOBAR[..3]) == Group3(102, 111, 111) + Encode([]);
  }

  lemma NothingDecodes()
    ensures Shape([]) && Decode([]) == []
  {}

  /** A text is canonical, that is, equal to the re-encoding of what it decodes to, exactly when
      it is some bytes' encoding. */
  lemma CanonicalIffEncoding(text: string)
    ensures (Shape(text) && Encode(Decode(text)) == text) <==> exists bytes: Bytes :: text == Encode(bytes)
  {
    if bytes: Bytes :| text == Encode(bytes) { EncodeDecode(bytes); }
  }
}
