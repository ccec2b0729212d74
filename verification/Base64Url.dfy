/** `base64Url` and `fromBase64Url` of apps/mobile/src/control-plane/relay-channel.ts, over `btoa`
    and `atob` as the platform defines them (sections 4 and 5 of RFC 4648). */
module Base64Url {
  import opened OrderedMap
  import opened RelayCodec

  // ------------------------------------------------------------- the alphabet

  function Letter(v: int): (c: char)
    requires 0 <= v < 64
    ensures c != '=' && c != '-' && c != '_'
  {
    if v < 26 then ('A' as int + v) as char
    else if v < 52 then ('a' as int + (v - 26)) as char
    else if v < 62 then ('0' as int + (v - 52)) as char
    else if v == 62 then '+'
    else '/'
  }

  /** The value of a letter, -1 for any other character. */
  function ValueOf(c: char): (v: int)
    ensures -1 <= v < 64
  {
    if 'A' <= c <= 'Z' then c as int - 'A' as int
    else if 'a' <= c <= 'z' then c as int - 'a' as int + 26
    else if '0' <= c <= '9' then c as int - '0' as int + 52
    else if c == '+' then 62
    else if c == '/' then 63
    else -1
  }

  lemma LetterValue(v: int)
    requires 0 <= v < 64
    ensures ValueOf(Letter(v)) == v
  {
  }

  // ------------------------------------------------------------- btoa and atob

  /** One group of up to three bytes, without padding. */
  function Group(bytes: seq<Byte>): string
    requires 1 <= |bytes| <= 3
  {
    var b0 := bytes[0];
    if |bytes| == 1 then [Letter(b0 / 4), Letter(b0 % 4 * 16)]
    else
      var b1 := bytes[1];
      if |bytes| == 2 then [Letter(b0 / 4), Letter(b0 % 4 * 16 + b1 / 16), Letter(b1 % 16 * 4)]
      else [Letter(b0 / 4), Letter(b0 % 4 * 16 + b1 / 16), Letter(b1 % 16 * 4 + bytes[2] / 64), Letter(bytes[2] % 64)]
  }

  function Btoa(bytes: seq<Byte>): string {
    if bytes == [] then ""
    else if |bytes| == 1 then Group(bytes) + "=="
    else if |bytes| == 2 then Group(bytes) + "="
    else Group(bytes[..3]) + Btoa(bytes[3..])
  }

  /** The text without its padding. */
  function Body(bytes: seq<Byte>): string {
    if bytes == [] then ""
    else if |bytes| <= 2 then Group(bytes)
    else Group(bytes[..3]) + Body(bytes[3..])
  }

  /** Four letters are three bytes. */
  function Ungroup(text: string): Option<seq<Byte>>
    requires |text| == 4
  {
    var (v0, v1, v2, v3) := (ValueOf(text[0]), ValueOf(text[1]), ValueOf(text[2]), ValueOf(text[3]));
    if v0 < 0 || v1 < 0 || v2 < 0 || v3 < 0 then None
    else Some([v0 * 4 + v1 / 16, v1 % 16 * 16 + v2 / 4, v2 % 4 * 64 + v3])
  }

  /** The last four characters may end in padding. */
  function LastGroup(text: string): Option<seq<Byte>>
    requires |text| == 4
  {
    var (v0, v1, v2) := (ValueOf(text[0]), ValueOf(text[1]), ValueOf(text[2]));
    if text[3] != '=' then Ungroup(text)
    else if v0 < 0 || v1 < 0 then None
    else if text[2] == '=' then Some([v0 * 4 + v1 / 16])
    else if v2 < 0 then None
    else Some([v0 * 4 + v1 / 16, v1 % 16 * 16 + v2 / 4])
  }

  /** `atob` of a text whose length is a multiple of four. */
  function Atob(text: string): Option<seq<Byte>>
    requires |text| % 4 == 0
  {
    if text == "" then Some([])
    else if |text| == 4 then LastGroup(text)
    else
      var (first, rest) := (Ungroup(text[..4]), Atob(text[4..]));
      if first.None? || rest.None? then None else Some(first.value + rest.value)
  }

  lemma {:induction false} BtoaLength(bytes: seq<Byte>)
    ensures |Btoa(bytes)| % 4 == 0
    ensures |bytes| > 0 ==> |Btoa(bytes)| >= 4
  {
    if |bytes| >= 3 {
      BtoaLength(bytes[3..]);
    }
  }

  lemma {:induction false} AtobBtoa(bytes: seq<Byte>)
    ensures |Btoa(bytes)| % 4 == 0 && Atob(Btoa(bytes)) == Some(bytes)
  {
    BtoaLength(bytes);
    if |bytes| >= 3 {
      AtobBtoa(bytes[3..]);
      BtoaLength(bytes[3..]);
      UngroupGroup(bytes[0], bytes[1], bytes[2]);
      assert bytes[..3] == [bytes[0], bytes[1], bytes[2]];
      AtobStep(Group(bytes[..3]), Btoa(bytes[3..]));
      assert bytes == bytes[..3] + bytes[3..];
    } else if |bytes| == 2 {
      AtobPair(bytes[0], bytes[1]);
      assert bytes == [bytes[0], bytes[1]];
    } else if |bytes| == 1 {
      AtobSingle(bytes[0]);
      assert bytes == [bytes[0]];
    }
  }

  lemma AtobStep(group: string, rest: string)
    requires |group| == 4 && Ungroup(group).Some?
    requires |rest| % 4 == 0 && Atob(rest).Some?
    ensures Atob(group + rest) == Some(Ungroup(group).value + Atob(rest).value)
  {
    var text := group + rest;
    if rest == "" {
      assert text == group;
      assert Ungroup(group).value + [] == Ungroup(group).value;
    } else {
      assert text[..4] == group && text[4..] == rest;
    }
  }

  lemma UngroupGroup(b0: Byte, b1: Byte, b2: Byte)
    ensures |Group([b0, b1, b2])| == 4 && Ungroup(Group([b0, b1, b2])) == Some([b0, b1, b2])
  {
    LetterValue(b0 / 4);
    LetterValue(b0 % 4 * 16 + b1 / 16);
    LetterValue(b1 % 16 * 4 + b2 / 64);
    LetterValue(b2 % 64);
  }

  lemma PairBack(b0: Byte, b1: Byte)
    ensures b0 / 4 * 4 + (b0 % 4 * 16 + b1 / 16) / 16 == b0
    ensures (b0 % 4 * 16 + b1 / 16) % 16 * 16 + b1 % 16 * 4 / 4 == b1
  {
  }

  lemma AtobPair(b0: Byte, b1: Byte)
    ensures Atob(Group([b0, b1]) + "=") == Some([b0, b1])
  {
    var (v0, v1, v2) := (b0 / 4, b0 % 4 * 16 + b1 / 16, b1 % 16 * 4);
    LetterValue(v0);
    LetterValue(v1);
    LetterValue(v2);
    PairBack(b0, b1);
    var text := [Letter(v0), Letter(v1), Letter(v2), '='];
    assert Group([b0, b1]) + "=" == text;
    assert LastGroup(text) == Some([v0 * 4 + v1 / 16, v1 % 16 * 16 + v2 / 4]);
  }

  lemma AtobSingle(b0: Byte)
    ensures Atob(Group([b0]) + "==") == Some([b0])
  {
    LetterValue(b0 / 4);
    LetterValue(b0 % 4 * 16);
  }

  // --------------------------------------------------------- the URL-safe form

  function ReplaceEach(s: string, from: char, into: char): (r: string)
    ensures |r| == |s|
    ensures forall i :: 0 <= i < |s| ==> r[i] == if s[i] == from then into else s[i]
  {
    if s == "" then "" else [if s[0] == from then into else s[0]] + ReplaceEach(s[1..], from, into)
  }

  /** `replace(/=+$/g, '')`. */
  function StripPadding(s: string): string {
    if s != "" && s[|s| - 1] == '=' then StripPadding(s[..|s| - 1]) else s
  }

  /** How many characters a text of this length lacks. */
  function Padding(length: nat): nat {
    (4 - length % 4) % 4
  }

  function Equals(n: nat): (r: string)
    ensures |r| == n
  {
    if n == 0 then "" else Equals(n - 1) + "="
  }

  /** `String.fromCharCode` of each byte. */
  function BinaryOf(bytes: seq<Byte>): string {
    if bytes == [] then "" else BinaryOf(bytes[..|bytes| - 1]) + [bytes[|bytes| - 1] as char]
  }

  /** `charCodeAt` of each character. */
  function BytesOf(binary: string): (bytes: seq<Byte>)
    requires forall i :: 0 <= i < |binary| ==> binary[i] as int < 256
    ensures |bytes| == |binary|
  {
    if binary == "" then []
    else BytesOf(binary[..|binary| - 1]) + [binary[|binary| - 1] as int]
  }

  lemma {:induction false} BytesOfBinary(bytes: seq<Byte>)
    ensures forall i :: 0 <= i < |BinaryOf(bytes)| ==> BinaryOf(bytes)[i] as int < 256
    ensures BytesOf(BinaryOf(bytes)) == bytes
  {
    if bytes != [] {
      var n := |bytes| - 1;
      BytesOfBinary(bytes[..n]);
      var binary := BinaryOf(bytes);
      assert binary[..|binary| - 1] == BinaryOf(bytes[..n]);
    }
  }

  function Encoded(bytes: seq<Byte>): string {
    StripPadding(ReplaceEach(ReplaceEach(Btoa(bytes), '+', '-'), '/', '_'))
  }

  function FromBase64Url(value: string): Option<seq<Byte>> {
    var normalized := ReplaceEach(ReplaceEach(value, '-', '+'), '_', '/');
    var padded := normalized + Equals(Padding(|normalized|));
    Atob(padded)
  }

  method ToBase64Url(value: seq<Byte>) returns (text: string)
    ensures text == Encoded(value)
  {
    var binary := "";
    for i := 0 to |value|
      invariant binary == BinaryOf(value[..i])
    {
      binary := binary + [value[i] as char];
      assert value[..i + 1][..i] == value[..i];
    }
    assert value[..|value|] == value;
    BytesOfBinary(value);
    text := Btoa(BytesOf(binary));
    text := ReplaceEach(text, '+', '-');
    text := ReplaceEach(text, '/', '_');
    text := StripPadding(text);
  }

  predicate Plain(s: string) {
    forall i :: 0 <= i < |s| ==> s[i] != '=' && s[i] != '-' && s[i] != '_'
  }

  lemma GroupIsPlain(bytes: seq<Byte>)
    requires 1 <= |bytes| <= 3
    ensures Plain(Group(bytes)) && |Group(bytes)| == |bytes| + 1
  {
  }

  lemma {:induction false} BodyIsPlain(bytes: seq<Byte>)
    ensures Plain(Body(bytes))
  {
    if |bytes| >= 3 {
      GroupIsPlain(bytes[..3]);
      BodyIsPlain(bytes[3..]);
    } else if bytes != [] {
      GroupIsPlain(bytes);
    }
  }

  lemma OnePadding()
    ensures Equals(0) == "" && Equals(1) == "=" && Equals(2) == "=="
    ensures Padding(0) == 0 && Padding(2) == 2 && Padding(3) == 1
  {
    assert Equals(2) == Equals(1) + "=" && Equals(1) == Equals(0) + "=";
  }

  /** The padding only makes the text a multiple of four long. */
  lemma {:induction false} PaddedBody(bytes: seq<Byte>)
    ensures Btoa(bytes) == Body(bytes) + Equals(Padding(|Body(bytes)|))
  {
    if |bytes| <= 2 {
      OnePadding();
      if bytes != [] {
        GroupIsPlain(bytes);
      }
    } else {
      PaddedBody(bytes[3..]);
      GroupIsPlain(bytes[..3]);
      PaddedStep(Group(bytes[..3]), Body(bytes[3..]), Btoa(bytes[3..]));
    }
  }

  lemma PaddedStep(group: string, body: string, rest: string)
    requires |group| == 4 && rest == body + Equals(Padding(|body|))
    ensures group + rest == group + body + Equals(Padding(|group + body|))
  {
    PaddingShift(|body|);
  }

  lemma PaddingShift(n: nat)
    ensures Padding(n + 4) == Padding(n)
  {
  }

  lemma {:induction false} StripEquals(s: string, n: nat)
    requires s == "" || s[|s| - 1] != '='
    ensures StripPadding(s + Equals(n)) == s
  {
    if n == 0 {
      assert s + "" == s;
    } else {
      var padded := s + Equals(n);
      assert padded[|padded| - 1] == '=';
      assert padded[..|padded| - 1] == s + Equals(n - 1);
      StripEquals(s, n - 1);
    }
  }

  function UrlSafe(s: string): (r: string)
    ensures |r| == |s|
  {
    ReplaceEach(ReplaceEach(s, '+', '-'), '/', '_')
  }

  lemma UrlSafeBack(s: string)
    requires Plain(s)
    ensures ReplaceEach(ReplaceEach(UrlSafe(s), '-', '+'), '_', '/') == s
  {
  }

  lemma {:induction false} EqualsAt(n: nat)
    ensures forall i :: 0 <= i < n ==> Equals(n)[i] == '='
  {
    if n > 0 {
      EqualsAt(n - 1);
    }
  }

  lemma UrlSafePadded(s: string, n: nat)
    ensures UrlSafe(s + Equals(n)) == UrlSafe(s) + Equals(n)
  {
    EqualsAt(n);
  }

  /** The encoding is the unpadded text in the URL-safe alphabet. */
  lemma EncodedIsBody(bytes: seq<Byte>)
    ensures Encoded(bytes) == UrlSafe(Body(bytes))
  {
    var body, pad := Body(bytes), Padding(|Body(bytes)|);
    PaddedBody(bytes);
    BodyIsPlain(bytes);
    UrlSafePadded(body, pad);
    UrlSafeEnd(body);
    StripEquals(UrlSafe(body), pad);
  }

  lemma UrlSafeEnd(s: string)
    requires Plain(s)
    ensures UrlSafe(s) == "" || UrlSafe(s)[|s| - 1] != '='
  {
  }

  /** Decoding gives back every byte sequence, through the append loop, the removal of the padding
      and the repadding. */
  lemma RoundTrip(bytes: seq<Byte>)
    ensures FromBase64Url(Encoded(bytes)) == Some(bytes)
  {
    EncodedIsBody(bytes);
    BodyIsPlain(bytes);
    PaddedBody(bytes);
    UrlSafeBack(Body(bytes));
    AtobBtoa(bytes);
  }

  /** The text holds neither padding nor a character that a URL would have to escape. */
  lemma UrlAlphabet(bytes: seq<Byte>)
    ensures forall i :: 0 <= i < |Encoded(bytes)| ==> Encoded(bytes)[i] != '=' && Encoded(bytes)[i] != '+' && Encoded(bytes)[i] != '/'
  {
    EncodedIsBody(bytes);
    BodyIsPlain(bytes);
  }

  // ------------------------------------------------------------------- RFC 4648

  /** Table 1 of RFC 4648: where its runs of letters begin and end, each run without a gap. */
  lemma LettersAreTheAlphabet(v: int)
    requires 0 <= v < 63
    ensures Letter(0) == 'A' && Letter(25) == 'Z' && Letter(26) == 'a' && Letter(51) == 'z'
    ensures Letter(52) == '0' && Letter(61) == '9' && Letter(62) == '+' && Letter(63) == '/'
    ensures v != 25 && v != 51 && v < 61 ==> Letter(v + 1) as int == Letter(v) as int + 1
  {
  }

  /** The test vectors of section 10 of RFC 4648. */
  lemma ShortVectors()
    ensures Btoa([]) == ""
    ensures Btoa([102]) == "Zg==" && Btoa([102, 111]) == "Zm8=" && Btoa([102, 111, 111]) == "Zm9v"
  {
    assert [102, 111, 111][3..] == [];
    assert [102, 111, 111][..3] == [102, 111, 111];
  }

  lemma BtoaGroups(first: seq<Byte>, rest: seq<Byte>)
    requires |first| == 3
    ensures Btoa(first + rest) == Group(first) + Btoa(rest)
  {
    assert (first + rest)[..3] == first && (first + rest)[3..] == rest;
  }
}
