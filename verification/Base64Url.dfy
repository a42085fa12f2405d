/** Unpadded base64url (sections 5 and 3.2 of RFC 4648), and the tolerant decoder behind it. */
module Base64Url {
  import opened Wrappers
  import opened Strings

  type Byte = b: nat | b < 256

  // ---------------------------------------------------------------- alphabet

  function ToChar(v: nat): char
    requires v < 64
  {
    if v < 26 then ('A' as int + v) as char
    else if v < 52 then ('a' as int + v - 26) as char
    else if v < 62 then ('0' as int + v - 52) as char
    else if v == 62 then '-' else '_'
  }

  /** The decoder accepts the standard alphabet's '+' and '/' as well. */
  function FromChar(c: char): (v: Option<nat>)
    ensures v.Some? ==> v.value < 64
  {
    if 'A' <= c <= 'Z' then Some(c as int - 'A' as int)
    else if 'a' <= c <= 'z' then Some(c as int - 'a' as int + 26)
    else if '0' <= c <= '9' then Some(c as int - '0' as int + 52)
    else if c == '-' || c == '+' then Some(62)
    else if c == '_' || c == '/' then Some(63)
    else None
  }

  lemma AlphabetRoundTrip(v: nat)
    requires v < 64
    ensures FromChar(ToChar(v)) == Some(v) && ToChar(v) != '=' && ToChar(v) != '.'
  {
  }

  /** The alphabet: letters, small letters, digits, '-' and '_', each run in its order; '+' and '/'
      read like '-' and '_'. */
  lemma AlphabetIsUrlSafe(v: nat)
    requires v < 64
    ensures v < 26 ==> ToChar(v) as int == 'A' as int + v
    ensures 26 <= v < 52 ==> ToChar(v) as int == 'a' as int + (v - 26)
    ensures 52 <= v < 62 ==> ToChar(v) as int == '0' as int + (v - 52)
    ensures ToChar(62) == '-' && ToChar(63) == '_'
    ensures FromChar('+') == FromChar('-') == Some(62) && FromChar('/') == FromChar('_') == Some(63)
    ensures forall c :: FromChar(c) == Some(v) <==> c == ToChar(v) || (v == 62 && c == '+') || (v == 63 && c == '/')
  {
  }

  // ---------------------------------------------------------------- encoding

  function Encode3(a: Byte, b: Byte, c: Byte): (s: string)
    ensures |s| == 4
  {
    [ToChar(a / 4), ToChar(a % 4 * 16 + b / 16), ToChar(b % 16 * 4 + c / 64), ToChar(c % 64)]
  }

  function Encode2(a: Byte, b: Byte): (s: string)
    ensures |s| == 3
  {
    [ToChar(a / 4), ToChar(a % 4 * 16 + b / 16), ToChar(b % 16 * 4)]
  }

  function Encode1(a: Byte): (s: string)
    ensures |s| == 2
  {
    [ToChar(a / 4), ToChar(a % 4 * 16)]
  }

  /** The number of a character in the alphabet. */
  function Sextet(c: char): nat {
    match FromChar(c) case Some(v) => v case None => 64
  }

  /** A group's characters, read as a big-endian number in base 64, are its bytes read in base
      256; a short group is filled with zero bits on the right. */
  lemma GroupsAreBigEndian(a: Byte, b: Byte, c: Byte)
    ensures var s := Encode3(a, b, c);
            ((Sextet(s[0]) * 64 + Sextet(s[1])) * 64 + Sextet(s[2])) * 64 + Sextet(s[3]) == (a * 256 + b) * 256 + c
    ensures var s := Encode2(a, b);
            (Sextet(s[0]) * 64 + Sextet(s[1])) * 64 + Sextet(s[2]) == (a * 256 + b) * 4
    ensures var s := Encode1(a);
            Sextet(s[0]) * 64 + Sextet(s[1]) == a * 16
  {
    hide ToChar, FromChar;
    forall v: nat | v < 64 ensures Sextet(ToChar(v)) == v { AlphabetRoundTrip(v); }
  }

  /** With '=' up to a multiple of four characters. */
  function EncodePadded(raw: seq<Byte>): string {
    if |raw| == 0 then ""
    else if |raw| == 1 then Encode1(raw[0]) + "=="
    else if |raw| == 2 then Encode2(raw[0], raw[1]) + "="
    else Encode3(raw[0], raw[1], raw[2]) + EncodePadded(raw[3..])
  }

  function Encode(raw: seq<Byte>): string {
    StripRight(EncodePadded(raw), '=')
  }

  // ---------------------------------------------------------------- decoding

  /** What the decoder carries from one character to the next. */
  datatype Decoder = Decoder(quad: nat, left: nat, pads: nat, out: seq<Byte>)

  ghost predicate Sound(d: Decoder) {
    d.quad < 4 && d.left < 64 && (d.quad == 2 ==> d.left < 16) && (d.quad == 3 ==> d.left < 4)
  }

  function Accept(d: Decoder, v: nat): (r: Decoder)
    requires Sound(d) && v < 64
    ensures Sound(r)
  {
    if d.quad == 0 then Decoder(1, v, 0, d.out)
    else if d.quad == 1 then Decoder(2, v % 16, 0, d.out + [d.left * 4 + v / 16])
    else if d.quad == 2 then Decoder(3, v % 4, 0, d.out + [d.left * 16 + v / 4])
    else Decoder(0, 0, 0, d.out + [d.left * 64 + v])
  }

  /** Characters outside the alphabet are skipped; padding that completes a quad ends the
      input; input that stops inside a quad is an error. */
  function Feed(d: Decoder, text: string): Option<seq<Byte>>
    requires Sound(d)
    decreases |text|
  {
    if |text| == 0 then (if d.quad == 0 then Some(d.out) else None)
    else if text[0] == '=' then
      if d.quad >= 2 && d.quad + d.pads + 1 >= 4 then Some(d.out)
      else Feed(if d.quad >= 2 then d.(pads := d.pads + 1) else d, text[1..])
    else
      match FromChar(text[0])
      case None => Feed(d, text[1..])
      case Some(v) => Feed(Accept(d, v), text[1..])
  }

  function Padding(n: nat): (s: string)
    ensures |s| == n && forall k :: 0 <= k < n ==> s[k] == '='
  {
    seq(n, _ => '=')
  }

  /** Padded to a multiple of four. */
  function WithPadding(text: string): string {
    text + Padding((4 - |text| % 4) % 4)
  }

  function Decode(text: string): Option<seq<Byte>> {
    Feed(Decoder(0, 0, 0, []), WithPadding(text))
  }

  // ---------------------------------------------------------------- round trip

  function EncodeUnpadded(raw: seq<Byte>): string {
    if |raw| == 0 then ""
    else if |raw| == 1 then Encode1(raw[0])
    else if |raw| == 2 then Encode2(raw[0], raw[1])
    else Encode3(raw[0], raw[1], raw[2]) + EncodeUnpadded(raw[3..])
  }

  ghost predicate InAlphabet(s: string) {
    forall k :: 0 <= k < |s| ==> FromChar(s[k]).Some? && s[k] != '=' && s[k] != '.'
  }

  lemma GroupsInAlphabet(a: Byte, b: Byte, c: Byte)
    ensures InAlphabet(Encode1(a)) && InAlphabet(Encode2(a, b)) && InAlphabet(Encode3(a, b, c))
  {
    hide ToChar, FromChar;
    AlphabetRoundTrip(a / 4);
    AlphabetRoundTrip(a % 4 * 16);
    AlphabetRoundTrip(a % 4 * 16 + b / 16);
    AlphabetRoundTrip(b % 16 * 4);
    AlphabetRoundTrip(b % 16 * 4 + c / 64);
    AlphabetRoundTrip(c % 64);
  }

  lemma {:induction false} UnpaddedShape(raw: seq<Byte>)
    ensures InAlphabet(EncodeUnpadded(raw))
    ensures |EncodeUnpadded(raw)| % 4 == (if |raw| % 3 == 0 then 0 else |raw| % 3 + 1)
    ensures |EncodeUnpadded(raw)| == 0 <==> |raw| == 0
  {
    hide ToChar, FromChar, Encode1, Encode2, Encode3;
    if |raw| > 0 {
      GroupsInAlphabet(raw[0], if |raw| > 1 then raw[1] else 0, if |raw| > 2 then raw[2] else 0);
    }
    if |raw| > 2 {
      UnpaddedShape(raw[3..]);
      hide EncodeUnpadded;
    }
  }

  lemma PaddingAfterGroup(group: string, rest: string)
    requires |group| == 4
    ensures WithPadding(group + rest) == group + WithPadding(rest)
  {
    assert |group + rest| % 4 == |rest| % 4;
  }

  lemma {:induction false} PaddedIsUnpaddedAndPadding(raw: seq<Byte>)
    ensures EncodePadded(raw) == WithPadding(EncodeUnpadded(raw))
  {
    if |raw| > 2 {
      hide Encode3, WithPadding;
      PaddedIsUnpaddedAndPadding(raw[3..]);
      PaddingAfterGroup(Encode3(raw[0], raw[1], raw[2]), EncodeUnpadded(raw[3..]));
    } else {
      hide Encode1, Encode2;
    }
  }

  lemma {:induction false} StripRightOf(s: string, c: char, tail: string)
    requires forall k :: 0 <= k < |tail| ==> tail[k] == c
    requires |s| > 0 ==> s[|s|-1] != c
    ensures StripRight(s + tail, c) == s
    decreases |tail|
  {
    if |tail| == 0 {
      assert s + tail == s;
    } else {
      assert (s + tail)[..|s + tail| - 1] == s + tail[..|tail|-1];
      StripRightOf(s, c, tail[..|tail|-1]);
    }
  }

  /** Encoding never leaves a padding character, a dot, or a length of one modulo four. */
  lemma EncodedShape(raw: seq<Byte>)
    ensures Encode(raw) == EncodeUnpadded(raw) && InAlphabet(Encode(raw))
    ensures |Encode(raw)| % 4 != 1 && (|Encode(raw)| == 0 <==> |raw| == 0)
  {
    UnpaddedShape(raw);
    PaddedIsUnpaddedAndPadding(raw);
    StripRightOf(EncodeUnpadded(raw), '=', Padding((4 - |EncodeUnpadded(raw)| % 4) % 4));
  }

  /** Padding ends the input exactly if it completes a group: two after two characters, one after
      three, and before that it is skipped like any foreign character. */
  lemma PaddingCompletesGroups(d: Decoder, rest: string)
    requires Sound(d) && d.pads == 0
    ensures d.quad == 3 ==> Feed(d, "=" + rest) == Some(d.out)
    ensures d.quad == 2 ==> Feed(d, "==" + rest) == Some(d.out) && Feed(d, "=") == None
    ensures d.quad < 2 ==> Feed(d, "=" + rest) == Feed(d, rest)
  {
    assert ("=" + rest)[1..] == rest && ("==" + rest)[1..] == "=" + rest && "="[1..] == "";
  }

  lemma FeedOne(d: Decoder, v: nat, rest: string)
    requires Sound(d) && v < 64
    ensures Feed(d, [ToChar(v)] + rest) == Feed(Accept(d, v), rest)
  {
    AlphabetRoundTrip(v);
    assert ([ToChar(v)] + rest)[1..] == rest;
  }

  lemma FeedFour(out: seq<Byte>, a: Byte, b: Byte, c: Byte, rest: string)
    ensures Feed(Decoder(0, 0, 0, out), Encode3(a, b, c) + rest) == Feed(Decoder(0, 0, 0, out + [a, b, c]), rest)
  {
    hide Feed, ToChar;
    var p, q, r, s := a / 4, a % 4 * 16 + b / 16, b % 16 * 4 + c / 64, c % 64;
    var d := Decoder(0, 0, 0, out);
    FeedOne(d, p, [ToChar(q)] + ([ToChar(r)] + ([ToChar(s)] + rest)));
    FeedOne(Accept(d, p), q, [ToChar(r)] + ([ToChar(s)] + rest));
    FeedOne(Accept(Accept(d, p), q), r, [ToChar(s)] + rest);
    FeedOne(Accept(Accept(Accept(d, p), q), r), s, rest);
    assert Encode3(a, b, c) + rest == [ToChar(p)] + ([ToChar(q)] + ([ToChar(r)] + ([ToChar(s)] + rest)));
    assert p * 4 + q / 16 == a && q % 16 * 16 + r / 4 == b && r % 4 * 64 + s == c;
    assert out + [a] + [b] + [c] == out + [a, b, c];
  }

  lemma FeedEnd(d: Decoder)
    requires Sound(d) && d.pads == 0
    ensures d.quad == 0 ==> Feed(d, "") == Some(d.out)
    ensures d.quad == 2 ==> Feed(d, "==") == Some(d.out)
    ensures d.quad == 3 ==> Feed(d, "=") == Some(d.out)
  {
    assert "=="[1..] == "=";
  }

  lemma FeedLastOne(out: seq<Byte>, a: Byte)
    ensures Feed(Decoder(0, 0, 0, out), Encode1(a) + "==") == Some(out + [a])
  {
    hide Feed, ToChar;
    var d, p, q := Decoder(0, 0, 0, out), a / 4, a % 4 * 16;
    FeedOne(d, p, [ToChar(q)] + "==");
    FeedOne(Accept(d, p), q, "==");
    FeedEnd(Accept(Accept(d, p), q));
    assert Encode1(a) + "==" == [ToChar(p)] + ([ToChar(q)] + "==");
  }

  lemma FeedLastTwo(out: seq<Byte>, a: Byte, b: Byte)
    ensures Feed(Decoder(0, 0, 0, out), Encode2(a, b) + "=") == Some(out + [a, b])
  {
    hide Feed, ToChar;
    var d, p, q, r := Decoder(0, 0, 0, out), a / 4, a % 4 * 16 + b / 16, b % 16 * 4;
    FeedOne(d, p, [ToChar(q)] + ([ToChar(r)] + "="));
    FeedOne(Accept(d, p), q, [ToChar(r)] + "=");
    FeedOne(Accept(Accept(d, p), q), r, "=");
    FeedEnd(Accept(Accept(Accept(d, p), q), r));
    assert Encode2(a, b) + "=" == [ToChar(p)] + ([ToChar(q)] + ([ToChar(r)] + "="));
    assert out + [a] + [b] == out + [a, b];
  }

  lemma {:induction false} FeedPadded(out: seq<Byte>, raw: seq<Byte>)
    ensures Feed(Decoder(0, 0, 0, out), EncodePadded(raw)) == Some(out + raw)
    decreases |raw|
  {
    hide Feed, Encode1, Encode2, Encode3;
    if |raw| == 0 {
      FeedEnd(Decoder(0, 0, 0, out));
      assert out + raw == out;
    } else if |raw| == 1 {
      FeedLastOne(out, raw[0]);
      assert [raw[0]] == raw;
    } else if |raw| == 2 {
      FeedLastTwo(out, raw[0], raw[1]);
      assert [raw[0], raw[1]] == raw;
    } else {
      FeedFour(out, raw[0], raw[1], raw[2], EncodePadded(raw[3..]));
      FeedPadded(out + [raw[0], raw[1], raw[2]], raw[3..]);
      assert out + [raw[0], raw[1], raw[2]] + raw[3..] == out + raw;
    }
  }

  /** ROUND TRIP. Decoding undoes unpadded encoding, for every byte string. */
  lemma DecodeUndoesEncode(raw: seq<Byte>)
    ensures Decode(Encode(raw)) == Some(raw)
  {
    hide Feed;
    EncodedShape(raw);
    PaddedIsUnpaddedAndPadding(raw);
    FeedPadded([], raw);
    assert [] + raw == raw;
  }

  lemma EncodeIsInjective(a: seq<Byte>, b: seq<Byte>)
    requires Encode(a) == Encode(b)
    ensures a == b
  {
    DecodeUndoesEncode(a);
    DecodeUndoesEncode(b);
  }
}
