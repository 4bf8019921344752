/** The opaque page cursor: "<milliseconds>:<event key>" in URL-safe base64 (section 5
    of RFC 4648). Event keys are taken as their encoded bytes. */
module Cursor {
  import opened Common
  import opened Decimal

  type Byte = b: int | 0 <= b < 256
  type Bytes = seq<Byte>

  const COLON: Byte := 58

  // ---- Base64 ---------------------------------------------------------------

  /** The URL-safe alphabet. */
  function Char64(n: nat): char
    requires n < 64
  {
    if n < 26 then 'A' + n as char
    else if n < 52 then 'a' + (n - 26) as char
    else if n < 62 then '0' + (n - 52) as char
    else if n == 62 then '-' else '_'
  }

  /** The decoder's table: the standard alphabet and its URL-safe variant. */
  function Value64(c: char): (v: Option<nat>)
    ensures v.Some? ==> v.value < 64
  {
    if 'A' <= c <= 'Z' then Some(c as int - 'A' as int)
    else if 'a' <= c <= 'z' then Some(c as int - 'a' as int + 26)
    else if '0' <= c <= '9' then Some(c as int - '0' as int + 52)
    else if c == '-' || c == '+' then Some(62)
    else if c == '_' || c == '/' then Some(63)
    else None
  }

  lemma Value64OfChar64(n: nat)
    requires n < 64
    ensures Value64(Char64(n)) == Some(n) && Char64(n) != '='
  {}

  function Encode64(bs: Bytes): string {
    if |bs| == 0 then ""
    else if |bs| == 1 then [Char64(bs[0] / 4), Char64(bs[0] % 4 * 16), '=', '=']
    else if |bs| == 2 then
      [Char64(bs[0] / 4), Char64(bs[0] % 4 * 16 + bs[1] / 16), Char64(bs[1] % 16 * 4), '=']
    else
      [Char64(bs[0] / 4), Char64(bs[0] % 4 * 16 + bs[1] / 16), Char64(bs[1] % 16 * 4 + bs[2] / 64), Char64(bs[2] % 64)]
      + Encode64(bs[3..])
  }

  /** The lenient decoder, one character at a time: `quad` is the place in the group of
      four, `left` the bits not yet used, `pads` the padding seen. Characters outside
      the alphabet are skipped; enough padding ends the input; None: a group is cut
      short. */
  function Decode64(s: string, quad: nat, left: nat, pads: nat): Option<Bytes>
    requires quad < 4 && left < 64
    requires (quad == 2 ==> left < 16) && (quad == 3 ==> left < 4)
  {
    if s == "" then (if quad == 0 then Some([]) else None)
    else if s[0] == '=' then
      if quad >= 2 && quad + pads + 1 >= 4 then Some([])
      else Decode64(s[1..], quad, left, if quad >= 2 then pads + 1 else pads)
    else if Value64(s[0]).None? then Decode64(s[1..], quad, left, pads)
    else
      var v := Value64(s[0]).value;
      if quad == 0 then Decode64(s[1..], 1, v, 0)
      else if quad == 1 then Prepend(left * 4 + v / 16, Decode64(s[1..], 2, v % 16, 0))
      else if quad == 2 then Prepend(left * 16 + v / 4, Decode64(s[1..], 3, v % 4, 0))
      else Prepend(left * 64 + v, Decode64(s[1..], 0, 0, 0))
  }

  function Prepend(b: Byte, rest: Option<Bytes>): Option<Bytes> {
    if rest.None? then None else Some([b] + rest.value)
  }

  lemma SplitOne(b: Byte)
    ensures var v := b % 4 * 16;
            b / 4 < 64 && v < 64 && b / 4 * 4 + v / 16 == b && v % 16 == 0
  {}

  lemma SplitTwo(a: Byte, b: Byte)
    ensures var v, w := a % 4 * 16 + b / 16, b % 16 * 4;
            v < 64 && a / 4 * 4 + v / 16 == a && v % 16 == b / 16
            && w < 64 && b / 16 * 16 + w / 4 == b && w % 4 == 0
  {}

  lemma SplitThree(b: Byte, c: Byte)
    ensures var v := b % 16 * 4 + c / 64;
            v < 64 && b / 16 * 16 + v / 4 == b && v % 4 == c / 64 && c / 64 * 64 + c % 64 == c
  {}

  lemma DecodeOneByte(b: Byte)
    ensures Decode64(Encode64([b]), 0, 0, 0) == Some([b])
  {
    SplitOne(b);
    var s, v := Encode64([b]), b % 4 * 16;
    Value64OfChar64(b / 4);
    Value64OfChar64(v);
    assert s[2..] == ['=', '='] && s[2..][1..] == ['='];
    assert Decode64(s[2..], 2, 0, 0) == Some([]);
    assert s[1..][1..] == s[2..];
    assert Decode64(s[1..], 1, b / 4, 0) == Prepend(b, Some([]));
    assert [b] + [] == [b];
  }

  lemma DecodeTwoBytes(a: Byte, b: Byte)
    ensures Decode64(Encode64([a, b]), 0, 0, 0) == Some([a, b])
  {
    SplitTwo(a, b);
    var s, v, w := Encode64([a, b]), a % 4 * 16 + b / 16, b % 16 * 4;
    Value64OfChar64(a / 4);
    Value64OfChar64(v);
    Value64OfChar64(w);
    assert s[3..] == ['='];
    assert Decode64(s[3..], 3, 0, 0) == Some([]);
    assert s[2..][1..] == s[3..] && s[1..][1..] == s[2..];
    assert Decode64(s[2..], 2, b / 16, 0) == Prepend(b, Some([]));
    assert [b] + [] == [b] && [a] + [b] == [a, b];
    assert Decode64(s[1..], 1, a / 4, 0) == Prepend(a, Some([b]));
  }

  lemma DecodeThreeBytes(a: Byte, b: Byte, c: Byte, tail: string, rest: Bytes)
    requires Decode64(tail, 0, 0, 0) == Some(rest)
    ensures var v, w := a % 4 * 16 + b / 16, b % 16 * 4 + c / 64;
            Decode64([Char64(a / 4), Char64(v), Char64(w), Char64(c % 64)] + tail, 0, 0, 0) == Some([a, b, c] + rest)
  {
    SplitTwo(a, b);
    SplitThree(b, c);
    var v, w := a % 4 * 16 + b / 16, b % 16 * 4 + c / 64;
    var s := [Char64(a / 4), Char64(v), Char64(w), Char64(c % 64)] + tail;
    Value64OfChar64(a / 4);
    Value64OfChar64(v);
    Value64OfChar64(w);
    Value64OfChar64(c % 64);
    assert s[4..] == tail;
    assert s[3..][1..] == s[4..] && s[2..][1..] == s[3..] && s[1..][1..] == s[2..];
    assert Decode64(s[3..], 3, c / 64, 0) == Some([c] + rest);
    assert Decode64(s[2..], 2, b / 16, 0) == Some([b] + ([c] + rest));
    assert Decode64(s[1..], 1, a / 4, 0) == Some([a] + ([b] + ([c] + rest)));
    assert [a] + ([b] + ([c] + rest)) == [a, b, c] + rest;
  }

  /** Decoding undoes encoding, for all byte strings. */
  lemma {:induction false} DecodeEncode64(bs: Bytes)
    ensures Decode64(Encode64(bs), 0, 0, 0) == Some(bs)
  {
    if |bs| == 0 {
    } else if |bs| == 1 {
      DecodeOneByte(bs[0]);
      assert bs == [bs[0]];
    } else if |bs| == 2 {
      DecodeTwoBytes(bs[0], bs[1]);
      assert bs == [bs[0], bs[1]];
    } else {
      DecodeEncode64(bs[3..]);
      DecodeThreeBytes(bs[0], bs[1], bs[2], Encode64(bs[3..]), bs[3..]);
      assert bs == [bs[0], bs[1], bs[2]] + bs[3..];
    }
  }

  // ---- The cursor -----------------------------------------------------------

  /** The first and the last millisecond a datetime can name: of the years 1 and 9999. */
  const FIRST_INSTANT := -62_135_596_800_000
  const LAST_INSTANT := 253_402_300_799_999

  predicate IsInstant(ms: int) {
    FIRST_INSTANT <= ms <= LAST_INSTANT
  }

  type Instant = ms: int | IsInstant(ms)

  /** A place in the result order: observation time in milliseconds, then event key. */
  datatype Place = Place(at: Instant, key: Bytes)

  function Ascii(s: string): (r: Bytes)
    requires forall i :: 0 <= i < |s| ==> s[i] < 128 as char
    ensures |r| == |s|
    ensures forall i :: 0 <= i < |s| ==> r[i] == s[i] as int
  {
    if s == [] then [] else [s[0] as int] + Ascii(s[1..])
  }

  function Text(bs: Bytes): (s: string)
    ensures |s| == |bs|
    ensures forall i :: 0 <= i < |bs| ==> s[i] == bs[i] as char
  {
    if bs == [] then [] else [bs[0] as char] + Text(bs[1..])
  }

  /** Position of the first colon; the length if there is none. */
  function FirstColon(bs: Bytes): (n: nat)
    ensures n <= |bs|
    ensures forall i :: 0 <= i < n ==> bs[i] != COLON
    ensures n < |bs| ==> bs[n] == COLON
  {
    if bs == [] || bs[0] == COLON then 0 else FirstColon(bs[1..]) + 1
  }

  lemma PrintIntIsPlain(n: int)
    ensures forall i :: 0 <= i < |PrintInt(n)| ==> PrintInt(n)[i] == '-' || IsDigit(PrintInt(n)[i])
  {}

  function EncodeCursor(p: Place): string {
    PrintIntIsPlain(p.at);
    Encode64(Ascii(PrintInt(p.at)) + [COLON] + p.key)
  }

  /** None stands for the "bad cursor" error. */
  function DecodeCursor(cursor: string): Option<Place> {
    var raw := Decode64(cursor, 0, 0, 0);
    if raw.None? then None
    else
      var n := FirstColon(raw.value);
      if n == |raw.value| then None
      else
        var at := ParseInt(Text(raw.value[..n]));
        if at.None? || !IsInstant(at.value) then None else Some(Place(at.value, raw.value[n + 1..]))
  }

  /** Round trip for every whole-millisecond time and every key, colons included. */
  lemma CursorRoundTrip(p: Place)
    ensures DecodeCursor(EncodeCursor(p)) == Some(p)
  {
    PrintIntIsPlain(p.at);
    var head := Ascii(PrintInt(p.at));
    var raw := head + [COLON] + p.key;
    DecodeEncode64(raw);
    assert forall i :: 0 <= i < |head| ==> raw[i] != COLON;
    assert raw[|head|] == COLON;
    assert FirstColon(raw) == |head|;
    assert raw[..|head|] == head;
    assert Text(head) == PrintInt(p.at);
    ParsePrintInt(p.at);
    assert raw[|head| + 1..] == p.key;
  }

  /** Two places never share a cursor. */
  lemma CursorIsInjective(p: Place, q: Place)
    requires EncodeCursor(p) == EncodeCursor(q)
    ensures p == q
  {
    CursorRoundTrip(p);
    CursorRoundTrip(q);
  }

  /** A cursor travels in a URL as it is: letters, digits, '-', '_' and padding. */
  lemma {:induction false} CursorIsUrlSafe(bs: Bytes)
    ensures forall i :: 0 <= i < |Encode64(bs)| ==>
              var c := Encode64(bs)[i];
              'A' <= c <= 'Z' || 'a' <= c <= 'z' || '0' <= c <= '9' || c == '-' || c == '_' || c == '='
  {
    if |bs| >= 3 {
      CursorIsUrlSafe(bs[3..]);
    }
  }

  // ---- What is refused ------------------------------------------------------

  /** The bytes of "<milliseconds>:<anything>", the milliseconds those of a datetime. */
  predicate IsCursorText(raw: Bytes, head: Bytes, key: Bytes) {
    && raw == head + [COLON] + key && COLON !in head
    && ParseInt(Text(head)).Some? && IsInstant(ParseInt(Text(head)).value)
  }

  /** Exactly when any text at all is accepted: it decodes to the milliseconds of an
      instant of the years 1 to 9999, a colon and a key; every other text is a bad
      cursor. */
  lemma AcceptedIff(cursor: string)
    ensures DecodeCursor(cursor).Some? <==>
              var raw := Decode64(cursor, 0, 0, 0);
              raw.Some? && exists head, key :: IsCursorText(raw.value, head, key)
  {
    var raw := Decode64(cursor, 0, 0, 0);
    if raw.Some? {
      var n := FirstColon(raw.value);
      if DecodeCursor(cursor).Some? {
        assert raw.value == raw.value[..n] + [COLON] + raw.value[n + 1..];
        assert IsCursorText(raw.value, raw.value[..n], raw.value[n + 1..]);
      }
      if head, key :| IsCursorText(raw.value, head, key) {
        assert raw.value[|head|] == COLON;
        assert forall i :: 0 <= i < |head| ==> raw.value[i] == head[i];
        assert FirstColon(raw.value) == |head|;
        assert raw.value[..|head|] == head;
      }
    }
  }

  /** The characters of a text that carry bits. */
  function Sextets(s: string): nat {
    if s == "" then 0 else (if Value64(s[0]).Some? then 1 else 0) + Sextets(s[1..])
  }

  lemma {:induction false} UnpaddedFrom(s: string, quad: nat, left: nat, pads: nat)
    requires quad < 4 && left < 64 && (quad == 2 ==> left < 16) && (quad == 3 ==> left < 4) && '=' !in s
    ensures Decode64(s, quad, left, pads).Some? <==> (quad + Sextets(s)) % 4 == 0
  {
    if s != "" {
      assert '=' !in s[1..];
      if Value64(s[0]).None? {
        UnpaddedFrom(s[1..], quad, left, pads);
      } else {
        var v := Value64(s[0]).value;
        UnpaddedFrom(s[1..], (quad + 1) % 4,
                     if quad == 0 then v else if quad == 1 then v % 16 else if quad == 2 then v % 4 else 0, 0);
      }
    }
  }

  /** Garbage is refused: text that decodes to bytes without a colon, and unpadded text
      whose last group of four is cut short. */
  lemma GarbageIsRefused(cursor: string)
    ensures Decode64(cursor, 0, 0, 0).Some? && COLON !in Decode64(cursor, 0, 0, 0).value ==> DecodeCursor(cursor).None?
    ensures '=' !in cursor && Sextets(cursor) % 4 != 0 ==> DecodeCursor(cursor).None?
  {
    AcceptedIff(cursor);
    if '=' !in cursor {
      UnpaddedFrom(cursor, 0, 0, 0);
    }
  }

  // ---- Known texts ----------------------------------------------------------

  /** A vector of section 10 of RFC 4648. */
  lemma KnownVector()
    ensures Encode64([102, 111, 111, 98, 97]) == "Zm9vYmE="
  {
    var foo: Bytes := [102, 111, 111, 98, 97];
    assert foo[3..] == [98, 97];
    assert Encode64(foo[3..]) == "YmE=";
  }

  /** The last two characters of the alphabet, in both spellings. */
  lemma KnownAlphabets()
    ensures Encode64([251, 255]) == "-_8=" && Decode64("+/8=", 0, 0, 0) == Some([251, 255])
  {
    var s := "+/8=";
    assert s[1..][1..] == s[2..] && s[2..][1..] == s[3..] && s[3..] == "=";
    assert Decode64(s[3..], 3, 0, 0) == Some([]);
    assert Decode64(s[2..], 2, 15, 0) == Some([255] + []);
    assert [255] + [] == [255] && [251] + [255] == [251, 255];
  }

  /** "-10:a". */
  lemma KnownCursor()
    ensures EncodeCursor(Place(-10, [97])) == "LTEwOmE="
  {
    assert PrintNat(1) == "1";
    assert PrintInt(-10) == "-10";
    TextOfTen();
    EncodedTen();
  }

  lemma TextOfTen()
    ensures Ascii("-10") + [COLON] + [97] == [45, 49, 48, 58, 97]
  {
    var text: Bytes := Ascii("-10");
    assert text == [45, 49, 48];
  }

  lemma EncodedTen()
    ensures Encode64([45, 49, 48, 58, 97]) == "LTEwOmE="
  {
    var raw: Bytes := [45, 49, 48, 58, 97];
    assert raw[3..] == [58, 97];
    assert Encode64(raw[3..]) == "OmE=";
  }

  /** Padding: two signs end a group of two characters and one a group of three, what comes
      after is ignored, one too few is an error, and one too early is skipped. */
  lemma KnownPadding(rest: string)
    ensures Decode64("QQ==" + rest, 0, 0, 0) == Some([65])
    ensures Decode64("QUI=" + rest, 0, 0, 0) == Some([65, 66])
    ensures Decode64("QQ=", 0, 0, 0).None? && Decode64("QUI", 0, 0, 0).None?
    ensures Decode64("=Q=" + rest, 0, 0, 0) == Decode64("Q" + rest, 0, 0, 0)
  {
    PaddedTwo("==" + rest, "QQ==" + rest);
    PaddedTwo("=", "QQ=");
    PaddedThree(rest);
    var s := "QUI";
    assert s[1..] == "UI" && s[1..][1..] == "I" && s[1..][1..][1..] == "";
    EarlyPadding(rest);
  }

  lemma PaddedTwo(tail: string, s: string)
    requires s == "QQ" + tail && (tail == "=" || (|tail| >= 2 && tail[..2] == "=="))
    ensures Decode64(s, 0, 0, 0) == if tail == "=" then None else Some([65])
  {
    assert s[1..] == "Q" + tail && s[1..][1..] == tail;
    assert tail != "=" ==> tail[0] == '=' && tail[1..][0] == tail[..2][1];
    assert Decode64(tail, 2, 0, 0) == if tail == "=" then None else Some([]);
    assert [65] + [] == [65];
  }

  lemma PaddedThree(rest: string)
    ensures Decode64("QUI=" + rest, 0, 0, 0) == Some([65, 66])
  {
    var s := "QUI=" + rest;
    assert s[1..] == "UI=" + rest && s[1..][1..] == "I=" + rest && s[1..][1..][1..] == "=" + rest;
    assert Decode64("=" + rest, 3, 0, 0) == Some([]);
    assert [66] + [] == [66] && [65] + [66] == [65, 66];
    assert ("I=" + rest)[1..] == "=" + rest && ("UI=" + rest)[1..] == "I=" + rest;
    assert Decode64("I=" + rest, 2, 4, 0) == Some([66]);
    assert Decode64("UI=" + rest, 1, 16, 0) == Some([65, 66]);
  }

  lemma EarlyPadding(rest: string)
    ensures Decode64("=Q=" + rest, 0, 0, 0) == Decode64("Q" + rest, 0, 0, 0)
  {
    var s, t := "=Q=" + rest, "Q" + rest;
    assert s[1..] == "Q=" + rest && s[1..][1..] == "=" + rest && ("=" + rest)[1..] == rest && t[1..] == rest;
    assert Decode64("=" + rest, 1, 16, 0) == Decode64(rest, 1, 16, 0);
    assert Decode64("Q=" + rest, 0, 0, 0) == Decode64("=" + rest, 1, 16, 0);
  }
}
