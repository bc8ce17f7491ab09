/** The text of a cursor: base64url without padding (sections 3.2 and 5 of RFC 4648) over the bytes of
    its payload. */
module Cursor {

  type Byte = b: int | 0 <= b < 256

  type Sextet = v: int | 0 <= v < 64

  datatype Option<T> = None | Some(value: T)

  function Letter(v: Sextet): char {
    if v < 26 then 'A' + (v as char)
    else if v < 52 then 'a' + ((v - 26) as char)
    else if v < 62 then '0' + ((v - 52) as char)
    else if v == 62 then '-'
    else '_'
  }

  function Value(c: char): Option<Sextet> {
    if 'A' <= c <= 'Z' then Some((c - 'A') as int)
    else if 'a' <= c <= 'z' then Some((c - 'a') as int + 26)
    else if '0' <= c <= '9' then Some((c - '0') as int + 52)
    else if c == '-' then Some(62)
    else if c == '_' then Some(63)
    else None
  }

  // the four letters that three bytes x, y, z become, and the three bytes that four letters are
  function Sextet0(x: Byte): Sextet { x / 4 }
  function Sextet1(x: Byte, y: Byte): Sextet { x % 4 * 16 + y / 16 }
  function Sextet2(y: Byte, z: Byte): Sextet { y % 16 * 4 + z / 64 }
  function Sextet3(z: Byte): Sextet { z % 64 }
  function Byte0(a: Sextet, b: Sextet): Byte { a * 4 + b / 16 }
  function Byte1(b: Sextet, c: Sextet): Byte { b % 16 * 16 + c / 4 }
  function Byte2(c: Sextet, d: Sextet): Byte { c % 4 * 64 + d }

  lemma GroupRoundTrip(x: Byte, y: Byte, z: Byte)
    ensures Byte0(Sextet0(x), Sextet1(x, y)) == x
    ensures Byte1(Sextet1(x, y), Sextet2(y, z)) == y
    ensures Byte2(Sextet2(y, z), Sextet3(z)) == z
  {}

  /** urlsafe_b64encode: three bytes become four letters; a shorter last group is filled with `=`. */
  function EncodePadded(bytes: seq<Byte>): string {
    if bytes == [] then ""
    else
      var x := bytes[0];
      if |bytes| == 1 then [Letter(Sextet0(x)), Letter(Sextet1(x, 0)), '=', '=']
      else
        var y := bytes[1];
        if |bytes| == 2 then [Letter(Sextet0(x)), Letter(Sextet1(x, y)), Letter(Sextet2(y, 0)), '=']
        else
          var z := bytes[2];
          var group := [Letter(Sextet0(x)), Letter(Sextet1(x, y)), Letter(Sextet2(y, z)), Letter(Sextet3(z))];
          group + EncodePadded(bytes[3..])
  }

  /** rstrip("=") */
  function Strip(s: string): string {
    if s != "" && s[|s| - 1] == '=' then Strip(s[..|s| - 1]) else s
  }

  function EncodeCursor(bytes: seq<Byte>): string {
    Strip(EncodePadded(bytes))
  }

  /** urlsafe_b64decode. As in the source's library the spare bits of a short last group are not looked
      at; None stands for a length or a letter that the format does not have. */
  function DecodePadded(s: string): Option<seq<Byte>> {
    if s == "" then Some([])
    else if |s| < 4 || Value(s[0]).None? || Value(s[1]).None? then None
    else
      var a, b := Value(s[0]).value, Value(s[1]).value;
      if |s| == 4 && s[2] == '=' && s[3] == '=' then Some([Byte0(a, b)])
      else if Value(s[2]).None? then None
      else
        var c := Value(s[2]).value;
        if |s| == 4 && s[3] == '=' then Some([Byte0(a, b), Byte1(b, c)])
        else if Value(s[3]).None? then None
        else
          var rest := DecodePadded(s[4..]);
          if rest.None? then None
          else Some([Byte0(a, b), Byte1(b, c), Byte2(c, Value(s[3]).value)] + rest.value)
  }

  /** "=" * (-len % 4): Python's remainder is never negative. */
  function Padding(n: nat): string {
    seq((4 - n % 4) % 4, _ => '=')
  }

  function DecodeCursor(s: string): Option<seq<Byte>> {
    DecodePadded(s + Padding(|s|))
  }

  // ----- round trip

  lemma ValueOfLetter(v: Sextet)
    ensures Value(Letter(v)) == Some(v) && Letter(v) != '='
  {}

  lemma {:induction false} DecodeEncodePadded(bytes: seq<Byte>)
    ensures DecodePadded(EncodePadded(bytes)) == Some(bytes)
  {
    hide Letter, Value, Sextet0, Sextet1, Sextet2, Sextet3, Byte0, Byte1, Byte2;
    if bytes != [] {
      var x := bytes[0];
      var y := if |bytes| > 1 then bytes[1] else 0;
      var z := if |bytes| > 2 then bytes[2] else 0;
      GroupRoundTrip(x, y, z);
      ValueOfLetter(Sextet0(x));
      ValueOfLetter(Sextet1(x, y));
      ValueOfLetter(Sextet2(y, z));
      ValueOfLetter(Sextet3(z));
      PaddingHasNoValue();
      if |bytes| > 2 {
        assert EncodePadded(bytes)[4..] == EncodePadded(bytes[3..]);
        DecodeEncodePadded(bytes[3..]);
        assert bytes == [x, y, z] + bytes[3..];
      } else if |bytes| == 2 {
        assert bytes == [x, y];
      } else {
        assert bytes == [x];
      }
    }
  }

  lemma PaddingHasNoValue()
    ensures Value('=').None?
  {}

  ghost predicate Unpadded(s: string) {
    forall i :: 0 <= i < |s| ==> Value(s[i]).Some? && s[i] != '='
  }

  /** What stripping leaves: letters only, four for three bytes; the padding is what the length asks for. */
  lemma {:induction false} StrippedShape(bytes: seq<Byte>)
    ensures var s := EncodeCursor(bytes);
            && |s| == (4 * |bytes| + 2) / 3
            && Unpadded(s)
            && EncodePadded(bytes) == s + Padding(|s|)
  {
    if |bytes| <= 2 {
      ShortShape(bytes);
    } else {
      var rest, s := EncodePadded(bytes[3..]), EncodeCursor(bytes[3..]);
      var head := FirstGroup(bytes);
      StrippedShape(bytes[3..]);
      StripAfter(head, rest);
      hide Value, Strip, Padding, EncodePadded, Unpadded;
      ShapeStep(head, s, |bytes[3..]|);
    }
  }

  lemma ShapeStep(head: string, s: string, n: nat)
    requires |head| == 4 && Unpadded(head) && Unpadded(s) && |s| == (4 * n + 2) / 3
    ensures |head + s| == (4 * (n + 3) + 2) / 3 && Unpadded(head + s)
    ensures head + (s + Padding(|s|)) == (head + s) + Padding(|head + s|)
  {
    PaddingRepeats(|s|);
    hide Value, Padding;
  }

  lemma FirstGroup(bytes: seq<Byte>) returns (head: string)
    requires |bytes| > 2
    ensures EncodePadded(bytes) == head + EncodePadded(bytes[3..])
    ensures |head| == 4 && Unpadded(head)
  {
    hide Letter, Value, Sextet0, Sextet1, Sextet2, Sextet3;
    head := EncodePadded(bytes)[..4];
    ValueOfLetter(Sextet0(bytes[0]));
    ValueOfLetter(Sextet1(bytes[0], bytes[1]));
    ValueOfLetter(Sextet2(bytes[1], bytes[2]));
    ValueOfLetter(Sextet3(bytes[2]));
  }

  lemma PaddingRepeats(n: nat)
    ensures Padding(n + 4) == Padding(n)
  {}

  lemma ShortShape(bytes: seq<Byte>)
    requires |bytes| <= 2
    ensures var s := EncodeCursor(bytes);
            && |s| == (if bytes == [] then 0 else |bytes| + 1)
            && Unpadded(s)
            && EncodePadded(bytes) == s + Padding(|s|)
  {
    hide Letter, Value, Sextet0, Sextet1, Sextet2, Strip;
    var padded := EncodePadded(bytes);
    if bytes == [] {
      StripPadding("", 0);
      assert padded == "" + Padding(0);
    } else {
      var y := if |bytes| > 1 then bytes[1] else 0;
      ValueOfLetter(Sextet0(bytes[0]));
      ValueOfLetter(Sextet1(bytes[0], y));
      ValueOfLetter(Sextet2(y, 0));
      StripPadding(padded[..|bytes| + 1], 3 - |bytes|);
      assert padded == padded[..|bytes| + 1] + Padding(|bytes| + 1);
    }
  }

  lemma {:induction false} StripPadding(s: string, n: nat)
    requires Unpadded(s)
    ensures Strip(s + seq(n, _ => '=')) == s
  {
    var t := s + seq(n, _ => '=');
    if n == 0 {
      assert t == s;
    } else {
      StripPadding(s, n - 1);
      assert t[..|t| - 1] == s + seq(n - 1, _ => '=');
    }
  }

  lemma {:induction false} StripAfter(head: string, rest: string)
    requires head != "" && head[|head| - 1] != '='
    ensures Strip(head + rest) == head + Strip(rest)
    decreases |rest|
  {
    if rest == "" {
      assert head + rest == head;
    } else {
      var shorter := rest[..|rest| - 1];
      assert (head + rest)[..|head + rest| - 1] == head + shorter;
      if rest[|rest| - 1] == '=' {
        StripAfter(head, shorter);
      }
    }
  }

  /** Every cursor that was handed out reads back as the bytes it was made from. */
  lemma CursorRoundTrip(bytes: seq<Byte>)
    ensures DecodeCursor(EncodeCursor(bytes)) == Some(bytes)
  {
    StrippedShape(bytes);
    DecodeEncodePadded(bytes);
  }

  lemma CursorsAreDistinct(a: seq<Byte>, b: seq<Byte>)
    requires EncodeCursor(a) == EncodeCursor(b)
    ensures a == b
  {
    CursorRoundTrip(a);
    CursorRoundTrip(b);
  }
}
