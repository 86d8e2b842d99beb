/** What the check for well-formed UTF-8 accepts: exactly the encodings of Unicode scalar values, RFC 3629. */
module Utf8Text {
  import opened Base64
  import opened Snapshots

  predicate IsScalar(c: nat) {
    c < 0xD800 || 0xE000 <= c <= 0x10FFFF
  }

  /** The octets of one scalar value, RFC 3629 section 3. */
  function Octets(c: nat): (s: Bytes)
    requires IsScalar(c)
    ensures 1 <= |s| <= 4
  {
    if c < 0x80 then [c as char]
    else if c < 0x800 then [(0xC0 + c / 0x40) as char, (0x80 + c % 0x40) as char]
    else if c < 0x1_0000 then
      [(0xE0 + c / 0x1000) as char, (0x80 + c / 0x40 % 0x40) as char, (0x80 + c % 0x40) as char]
    else
      [(0xF0 + c / 0x4_0000) as char, (0x80 + c / 0x1000 % 0x40) as char,
       (0x80 + c / 0x40 % 0x40) as char, (0x80 + c % 0x40) as char]
  }

  predicate AllScalars(text: seq<nat>) {
    forall k :: 0 <= k < |text| ==> IsScalar(text[k])
  }

  function Encoded(text: seq<nat>): Bytes
    requires AllScalars(text)
  {
    if text == [] then "" else Octets(text[0]) + Encoded(text[1..])
  }

  lemma WidthOfOctets(c: nat, rest: Bytes)
    requires IsScalar(c)
    ensures Utf8Width(Octets(c) + rest) == |Octets(c)|
  {
    var s, n := Octets(c) + rest, |Octets(c)|;
    assert forall k :: 0 <= k < n ==> s[k] == Octets(c)[k];
    LeadingOctets(c);
    hide Octets;
    assert s[..n] == Octets(c);
  }

  /** The first octet tells the length, and the second keeps out the overlong, the surrogates and what lies beyond. */
  lemma LeadingOctets(c: nat)
    requires IsScalar(c)
    ensures var o := Octets(c);
      match |o|
      case 1 => o[0] as int < 0x80
      case 2 => 0xC2 <= o[0] as int < 0xE0 && IsContinuation(o[1])
      case 3 =>
        && 0xE0 <= o[0] as int < 0xF0 && IsContinuation(o[1]) && IsContinuation(o[2])
        && (o[0] as int == 0xE0 ==> o[1] as int >= 0xA0) && (o[0] as int == 0xED ==> o[1] as int < 0xA0)
      case _ =>
        && 0xF0 <= o[0] as int < 0xF5 && IsContinuation(o[1]) && IsContinuation(o[2]) && IsContinuation(o[3])
        && (o[0] as int == 0xF0 ==> o[1] as int >= 0x90) && (o[0] as int == 0xF4 ==> o[1] as int < 0x90)
  {
    if 0x800 <= c < 0x1_0000 {
      assert c / 0x1000 == 0 ==> c / 0x40 % 0x40 >= 0x20;
      assert c / 0x1000 == 0xD ==> c / 0x40 % 0x40 < 0x20;
    } else if c >= 0x1_0000 {
      assert c / 0x4_0000 == 0 ==> c / 0x1000 % 0x40 >= 0x10;
      assert c / 0x4_0000 == 4 ==> c / 0x1000 % 0x40 < 0x10;
    }
  }

  function Low(c: char): int { c as int - 0x80 }

  /** The scalar value at the front of a well-formed text. */
  lemma FrontScalar(s: Bytes) returns (c: nat)
    requires s != "" && Utf8Width(s) > 0
    ensures IsScalar(c) && Utf8Width(s) == |Octets(c)| && s[..Utf8Width(s)] == Octets(c)
  {
    var n := Utf8Width(s);
    if n == 1 {
      c := s[0] as int;
    } else if n == 2 {
      c := (s[0] as int - 0xC0) * 0x40 + Low(s[1]);
    } else if n == 3 {
      c := (s[0] as int - 0xE0) * 0x1000 + Low(s[1]) * 0x40 + Low(s[2]);
      Three(s[0] as int - 0xE0, Low(s[1]), Low(s[2]), c);
    } else {
      c := (s[0] as int - 0xF0) * 0x4_0000 + Low(s[1]) * 0x1000 + Low(s[2]) * 0x40 + Low(s[3]);
      Four(s[0] as int - 0xF0, Low(s[1]), Low(s[2]), Low(s[3]), c);
    }
  }

  lemma Three(x: int, y: int, z: int, c: int)
    requires 0 <= x < 16 && 0 <= y < 0x40 && 0 <= z < 0x40 && c == x * 0x1000 + y * 0x40 + z
    ensures c / 0x1000 == x && c / 0x40 % 0x40 == y && c % 0x40 == z
  {
  }

  lemma Four(w: int, x: int, y: int, z: int, c: int)
    requires 0 <= w < 8 && 0 <= x < 0x40 && 0 <= y < 0x40 && 0 <= z < 0x40
    requires c == w * 0x4_0000 + x * 0x1000 + y * 0x40 + z
    ensures c / 0x4_0000 == w && c / 0x1000 % 0x40 == x && c / 0x40 % 0x40 == y && c % 0x40 == z
  {
    assert c / 0x1000 == w * 0x40 + x && c / 0x40 == w * 0x1000 + x * 0x40 + y;
  }

  lemma {:induction false} EncodedIsUtf8(text: seq<nat>)
    requires AllScalars(text)
    ensures Utf8(Encoded(text))
    decreases |text|
  {
    if text != [] {
      EncodedIsUtf8(text[1..]);
      WidthOfOctets(text[0], Encoded(text[1..]));
      hide Octets, Utf8Width;
      assert (Octets(text[0]) + Encoded(text[1..]))[|Octets(text[0])|..] == Encoded(text[1..]);
    }
  }

  lemma {:induction false} Utf8IsEncoded(s: Bytes) returns (text: seq<nat>)
    requires Utf8(s)
    ensures AllScalars(text) && s == Encoded(text)
    decreases |s|
  {
    if s == "" {
      text := [];
    } else {
      var c := FrontScalar(s);
      var rest := Utf8IsEncoded(s[Utf8Width(s)..]);
      text := [c] + rest;
      hide Octets, Utf8Width;
      assert text[1..] == rest;
      assert s == s[..Utf8Width(s)] + s[Utf8Width(s)..];
    }
  }

  /** A byte string passes exactly when it is the UTF-8 encoding of some text. */
  lemma Utf8Exactly(s: Bytes)
    ensures Utf8(s) <==> exists text :: AllScalars(text) && s == Encoded(text)
  {
    if Utf8(s) {
      var text := Utf8IsEncoded(s);
    }
    if text :| AllScalars(text) && s == Encoded(text) {
      EncodedIsUtf8(text);
    }
  }
}
