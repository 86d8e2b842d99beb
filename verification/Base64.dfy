/** Base64 with padding, as in section 4 of RFC 4648, over bytes held as characters. */
module Base64 {
  import opened Wrappers

  predicate IsBytes(s: string) {
    forall k :: 0 <= k < |s| ==> s[k] as int < 256
  }

  type Bytes = s: string | IsBytes(s)

  function Symbol(n: nat): char
    requires n < 64
  {
    if n < 26 then ('A' as int + n) as char
    else if n < 52 then ('a' as int + n - 26) as char
    else if n < 62 then ('0' as int + n - 52) as char
    else if n == 62 then '+' else '/'
  }

  function Value(c: char): Option<nat> {
    if 'A' <= c <= 'Z' then Some(c as int - 'A' as int)
    else if 'a' <= c <= 'z' then Some(c as int - 'a' as int + 26)
    else if '0' <= c <= '9' then Some(c as int - '0' as int + 52)
    else if c == '+' then Some(62)
    else if c == '/' then Some(63)
    else None
  }

  /** The group of symbols for three bytes, of which a short group uses the first symbols only. */
  function Group(x: nat, y: nat, z: nat): (g: string)
    requires x < 256 && y < 256 && z < 256
    ensures |g| == 4 && forall k :: 0 <= k < 4 ==> IsSymbol(g[k])
  {
    [Symbol(x / 4), Symbol(x % 4 * 16 + y / 16), Symbol(y % 16 * 4 + z / 64), Symbol(z % 64)]
  }

  predicate IsSymbol(c: char) {
    Value(c).Some? || c == '='
  }

  function Encode(s: Bytes): (t: string)
    ensures |t| == 4 * ((|s| + 2) / 3)
    ensures forall k :: 0 <= k < |t| ==> IsSymbol(t[k])
  {
    if |s| == 0 then ""
    else if |s| == 1 then Group(s[0] as int, 0, 0)[..2] + "=="
    else if |s| == 2 then Group(s[0] as int, s[1] as int, 0)[..3] + "="
    else Group(s[0] as int, s[1] as int, s[2] as int) + Encode(s[3..])
  }

  /** Strict decoding: whole groups of four, padding only at the very end, no other characters. */
  function Decode(t: string): (r: Option<Bytes>) {
    if t == "" then Some("")
    else if |t| < 4 then None
    else
      match (Value(t[0]), Value(t[1]), Value(t[2]), Value(t[3]))
      case (Some(a), Some(b), Some(c), Some(d)) =>
        var head := [(a * 4 + b / 16) as char, (b % 16 * 16 + c / 4) as char, (c % 4 * 64 + d) as char];
        (match Decode(t[4..])
         case Some(rest) => Some(head + rest)
         case None => None)
      case (Some(a), Some(b), Some(c), None) =>
        if |t| == 4 && t[3] == '=' then
          Some([(a * 4 + b / 16) as char, (b % 16 * 16 + c / 4) as char])
        else None
      case (Some(a), Some(b), None, None) =>
        if |t| == 4 && t[2] == '=' && t[3] == '=' then Some([(a * 4 + b / 16) as char]) else None
      case _ => None
  }

  lemma ValueOfSymbol(n: nat)
    requires n < 64
    ensures Value(Symbol(n)) == Some(n)
  {
  }

  /** Three bytes make four sextets and back. */
  lemma Sextets(x: nat, y: nat, z: nat)
    requires x < 256 && y < 256 && z < 256
    ensures var a, b, c, d := x / 4, x % 4 * 16 + y / 16, y % 16 * 4 + z / 64, z % 64;
      && a < 64 && b < 64 && c < 64 && d < 64
      && a * 4 + b / 16 == x && b % 16 * 16 + c / 4 == y && c % 4 * 64 + d == z
  {
  }

  lemma DecodeGroup(a: nat, b: nat, c: nat, d: nat, t: string)
    requires a < 64 && b < 64 && c < 64 && d < 64 && Decode(t).Some?
    ensures var head := [(a * 4 + b / 16) as char, (b % 16 * 16 + c / 4) as char, (c % 4 * 64 + d) as char];
      Decode([Symbol(a), Symbol(b), Symbol(c), Symbol(d)] + t) == Some(head + Decode(t).value)
  {
    ValueOfSymbol(a);
    ValueOfSymbol(b);
    ValueOfSymbol(c);
    ValueOfSymbol(d);
    hide Symbol, Value;
    assert ([Symbol(a), Symbol(b), Symbol(c), Symbol(d)] + t)[4..] == t;
  }

  lemma DecodeShortGroups(a: nat, b: nat, c: nat)
    requires a < 64 && b < 64 && c < 64
    ensures Decode([Symbol(a), Symbol(b), '=', '=']) == Some([(a * 4 + b / 16) as char])
    ensures Decode([Symbol(a), Symbol(b), Symbol(c), '='])
         == Some([(a * 4 + b / 16) as char, (b % 16 * 16 + c / 4) as char])
  {
    ValueOfSymbol(a);
    ValueOfSymbol(b);
    ValueOfSymbol(c);
    assert Value('=') == None;
    hide Symbol, Value;
  }

  lemma DecodeBytes(x: char, y: char, z: char, t: string)
    requires x as int < 256 && y as int < 256 && z as int < 256 && Decode(t).Some?
    ensures Decode(Group(x as int, y as int, z as int) + t) == Some([x, y, z] + Decode(t).value)
  {
    hide Decode, Symbol;
    Sextets(x as int, y as int, z as int);
    var x, y, z := x as int, y as int, z as int;
    DecodeGroup(x / 4, x % 4 * 16 + y / 16, y % 16 * 4 + z / 64, z % 64, t);
  }

  lemma DecodeLastBytes(x: char, y: char)
    requires x as int < 256 && y as int < 256
    ensures Decode(Group(x as int, y as int, 0)[..3] + "=") == Some([x, y])
    ensures Decode(Group(x as int, 0, 0)[..2] + "==") == Some([x])
  {
    hide Decode, Symbol;
    var a, b := x as int, y as int;
    Sextets(a, b, 0);
    Sextets(a, 0, 0);
    DecodeShortGroups(a / 4, a % 4 * 16 + b / 16, b % 16 * 4);
    DecodeShortGroups(a / 4, a % 4 * 16, 0);
    assert Group(a, b, 0)[..3] + "=" == [Symbol(a / 4), Symbol(a % 4 * 16 + b / 16), Symbol(b % 16 * 4), '='];
    assert Group(a, 0, 0)[..2] + "==" == [Symbol(a / 4), Symbol(a % 4 * 16), '=', '='];
  }

  lemma {:induction false} DecodeOfEncode(s: Bytes)
    ensures Decode(Encode(s)) == Some(s)
  {
    hide Decode, Symbol, Group;
    if |s| >= 3 {
      DecodeOfEncode(s[3..]);
      var head := Group(s[0] as int, s[1] as int, s[2] as int);
      assert Encode(s) == head + Encode(s[3..]);
      hide Encode;
      DecodeBytes(s[0], s[1], s[2], Encode(s[3..]));
      assert s == [s[0], s[1], s[2]] + s[3..];
    } else if |s| > 0 {
      DecodeLastBytes(s[0], if |s| > 1 then s[1] else '\0');
      assert s == if |s| == 1 then [s[0]] else [s[0], s[1]];
    } else {
      EmptyDecodes();
    }
  }

  lemma EmptyDecodes()
    ensures Decode("") == Some("")
  {
  }
}
