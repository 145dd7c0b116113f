/** A self-delimiting encoding of byte strings, so that a sequence of fields written one after
    another into a hash can be told apart again: every 0xFF byte of a field is followed by
    0x00, and the field ends with 0xFF 0x01. */
module Framing {
  import opened Text
  import opened Results

  function Stuff(x: seq<byte>): (r: seq<byte>)
    ensures |x| <= |r| <= 2 * |x|
    decreases |x|
  {
    if x == [] then [] else (if x[0] == 0xFF then [0xFF, 0x00] else [x[0]]) + Stuff(x[1..])
  }

  /** One field: its stuffed bytes, then the terminator. */
  function Field(x: seq<byte>): seq<byte> {
    Stuff(x) + [0xFF, 0x01]
  }

  /** Reads one field from the front of `s`: its bytes and what follows it. */
  function ParseField(s: seq<byte>): Option<(seq<byte>, seq<byte>)>
    decreases |s|
  {
    if s == [] then None
    else if s[0] != 0xFF then
      match ParseField(s[1..])
      case None => None
      case Some(p) => Some(([s[0]] + p.0, p.1))
    else if |s| < 2 then None
    else if s[1] == 0x01 then Some(([], s[2..]))
    else if s[1] == 0x00 then
      match ParseField(s[2..])
      case None => None
      case Some(p) => Some(([0xFF] + p.0, p.1))
    else None
  }

  /** Reading a field back gives the bytes written and leaves what followed untouched. */
  lemma {:induction false} FieldRoundTrip(x: seq<byte>, rest: seq<byte>)
    ensures ParseField(Field(x) + rest) == Some((x, rest))
    decreases |x|
  {
    var s := Field(x) + rest;
    if x == [] {
      assert s == [0xFF, 0x01] + rest;
      assert s[2..] == rest;
    } else {
      assert Field(x) + rest == (if x[0] == 0xFF then [0xFF, 0x00] else [x[0]]) + (Field(x[1..]) + rest);
      FieldRoundTrip(x[1..], rest);
      if x[0] == 0xFF {
        assert s[2..] == Field(x[1..]) + rest;
      } else {
        assert s[1..] == Field(x[1..]) + rest;
      }
      assert [x[0]] + x[1..] == x;
    }
  }

  /** Fields written one after another never run into each other. */
  lemma FieldsInjective(a: seq<byte>, ra: seq<byte>, b: seq<byte>, rb: seq<byte>)
    requires Field(a) + ra == Field(b) + rb
    ensures a == b && ra == rb
  {
    FieldRoundTrip(a, ra);
    FieldRoundTrip(b, rb);
  }
}
