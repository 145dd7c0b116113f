/** Byte strings and the few `strings` helpers the service uses.
    Go strings reach the model as Unicode text (`string`); `[]byte(s)` is their UTF-8 encoding. */
module Text {

  type byte = b: int | 0 <= b < 256

  /** Go's `strings.HasPrefix`. */
  predicate HasPrefix(s: string, prefix: string) {
    prefix <= s
  }

  /** Go's `strings.Contains`: `sub` occurs at some position of `s`. */
  predicate Contains(s: string, sub: string)
    decreases |s|
  {
    sub <= s || (s != [] && Contains(s[1..], sub))
  }

  /** `Contains` finds exactly the occurrences at some position. */
  lemma {:induction false} ContainsAt(s: string, sub: string, i: nat)
    requires i + |sub| <= |s| && s[i..i + |sub|] == sub
    ensures Contains(s, sub)
  {
    if i > 0 {
      assert s[1..][i - 1..i - 1 + |sub|] == s[i..i + |sub|];
      ContainsAt(s[1..], sub, i - 1);
    } else {
      assert sub == s[..|sub|];
    }
  }

  /** The UTF-8 encoding of one Unicode scalar value. */
  function EncodeRune(c: char): (r: seq<byte>)
    ensures 1 <= |r| <= 4
    ensures (c as int < 0x80) <==> |r| == 1
  {
    var v := c as int;
    if v < 0x80 then [v]
    else if v < 0x800 then [0xC0 + v / 64, 0x80 + v % 64]
    else if v < 0x10000 then [0xE0 + v / 4096, 0x80 + (v / 64) % 64, 0x80 + v % 64]
    else [0xF0 + v / 262144, 0x80 + (v / 4096) % 64, 0x80 + (v / 64) % 64, 0x80 + v % 64]
  }

  /** `[]byte(s)`: the UTF-8 bytes of `s`, one rune after another. */
  function Utf8(s: string): (r: seq<byte>)
    ensures |s| <= |r| <= 4 * |s|
  {
    if s == [] then [] else EncodeRune(s[0]) + Utf8(s[1..])
  }

  /** Encoding distributes over concatenation: writing `a` then `b` to a hash
      feeds it exactly the bytes of `a + b`. */
  lemma {:induction false} Utf8Concat(a: string, b: string)
    ensures Utf8(a + b) == Utf8(a) + Utf8(b)
  {
    if a == [] {
      assert a + b == b;
    } else {
      var ab := a + b;
      assert ab[0] == a[0] && ab[1..] == a[1..] + b;
      Utf8Concat(a[1..], b);
      calc {
        Utf8(ab);
        EncodeRune(a[0]) + Utf8(a[1..] + b);
        EncodeRune(a[0]) + (Utf8(a[1..]) + Utf8(b));
        (EncodeRune(a[0]) + Utf8(a[1..])) + Utf8(b);
        Utf8(a) + Utf8(b);
      }
    }
  }

  /** ASCII text encodes byte for byte. */
  lemma {:induction false} Utf8Ascii(s: string)
    requires forall i :: 0 <= i < |s| ==> s[i] as int < 0x80
    ensures |Utf8(s)| == |s|
    ensures forall i :: 0 <= i < |s| ==> Utf8(s)[i] == s[i] as int
  {
    if s != [] {
      Utf8Ascii(s[1..]);
    }
  }

  /** The number of bytes of the encoding that starts with `b`. */
  function RuneLength(b: byte): nat {
    if b < 0x80 then 1 else if b < 0xE0 then 2 else if b < 0xF0 then 3 else 4
  }

  /** The scalar value encoded at the front of `s`, read back from its bytes. */
  function RuneValue(s: seq<byte>): int
    requires |s| >= 1 && |s| >= RuneLength(s[0])
  {
    var n := RuneLength(s[0]);
    var b0: int := s[0];
    if n == 1 then b0
    else
      var b1: int := s[1];
      if n == 2 then (b0 - 0xC0) * 64 + (b1 - 0x80)
      else
        var b2: int := s[2];
        if n == 3 then (b0 - 0xE0) * 4096 + (b1 - 0x80) * 64 + (b2 - 0x80)
        else
          var b3: int := s[3];
          (b0 - 0xF0) * 262144 + (b1 - 0x80) * 4096 + (b2 - 0x80) * 64 + (b3 - 0x80)
  }

  lemma Split2(v: int)
    requires 0x80 <= v < 0x800
    ensures 0xC0 + v / 64 < 0xE0 && (v / 64) * 64 + v % 64 == v
  {
  }

  lemma Split3(v: int)
    requires 0x800 <= v < 0x10000
    ensures 0xE0 <= 0xE0 + v / 4096 < 0xF0
    ensures (v / 4096) * 4096 + ((v / 64) % 64) * 64 + v % 64 == v
  {
    var q := v / 64;
    assert q == (q / 64) * 64 + q % 64;
    assert q / 64 == v / 4096;
  }

  lemma Split4(v: int)
    requires 0x10000 <= v < 0x110000
    ensures 0xF0 <= 0xF0 + v / 262144
    ensures (v / 262144) * 262144 + ((v / 4096) % 64) * 4096 + ((v / 64) % 64) * 64 + v % 64 == v
  {
    var q := v / 64;
    var r := q / 64;
    assert q == r * 64 + q % 64;
    assert r == (r / 64) * 64 + r % 64;
    assert r == v / 4096;
    assert r / 64 == v / 262144;
  }

  /** Decoding inverts `EncodeRune`: the first byte tells the length, the bytes tell the value. */
  lemma RuneRoundTrip(c: char, rest: seq<byte>)
    ensures var s := EncodeRune(c) + rest;
            RuneLength(s[0]) == |EncodeRune(c)| && RuneValue(s) == c as int
  {
    var v := c as int;
    var s := EncodeRune(c) + rest;
    if v < 0x80 {
    } else if v < 0x800 {
      Split2(v);
      assert s[0] == 0xC0 + v / 64 && s[1] == 0x80 + v % 64;
    } else if v < 0x10000 {
      Split3(v);
      assert s[0] == 0xE0 + v / 4096 && s[1] == 0x80 + (v / 64) % 64 && s[2] == 0x80 + v % 64;
    } else {
      Split4(v);
      assert s[0] == 0xF0 + v / 262144 && s[1] == 0x80 + (v / 4096) % 64;
      assert s[2] == 0x80 + (v / 64) % 64 && s[3] == 0x80 + v % 64;
    }
  }

  /** Different strings have different encodings: `[]byte(s)` loses nothing. */
  lemma {:induction false} Utf8Injective(a: string, b: string)
    requires Utf8(a) == Utf8(b)
    ensures a == b
    decreases |a|
  {
    if a == [] || b == [] {
      assert |Utf8(a)| == 0 || |Utf8(b)| == 0;
    } else {
      RuneRoundTrip(a[0], Utf8(a[1..]));
      RuneRoundTrip(b[0], Utf8(b[1..]));
      var n := |EncodeRune(a[0])|;
      assert EncodeRune(a[0]) == Utf8(a)[..n] == EncodeRune(b[0]);
      assert a[0] as int == b[0] as int;
      assert Utf8(a[1..]) == Utf8(a)[n..] == Utf8(b[1..]);
      Utf8Injective(a[1..], b[1..]);
    }
  }

  /** Conversely, `Contains` holds only where an occurrence is. */
  lemma {:induction false} ContainsWitness(s: string, sub: string) returns (i: nat)
    requires Contains(s, sub)
    ensures i + |sub| <= |s| && s[i..i + |sub|] == sub
    decreases |s|
  {
    if sub <= s {
      i := 0;
    } else {
      var j := ContainsWitness(s[1..], sub);
      assert s[1..][j..j + |sub|] == s[j + 1..j + 1 + |sub|];
      i := j + 1;
    }
  }

  /** `sub` occurs in `s` at position `i`. */
  predicate OccursAt(s: string, sub: string, i: nat) {
    i + |sub| <= |s| && s[i..i + |sub|] == sub
  }

  lemma OccursShift(s: string, sub: string, i: nat)
    requires s != [] && OccursAt(s[1..], sub, i)
    ensures OccursAt(s, sub, i + 1)
  {
    assert s[1..][i..i + |sub|] == s[i + 1..i + 1 + |sub|];
  }

  /** `Contains` is false when no position holds an occurrence. */
  lemma {:induction false} NotContains(s: string, sub: string)
    requires forall i: nat :: !OccursAt(s, sub, i)
    ensures !Contains(s, sub)
    decreases |s|
  {
    assert !OccursAt(s, sub, 0);
    assert !(sub <= s) by {
      if |sub| <= |s| {
        assert s[0..|sub|] == s[..|sub|];
      }
    }
    if s != [] {
      forall i: nat ensures !OccursAt(s[1..], sub, i) {
        if OccursAt(s[1..], sub, i) {
          OccursShift(s, sub, i);
        }
      }
      NotContains(s[1..], sub);
    }
  }
}
