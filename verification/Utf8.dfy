/** UTF-8 as RFC 3629 defines it, and the byte order that Rust strings compare by. */
module Utf8 {
  import opened Results

  type byte = b: nat | b < 0x100

  /** A character's number as a marked leading byte and `count` continuation bytes of six bits each. */
  function Groups(n: nat, count: nat, marker: nat): (bytes: seq<byte>)
    requires marker + Leading(n, count) < 0x100
    ensures |bytes| == count + 1 && bytes[0] == marker + Leading(n, count)
    ensures forall i | 1 <= i < |bytes| :: IsContinuation(bytes[i])
  {
    if count == 0 then [marker + n] else Groups(n / 0x40, count - 1, marker) + [0x80 + n % 0x40]
  }

  function Leading(n: nat, count: nat): nat {
    if count == 0 then n else Leading(n / 0x40, count - 1)
  }

  function EncodeChar(c: char): (bytes: seq<byte>)
    ensures 1 <= |bytes| <= 4
  {
    var n := c as int;
    if n < 0x80 then [n]
    else if n < 0x800 then Groups(n, 1, 0xC0)
    else if n < 0x1_0000 then
      LeadingOf(n);
      Groups(n, 2, 0xE0)
    else
      LeadingOf(n);
      Groups(n, 3, 0xF0)
  }

  function Encode(s: string): seq<byte> {
    if s == [] then [] else EncodeChar(s[0]) + Encode(s[1..])
  }

  predicate IsContinuation(b: byte) {
    0x80 <= b < 0xC0
  }

  /** The first character of `bytes` and its encoded size; nothing for overlong, surrogate or truncated forms. */
  function DecodeChar(bytes: seq<byte>): (r: Option<(char, nat)>)
    ensures r.Some? ==> 1 <= r.value.1 <= |bytes|
  {
    if bytes == [] then None
    else if bytes[0] < 0x80 then Some((bytes[0] as char, 1))
    else if |bytes| >= 2 && 0xC2 <= bytes[0] < 0xE0 && IsContinuation(bytes[1]) then
      var n := Scalar(bytes[0] - 0xC0, bytes[1..2]);
      if 0x800 <= n then None else Some((n as char, 2))
    else if |bytes| >= 3 && 0xE0 <= bytes[0] < 0xF0 && IsContinuation(bytes[1]) && IsContinuation(bytes[2]) then
      var n := Scalar(bytes[0] - 0xE0, bytes[1..3]);
      if n < 0x800 || 0xD800 <= n < 0xE000 || 0x1_0000 <= n then None else Some((n as char, 3))
    else if |bytes| >= 4 && 0xF0 <= bytes[0] < 0xF5 && IsContinuation(bytes[1]) && IsContinuation(bytes[2])
      && IsContinuation(bytes[3]) then
      var n := Scalar(bytes[0] - 0xF0, bytes[1..4]);
      if n < 0x1_0000 || 0x11_0000 <= n then None else Some((n as char, 4))
    else None
  }

  /** The number whose leading bits are `lead` and whose further groups of six bits are in `tail`. */
  function Scalar(lead: nat, tail: seq<byte>): nat
    requires forall b | b in tail :: IsContinuation(b)
  {
    if tail == [] then lead
    else
      assert IsContinuation(tail[|tail| - 1]);
      Scalar(lead, tail[..|tail| - 1]) * 0x40 + ((tail[|tail| - 1] as int) - 0x80)
  }

  function Decode(bytes: seq<byte>): Option<string> {
    if bytes == [] then Some([])
    else
      match DecodeChar(bytes)
      case None => None
      case Some((c, size)) =>
        match Decode(bytes[size..])
        case None => None
        case Some(rest) => Some([c] + rest)
  }

  lemma {:induction false} ScalarOfGroups(n: nat, count: nat, marker: nat)
    requires marker + Leading(n, count) < 0x100
    ensures Scalar(Leading(n, count), Groups(n, count, marker)[1..]) == n
  {
    if count > 0 {
      ScalarOfGroups(n / 0x40, count - 1, marker);
      var tail := Groups(n, count, marker)[1..];
      assert tail[..|tail| - 1] == Groups(n / 0x40, count - 1, marker)[1..];
    }
  }

  lemma DecodeCharOfEncodeChar(c: char, rest: seq<byte>)
    ensures DecodeChar(EncodeChar(c) + rest) == Some((c, |EncodeChar(c)|))
  {
    var n, e := c as int, EncodeChar(c);
    var bytes := e + rest;
    if n >= 0x80 {
      assert bytes[1..|e|] == e[1..];
      var count := |e| - 1;
      var marker := if count == 1 then 0xC0 else if count == 2 then 0xE0 else 0xF0;
      assert e == Groups(n, count, marker);
      ScalarOfGroups(n, count, marker);
      LeadingOf(n);
      assert IsContinuation(bytes[1]);
      assert count >= 2 ==> IsContinuation(bytes[2]);
      assert count >= 3 ==> IsContinuation(bytes[3]);
    }
  }

  lemma LeadingOf(n: nat)
    ensures Leading(n, 1) == n / 0x40 && Leading(n, 2) == n / 0x40 / 0x40 && Leading(n, 3) == n / 0x40 / 0x40 / 0x40
  {
    assert Leading(n, 1) == Leading(n / 0x40, 0);
    assert Leading(n, 2) == Leading(n / 0x40, 1) == Leading(n / 0x40 / 0x40, 0);
    assert Leading(n, 3) == Leading(n / 0x40, 2) == Leading(n / 0x40 / 0x40, 1) == Leading(n / 0x40 / 0x40 / 0x40, 0);
  }

  lemma {:induction false} DecodeOfEncode(s: string)
    ensures Decode(Encode(s)) == Some(s)
  {
    if s != [] {
      DecodeCharOfEncodeChar(s[0], Encode(s[1..]));
      DecodeOfEncode(s[1..]);
      assert Encode(s) != [] && s == [s[0]] + s[1..];
      assert Encode(s)[|EncodeChar(s[0])|..] == Encode(s[1..]);
    }
  }

  /** Lexicographic order, a prefix standing first. */
  predicate LexLeq(a: seq<int>, b: seq<int>) {
    a == [] || (b != [] && (a[0] < b[0] || (a[0] == b[0] && LexLeq(a[1..], b[1..]))))
  }

  function CodePoints(s: string): seq<int> {
    seq(|s|, i requires 0 <= i < |s| => s[i] as int)
  }

  lemma {:induction false} LexTotal(a: seq<int>, b: seq<int>)
    ensures LexLeq(a, b) || LexLeq(b, a)
  {
    if a != [] && b != [] && a[0] == b[0] {
      LexTotal(a[1..], b[1..]);
    }
  }

  lemma {:induction false} LexTransitive(a: seq<int>, b: seq<int>, c: seq<int>)
    requires LexLeq(a, b) && LexLeq(b, c)
    ensures LexLeq(a, c)
  {
    if a != [] && a[0] == b[0] == c[0] {
      LexTransitive(a[1..], b[1..], c[1..]);
    }
  }

  lemma {:induction false} LexAntisymmetric(a: seq<int>, b: seq<int>)
    requires LexLeq(a, b) && LexLeq(b, a)
    ensures a == b
  {
    if a != [] {
      LexAntisymmetric(a[1..], b[1..]);
      assert a == [a[0]] + a[1..] && b == [b[0]] + b[1..];
    }
  }

  lemma {:induction false} LexCommonPrefix(p: seq<int>, a: seq<int>, b: seq<int>)
    ensures LexLeq(p + a, p + b) == LexLeq(a, b)
  {
    if p == [] {
      assert p + a == a && p + b == b;
    } else {
      LexCommonPrefix(p[1..], a, b);
      assert (p + a)[1..] == p[1..] + a && (p + b)[1..] == p[1..] + b;
    }
  }

  lemma {:induction false} GroupsOrdered(m: nat, n: nat, count: nat, marker: nat) returns (k: nat)
    requires m < n && marker + Leading(m, count) < 0x100 && marker + Leading(n, count) < 0x100
    ensures k <= count
    ensures Groups(m, count, marker)[..k] == Groups(n, count, marker)[..k]
    ensures Groups(m, count, marker)[k] < Groups(n, count, marker)[k]
  {
    k := count;
    if count > 0 && m / 0x40 < n / 0x40 {
      k := GroupsOrdered(m / 0x40, n / 0x40, count - 1, marker);
      assert Groups(m, count, marker)[..k] == Groups(m / 0x40, count - 1, marker)[..k];
      assert Groups(n, count, marker)[..k] == Groups(n / 0x40, count - 1, marker)[..k];
    }
  }

  /** The smaller of two characters encodes to bytes that are already smaller at some shared position. */
  lemma EncodeCharOrdered(c: char, d: char) returns (k: nat)
    requires c < d
    ensures k < |EncodeChar(c)| && k < |EncodeChar(d)|
    ensures EncodeChar(c)[..k] == EncodeChar(d)[..k] && EncodeChar(c)[k] < EncodeChar(d)[k]
  {
    var m, n := c as int, d as int;
    LeadingOf(m);
    LeadingOf(n);
    var p, q := EncodeChar(c), EncodeChar(d);
    if m >= 0x80 && |p| == |q| {
      var marker := if |p| == 2 then 0xC0 else if |p| == 3 then 0xE0 else 0xF0;
      k := GroupsOrdered(m, n, |p| - 1, marker);
    } else {
      k := 0;
    }
  }

  lemma LexDecided(a: seq<int>, b: seq<int>, k: nat)
    requires k < |a| && k < |b| && a[..k] == b[..k] && a[k] < b[k]
    ensures LexLeq(a, b) && !LexLeq(b, a)
  {
    LexCommonPrefix(a[..k], a[k..], b[k..]);
    LexCommonPrefix(a[..k], b[k..], a[k..]);
    assert a == a[..k] + a[k..] && b == a[..k] + b[k..];
  }

  lemma SmallerFirstChar(a: string, b: string)
    requires a != [] && b != [] && a[0] < b[0]
    ensures LexLeq(Encode(a), Encode(b)) && !LexLeq(Encode(b), Encode(a))
  {
    var k := EncodeCharOrdered(a[0], b[0]);
    assert Encode(a)[..k] == EncodeChar(a[0])[..k] && Encode(b)[..k] == EncodeChar(b[0])[..k];
    LexDecided(Encode(a), Encode(b), k);
  }

  lemma SameFirstChar(a: string, b: string)
    requires a != [] && b != [] && a[0] == b[0]
    ensures LexLeq(Encode(a), Encode(b)) == LexLeq(Encode(a[1..]), Encode(b[1..]))
  {
    LexCommonPrefix(EncodeChar(a[0]), Encode(a[1..]), Encode(b[1..]));
  }

  lemma CodePointStep(a: string, b: string)
    requires a != [] && b != []
    ensures LexLeq(CodePoints(a), CodePoints(b))
            == (a[0] < b[0] || (a[0] == b[0] && LexLeq(CodePoints(a[1..]), CodePoints(b[1..]))))
  {
    assert CodePoints(a)[1..] == CodePoints(a[1..]) && CodePoints(b)[1..] == CodePoints(b[1..]);
  }

  /** Comparing UTF-8 bytes compares code points. */
  lemma {:induction false} ByteOrderIsCodePointOrder(a: string, b: string)
    ensures LexLeq(Encode(a), Encode(b)) == LexLeq(CodePoints(a), CodePoints(b))
  {
    if a == [] || b == [] {
      assert (Encode(a) == [] <==> a == []) && (Encode(b) == [] <==> b == []);
    } else {
      CodePointStep(a, b);
      if a[0] == b[0] {
        SameFirstChar(a, b);
        ByteOrderIsCodePointOrder(a[1..], b[1..]);
      } else if a[0] < b[0] {
        SmallerFirstChar(a, b);
      } else {
        SmallerFirstChar(b, a);
      }
    }
  }

  /** The order Rust sorts strings by. */
  predicate StringLeq(a: string, b: string) {
    LexLeq(Encode(a), Encode(b))
  }

  lemma StringAntisymmetric(a: string, b: string)
    requires StringLeq(a, b) && StringLeq(b, a)
    ensures a == b
  {
    LexAntisymmetric(Encode(a), Encode(b));
    DecodeOfEncode(a);
    DecodeOfEncode(b);
  }

  /** `a` ends where `b` goes on, or has the smaller character where they first differ. */
  ghost predicate ComesFirst(a: string, b: string) {
    a <= b || exists k | 0 <= k < |a| && k < |b| && a[..k] == b[..k] :: a[k] < b[k]
  }

  lemma ComesFirstTail(a: string, b: string)
    requires a != [] && b != [] && a[0] == b[0]
    ensures ComesFirst(a, b) <==> ComesFirst(a[1..], b[1..])
  {
    assert a == [a[0]] + a[1..] && b == [b[0]] + b[1..];
    if k :| 0 <= k < |a[1..]| && k < |b[1..]| && a[1..][..k] == b[1..][..k] && a[1..][k] < b[1..][k] {
      assert a[..k + 1] == [a[0]] + a[1..][..k] && b[..k + 1] == [b[0]] + b[1..][..k];
      assert a[k + 1] < b[k + 1];
    }
    if k :| 0 <= k < |a| && k < |b| && a[..k] == b[..k] && a[k] < b[k] {
      assert a[1..][..k - 1] == a[..k][1..] && b[1..][..k - 1] == b[..k][1..];
      assert a[1..][k - 1] < b[1..][k - 1];
    }
  }

  lemma ComesFirstHead(a: string, b: string)
    requires a != [] && b != [] && a[0] != b[0]
    ensures ComesFirst(a, b) <==> a[0] < b[0]
  {
    assert a[..0] == b[..0];
    assert forall k | 0 < k <= |a| && k <= |b| :: a[..k][0] != b[..k][0];
  }

  /** What the order of Rust strings means, character by character. */
  lemma {:induction false} StringLeqIff(a: string, b: string)
    ensures StringLeq(a, b) <==> ComesFirst(a, b)
  {
    if a != [] && b != [] {
      if a[0] == b[0] {
        SameFirstChar(a, b);
        ComesFirstTail(a, b);
        StringLeqIff(a[1..], b[1..]);
      } else {
        ComesFirstHead(a, b);
        if a[0] < b[0] {
          SmallerFirstChar(a, b);
        } else {
          SmallerFirstChar(b, a);
        }
      }
    }
  }

  // ---------- the bytes of a character ----------

  lemma EncodeCharIs(c: char)
    ensures var n := c as int;
            EncodeChar(c) == if n < 128 then [n]
                             else if n < 2048 then [192 + n / 64, 128 + n % 64]
                             else if n < 65536 then [224 + n / 64 / 64, 128 + n / 64 % 64, 128 + n % 64]
                             else [240 + n / 64 / 64 / 64, 128 + n / 64 / 64 % 64, 128 + n / 64 % 64, 128 + n % 64]
  {
    var n := c as int;
    LeadingOf(n);
    if n >= 128 {
      assert n < 2048 ==> EncodeChar(c) == Groups(n / 64, 0, 0xC0) + [0x80 + n % 64];
      if 2048 <= n {
        var marker, count := if n < 65536 then 0xE0 else 0xF0, if n < 65536 then 2 else 3;
        assert EncodeChar(c) == Groups(n / 64, count - 1, marker) + [0x80 + n % 64];
        assert Groups(n / 64, count - 1, marker) == Groups(n / 64 / 64, count - 2, marker) + [0x80 + n / 64 % 64];
      }
    }
  }

  lemma ScalarOne(lead: nat, a: byte)
    requires IsContinuation(a)
    ensures Scalar(lead, [a]) == lead * 64 + (a - 128)
  {
    assert [a][..0] == [];
    assert Scalar(lead, []) == lead;
  }

  lemma ScalarTwo(lead: nat, a: byte, b: byte)
    requires IsContinuation(a) && IsContinuation(b)
    ensures Scalar(lead, [a, b]) == (lead * 64 + (a - 128)) * 64 + (b - 128)
  {
    ScalarOne(lead, a);
    assert [a, b][..1] == [a];
  }

  lemma ScalarThree(lead: nat, a: byte, b: byte, c: byte)
    requires IsContinuation(a) && IsContinuation(b) && IsContinuation(c)
    ensures Scalar(lead, [a, b, c]) == ((lead * 64 + (a - 128)) * 64 + (b - 128)) * 64 + (c - 128)
  {
    ScalarTwo(lead, a, b);
    assert [a, b, c][..2] == [a, b];
  }

  lemma SixBits(high: nat, low: nat)
    requires low < 64
    ensures (high * 64 + low) / 64 == high && (high * 64 + low) % 64 == low
  {
  }

  lemma OnlyEncodedTwo(bytes: seq<byte>)
    requires DecodeChar(bytes).Some? && DecodeChar(bytes).value.1 == 2
    ensures EncodeChar(DecodeChar(bytes).value.0) == bytes[..2]
  {
    assert bytes[1..2] == [bytes[1]] && bytes[..2] == [bytes[0], bytes[1]];
    ScalarOne(bytes[0] - 0xC0, bytes[1]);
    SixBits(bytes[0] - 0xC0, bytes[1] - 128);
    EncodeCharIs(DecodeChar(bytes).value.0);
  }

  lemma OnlyEncodedThree(bytes: seq<byte>)
    requires DecodeChar(bytes).Some? && DecodeChar(bytes).value.1 == 3
    ensures EncodeChar(DecodeChar(bytes).value.0) == bytes[..3]
  {
    assert bytes[1..3] == [bytes[1], bytes[2]] && bytes[..3] == [bytes[0], bytes[1], bytes[2]];
    ScalarTwo(bytes[0] - 0xE0, bytes[1], bytes[2]);
    var a: int, b: int, c: int := bytes[0] - 0xE0, bytes[1] - 128, bytes[2] - 128;
    SixBits(a, b);
    SixBits(a * 64 + b, c);
    EncodeCharIs(DecodeChar(bytes).value.0);
  }

  lemma OnlyEncodedFour(bytes: seq<byte>)
    requires DecodeChar(bytes).Some? && DecodeChar(bytes).value.1 == 4
    ensures EncodeChar(DecodeChar(bytes).value.0) == bytes[..4]
  {
    assert bytes[1..4] == [bytes[1], bytes[2], bytes[3]] && bytes[..4] == [bytes[0], bytes[1], bytes[2], bytes[3]];
    ScalarThree(bytes[0] - 0xF0, bytes[1], bytes[2], bytes[3]);
    var a: int, b: int, c: int, d: int := bytes[0] - 0xF0, bytes[1] - 128, bytes[2] - 128, bytes[3] - 128;
    SixBits(a, b);
    SixBits(a * 64 + b, c);
    SixBits((a * 64 + b) * 64 + c, d);
    EncodeCharIs(DecodeChar(bytes).value.0);
  }

  lemma DecodeCharOnlyEncoded(bytes: seq<byte>)
    requires DecodeChar(bytes).Some?
    ensures EncodeChar(DecodeChar(bytes).value.0) == bytes[..DecodeChar(bytes).value.1]
  {
    var size := DecodeChar(bytes).value.1;
    if size == 1 {
      EncodeCharIs(DecodeChar(bytes).value.0);
      assert bytes[..1] == [bytes[0]];
    } else if size == 2 {
      OnlyEncodedTwo(bytes);
    } else if size == 3 {
      OnlyEncodedThree(bytes);
    } else {
      OnlyEncodedFour(bytes);
    }
  }

  /** Decoding accepts nothing but encodings: no overlong form, no surrogate, nothing cut short. */
  lemma {:induction false} DecodeOnlyEncoded(bytes: seq<byte>, s: string)
    ensures Decode(bytes) == Some(s) <==> bytes == Encode(s)
  {
    DecodeOfEncode(s);
    if Decode(bytes) == Some(s) && bytes != [] {
      var (c, size) := DecodeChar(bytes).value;
      DecodeCharOnlyEncoded(bytes);
      DecodeOnlyEncoded(bytes[size..], s[1..]);
      assert bytes == bytes[..size] + bytes[size..];
    }
  }
}
