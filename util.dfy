/** The `util` helpers of the application (identifier generation and
    pluralisation), and the JavaScript `String.prototype.trim` that the
    store applies to every title it reads from an input field. */
module Util {

  /** A lower-case hexadecimal digit, as `Number.prototype.toString(16)`
      prints a value in [0, 16). */
  function HexDigit(d: int): (c: char)
    requires 0 <= d < 16
    ensures c in "0123456789abcdef"
  {
    "0123456789abcdef"[d]
  }

  lemma HexDigitInjective(d: int, e: int)
    requires 0 <= d < 16 && 0 <= e < 16
    ensures HexDigit(d) == HexDigit(e) <==> d == e
  {
  }

  /** The 32 draws of `Math.random() * 16 | 0` that one identifier consumes. */
  predicate ValidRandom(random: seq<int>)
  {
    |random| == 32 && forall i :: 0 <= i < |random| ==> 0 <= random[i] < 16
  }

  predicate AllDigits(s: seq<int>)
  {
    forall i :: 0 <= i < |s| ==> 0 <= s[i] < 16
  }

  /** The hexadecimal text of a run of digits. */
  function Hex(s: seq<int>): (r: string)
    requires AllDigits(s)
    ensures |r| == |s|
  {
    seq(|s|, i requires 0 <= i < |s| => HexDigit(s[i]))
  }

  /** Reference definition of the identifier in the 8-4-4-4-12 layout of
      section 3 of RFC 4122: the version nibble is 4 and the top two bits
      of the variant nibble are `10`. */
  function UuidText(random: seq<int>): (id: string)
    requires ValidRandom(random)
    ensures |id| == 36
  {
    Hex(random[0..8]) + "-" + Hex(random[8..12]) + "-" + "4" + Hex(random[13..16]) + "-"
    + [HexDigit(random[16] % 4 + 8)] + Hex(random[17..20]) + "-" + Hex(random[20..32])
  }

  /** The positions of the identifier that hold a random digit. */
  predicate IsRandomPosition(p: int)
  {
    0 <= p < 36 && p != 8 && p != 13 && p != 14 && p != 18 && p != 19 && p != 23
  }

  /** Which draw the digit at position `p` of the identifier comes from. */
  function SourceIndex(p: int): (i: int)
    requires IsRandomPosition(p)
    ensures 0 <= i < 32 && i != 12 && i != 16
  {
    if p < 8 then p else if p < 13 then p - 1 else if p < 18 then p - 2
    else if p < 23 then p - 3 else p - 4
  }

  /** Where the digit of draw `i` lands in the identifier. */
  function Position(i: int): (p: int)
    requires 0 <= i < 32 && i != 12 && i != 16
    ensures IsRandomPosition(p) && SourceIndex(p) == i
  {
    if i < 8 then i else if i < 12 then i + 1 else if i < 16 then i + 2
    else if i < 20 then i + 3 else i + 4
  }

  /** The character at position `p` of the identifier, position by
      position. A proof device only: `UuidText` is the reference
      definition, and `UuidTextChars` shows the two agree. */
  function UuidChar(random: seq<int>, p: int): char
    requires ValidRandom(random) && 0 <= p < 36
  {
    if p == 8 || p == 13 || p == 18 || p == 23 then '-'
    else if p == 14 then '4'
    else if p == 19 then HexDigit(random[16] % 4 + 8)
    else HexDigit(random[SourceIndex(p)])
  }

  lemma UuidLayout(random: seq<int>)
    requires ValidRandom(random)
    ensures var id := UuidText(random);
      && |id| == 36
      && id[8] == '-' && id[13] == '-' && id[18] == '-' && id[23] == '-'
      && id[14] == '4'
      && id[19] == HexDigit(random[16] % 4 + 8) && id[19] in "89ab"
      && forall p :: IsRandomPosition(p) ==> id[p] == HexDigit(random[SourceIndex(p)])
  {
    var id := UuidText(random);
    assert id[..8] == Hex(random[0..8]);
    assert id[9..13] == Hex(random[8..12]);
    assert id[15..18] == Hex(random[13..16]);
    assert id[20..23] == Hex(random[17..20]);
    assert id[24..] == Hex(random[20..32]);
    forall p | IsRandomPosition(p)
      ensures id[p] == HexDigit(random[SourceIndex(p)])
    {
      if p < 8 {
        assert id[p] == id[..8][p];
      } else if p < 13 {
        assert id[p] == id[9..13][p - 9];
      } else if p < 18 {
        assert id[p] == id[15..18][p - 15];
      } else if p < 23 {
        assert id[p] == id[20..23][p - 20];
      } else {
        assert id[p] == id[24..][p - 24];
      }
    }
  }

  /** The reference text agrees with the position-by-position
      description. */
  lemma UuidTextChars(random: seq<int>)
    requires ValidRandom(random)
    ensures forall p :: 0 <= p < 36 ==> UuidText(random)[p] == UuidChar(random, p)
  {
    UuidLayout(random);
  }

  /** Two identifiers are equal exactly when the draws that reach the text
      agree: draw 12 is discarded, and of draw 16 only the low two bits are
      kept. */
  lemma {:induction false} UuidInjective(r1: seq<int>, r2: seq<int>)
    requires ValidRandom(r1) && ValidRandom(r2)
    ensures UuidText(r1) == UuidText(r2) <==>
      (forall i :: 0 <= i < 32 && i != 12 && i != 16 ==> r1[i] == r2[i]) && r1[16] % 4 == r2[16] % 4
  {
    UuidLayout(r1);
    UuidLayout(r2);
    var id1, id2 := UuidText(r1), UuidText(r2);
    if (forall i :: 0 <= i < 32 && i != 12 && i != 16 ==> r1[i] == r2[i]) && r1[16] % 4 == r2[16] % 4 {
      forall p | 0 <= p < 36
        ensures id1[p] == id2[p]
      {
        if IsRandomPosition(p) {
          assert r1[SourceIndex(p)] == r2[SourceIndex(p)];
        }
      }
      assert id1 == id2;
    }
    if id1 == id2 {
      forall i | 0 <= i < 32 && i != 12 && i != 16
        ensures r1[i] == r2[i]
      {
        var p := Position(i);
        assert id1[p] == id2[p];
        HexDigitInjective(r1[i], r2[i]);
      }
      HexDigitInjective(r1[16] % 4 + 8, r2[16] % 4 + 8);
    }
  }

  /** The number of characters `Uuid` has written after `i` draws. */
  function Width(i: int): int
  {
    i + (if i > 8 then 1 else 0) + (if i > 12 then 1 else 0)
      + (if i > 16 then 1 else 0) + (if i > 20 then 1 else 0)
  }

  /** The value printed for draw `i`: the version digit 4 for draw 12, the
      variant digit (top bits `10`) for draw 16, the draw itself otherwise. */
  function Digit(random: seq<int>, i: int): (d: int)
    requires ValidRandom(random) && 0 <= i < 32
    ensures 0 <= d < 16
  {
    if i == 12 then 4 else if i == 16 then random[16] % 4 + 8 else random[i]
  }

  /** `random & 3 | 8` on a digit keeps its low two bits and sets bit 3. */
  lemma VariantBits(r: int)
    requires 0 <= r < 16
    ensures (((r as bv4) & 3) | 8) as int == r % 4 + 8
  {
  }

  /** Whether `util.uuid` writes a hyphen before draw `i`. */
  predicate DashBefore(i: int)
  {
    i == 8 || i == 12 || i == 16 || i == 20
  }

  /** The text `util.uuid` has built after `n` draws. A proof device only:
      it is the loop invariant of `Uuid`, and `BuiltLayout` ties it to
      `UuidText`, the reference definition. */
  function Built(random: seq<int>, n: int): string
    requires ValidRandom(random) && 0 <= n <= 32
  {
    if n == 0 then ""
    else Built(random, n - 1) + (if DashBefore(n - 1) then "-" else "") + [HexDigit(Digit(random, n - 1))]
  }

  /** Draw `i` lands where the identifier has its digit, after the
      hyphen that precedes it, if any. */
  lemma DrawPosition(random: seq<int>, i: int)
    requires ValidRandom(random) && 0 <= i < 32
    ensures var w := Width(i);
      var q := if DashBefore(i) then w + 1 else w;
      && Width(i + 1) == q + 1 && q < 36
      && (DashBefore(i) ==> UuidChar(random, w) == '-')
      && UuidChar(random, q) == HexDigit(Digit(random, i))
  {
    var w := Width(i);
    var q := if DashBefore(i) then w + 1 else w;
    if i != 12 && i != 16 {
      assert IsRandomPosition(q) && SourceIndex(q) == i;
    }
  }

  /** After `n` draws the text is the first `Width(n)` characters of the
      identifier. */
  lemma {:induction false} BuiltLayout(random: seq<int>, n: int)
    requires ValidRandom(random) && 0 <= n <= 32
    ensures |Built(random, n)| == Width(n)
    ensures forall p :: 0 <= p < Width(n) ==> Built(random, n)[p] == UuidChar(random, p)
  {
    if n > 0 {
      var i := n - 1;
      BuiltLayout(random, i);
      DrawPosition(random, i);
      var b := Built(random, i);
      var mid := if DashBefore(i) then "-" else "";
      var c := HexDigit(Digit(random, i));
      var s := b + mid + [c];
      assert Built(random, n) == s;
      var w := Width(i);
      forall p | 0 <= p < |s|
        ensures s[p] == UuidChar(random, p)
      {
        if p < w {
          assert s[p] == b[p];
        } else if p < w + |mid| {
          assert s[p] == '-';
        } else {
          assert s[p] == c;
        }
      }
    }
  }

  /** `util.uuid`: one character per draw, a hyphen before draws 8, 12, 16
      and 20, the fixed version digit for draw 12 and `random & 3 | 8` for
      draw 16. The draws are an input. */
  method Uuid(random: seq<int>) returns (uuid: string)
    requires ValidRandom(random)
    ensures uuid == UuidText(random)
  {
    uuid := "";
    for i := 0 to 32
      invariant uuid == Built(random, i)
    {
      var r := random[i];
      if i == 8 || i == 12 || i == 16 || i == 20 {
        uuid := uuid + "-";
      }
      VariantBits(r);
      var v := if i == 12 then 4 else if i == 16 then (((r as bv4) & 3) | 8) as int else r;
      uuid := uuid + [HexDigit(v)];
    }
    BuiltLayout(random, 32);
    UuidTextChars(random);
    assert forall p :: 0 <= p < 36 ==> uuid[p] == UuidText(random)[p];
  }

  /** `util.pluralize`: the word itself for exactly one, otherwise the word
      with an `s` appended. */
  function Pluralize(count: int, word: string): (r: string)
    ensures word <= r
    ensures r == word <==> count == 1
    ensures r != word ==> r == word + "s"
  {
    if count == 1 then word else word + "s"
  }

  /** The code points `String.prototype.trim` removes: the ECMAScript
      WhiteSpace and LineTerminator characters. */
  predicate IsSpace(c: char)
  {
    c == '\t' || c == '\n' || c == '\U{000B}' || c == '\U{000C}' || c == '\r' || c == ' '
    || c == '\U{00A0}' || c == '\U{1680}' || ('\U{2000}' <= c <= '\U{200A}')
    || c == '\U{2028}' || c == '\U{2029}' || c == '\U{202F}' || c == '\U{205F}'
    || c == '\U{3000}' || c == '\U{FEFF}'
  }

  function TrimStart(s: string): (r: string)
    ensures |r| <= |s| && r == s[|s| - |r|..]
    ensures forall i :: 0 <= i < |s| - |r| ==> IsSpace(s[i])
    ensures r != [] ==> !IsSpace(r[0])
  {
    if s != [] && IsSpace(s[0]) then TrimStart(s[1..]) else s
  }

  function TrimEnd(s: string): (r: string)
    ensures |r| <= |s| && r == s[..|r|]
    ensures forall i :: |r| <= i < |s| ==> IsSpace(s[i])
    ensures r != [] ==> !IsSpace(r[|r| - 1])
  {
    if s != [] && IsSpace(s[|s| - 1]) then TrimEnd(s[..|s| - 1]) else s
  }

  /** `String.prototype.trim`: the text without leading and trailing
      white space. The result is a contiguous piece of the text and only
      white space is cut from either side. It is empty exactly when the
      text is all white space. */
  function Trim(s: string): (r: string)
    ensures |r| <= |s|
    ensures r != [] ==> !IsSpace(r[0]) && !IsSpace(r[|r| - 1])
    ensures r == [] <==> forall i :: 0 <= i < |s| ==> IsSpace(s[i])
    ensures var k := |s| - |TrimStart(s)|;
      && 0 <= k && k + |r| <= |s| && r == s[k..k + |r|]
      && (forall i :: 0 <= i < k ==> IsSpace(s[i]))
      && (forall i :: k + |r| <= i < |s| ==> IsSpace(s[i]))
  {
    var t := TrimStart(s);
    var r := TrimEnd(t);
    r
  }
}
