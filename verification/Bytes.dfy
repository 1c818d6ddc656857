/** Byte strings: decimal and hexadecimal text, separated lists, fixed-width blocks. */
module Bytes {

  type Byte = x: int | 0 <= x < 256

  /** The bytes of a literal. */
  function Ascii(s: string): (r: seq<Byte>)
    ensures |r| == |s|
  {
    seq(|s|, i requires 0 <= i < |s| => s[i] as int % 256)
  }

  // ---------- Decimal text ----------

  function Digits(n: nat): (s: seq<Byte>)
    ensures s != [] && forall k :: 0 <= k < |s| ==> 48 <= s[k] <= 57
  {
    if n < 10 then [48 + n] else Digits(n / 10) + [48 + n % 10]
  }

  function Decimal(n: int): (s: seq<Byte>)
    ensures s != [] && forall k :: 0 <= k < |s| ==> 45 <= s[k] <= 57
  {
    if n < 0 then [45] + Digits(-n) else Digits(n)
  }

  function DigitsValue(s: seq<Byte>): int {
    if s == [] then 0 else DigitsValue(s[..|s| - 1]) * 10 + s[|s| - 1] - 48
  }

  lemma {:induction false} DigitsRoundTrip(n: nat)
    ensures DigitsValue(Digits(n)) == n
  {
    if n < 10 {
      assert Digits(n)[..0] == [];
    } else {
      DigitsRoundTrip(n / 10);
      assert Digits(n)[..|Digits(n)| - 1] == Digits(n / 10);
    }
  }

  lemma {:induction false} DigitsInjective(a: nat, b: nat)
    requires Digits(a) == Digits(b)
    ensures a == b
  {
    DigitsRoundTrip(a);
    DigitsRoundTrip(b);
  }

  lemma SignAndDigits(a: seq<Byte>, b: seq<Byte>)
    requires [45] + a == [45] + b
    ensures a == b
  {
    assert ([45] + a)[1..] == a && ([45] + b)[1..] == b;
  }

  lemma {:induction false} SignDecides(a: int, b: int)
    requires Decimal(a) == Decimal(b)
    ensures a < 0 <==> b < 0
  {
    assert a < 0 <==> Decimal(a)[0] == 45;
    assert b < 0 <==> Decimal(b)[0] == 45;
  }

  /** Different integers print differently. */
  lemma {:induction false} DecimalInjective(a: int, b: int)
    requires Decimal(a) == Decimal(b)
    ensures a == b
  {
    SignDecides(a, b);
    if a < 0 {
      SignAndDigits(Digits(-a), Digits(-b));
      DigitsInjective(-a, -b);
    } else {
      DigitsInjective(a, b);
    }
  }

  /** The number that decimal text stands for. */
  function DecimalValue(s: seq<Byte>): int {
    if s != [] && s[0] == 45 then -DigitsValue(s[1..]) else DigitsValue(s)
  }

  /** Reading the text of an integer gives the integer. */
  lemma DecimalRoundTrip(n: int)
    ensures DecimalValue(Decimal(n)) == n
  {
    if n < 0 {
      DigitsRoundTrip(-n);
      assert Decimal(n)[1..] == Digits(-n);
    } else {
      DigitsRoundTrip(n);
      assert Decimal(n)[0] >= 48;
    }
  }

  // ---------- Hexadecimal text ----------

  function HexDigit(n: int): Byte
    requires 0 <= n < 16
  {
    if n < 10 then 48 + n else 87 + n
  }

  /** Lower case. */
  lemma HexDigitIs(n: int)
    requires 0 <= n < 16
    ensures HexDigit(n) == Ascii("0123456789abcdef")[n]
  {
    assert "0123456789abcdef"[n] as int == HexDigit(n);
  }

  function HexValue(c: Byte): (n: int)
    ensures 0 <= n < 16
  {
    if 48 <= c <= 57 then c - 48 else if 97 <= c <= 102 then c - 87 else 0
  }

  function Hex(bytes: seq<Byte>): (s: seq<Byte>)
    ensures |s| == 2 * |bytes|
    ensures forall k :: 0 <= k < |s| ==> 48 <= s[k] <= 102
  {
    if bytes == [] then [] else [HexDigit(bytes[0] / 16), HexDigit(bytes[0] % 16)] + Hex(bytes[1..])
  }

  function Unhex(s: seq<Byte>): (bytes: seq<Byte>)
    requires |s| % 2 == 0
    ensures |bytes| == |s| / 2
  {
    if s == [] then [] else [HexValue(s[0]) * 16 + HexValue(s[1])] + Unhex(s[2..])
  }

  lemma {:induction false} HexRoundTrip(bytes: seq<Byte>)
    ensures Unhex(Hex(bytes)) == bytes
  {
    if bytes != [] {
      HexRoundTrip(bytes[1..]);
      assert Hex(bytes)[2..] == Hex(bytes[1..]);
    }
  }

  lemma HexInjective(a: seq<Byte>, b: seq<Byte>)
    requires Hex(a) == Hex(b)
    ensures a == b
  {
    HexRoundTrip(a);
    HexRoundTrip(b);
  }

  // ---------- Separated lists ----------

  function Joined(items: seq<seq<Byte>>, sep: Byte): seq<Byte> {
    if items == [] then []
    else if |items| == 1 then items[0]
    else items[0] + [sep] + Joined(items[1..], sep)
  }

  ghost predicate Free(items: seq<seq<Byte>>, sep: Byte) {
    forall k :: 0 <= k < |items| ==> sep !in items[k]
  }

  /** The first separator ends the first item. */
  lemma FirstItem(a: seq<Byte>, b: seq<Byte>, x: seq<Byte>, y: seq<Byte>, sep: Byte)
    requires a + [sep] + x == b + [sep] + y && sep !in a && sep !in b
    ensures a == b && x == y
  {
    var s := a + [sep] + x;
    assert s[|a|] == sep && s[|b|] == sep;
    assert s[..|a|] == a && s[..|b|] == b;
    assert s[|a| + 1..] == x && s[|b| + 1..] == y;
  }

  /** The pieces between separators. */
  function Pieces(text: seq<Byte>, sep: Byte): (ps: seq<seq<Byte>>)
    ensures ps != []
  {
    if text == [] then [[]]
    else
      var rest := Pieces(text[1..], sep);
      if text[0] == sep then [[]] + rest else [[text[0]] + rest[0]] + rest[1..]
  }

  lemma {:induction false} PiecesOfItem(a: seq<Byte>, sep: Byte)
    requires sep !in a
    ensures Pieces(a, sep) == [a]
  {
    if a != [] {
      PiecesOfItem(a[1..], sep);
      assert a == [a[0]] + a[1..];
    }
  }

  lemma {:induction false} PiecesAfterItem(a: seq<Byte>, x: seq<Byte>, sep: Byte)
    requires sep !in a
    ensures Pieces(a + [sep] + x, sep) == [a] + Pieces(x, sep)
  {
    var s := a + [sep] + x;
    if a == [] {
      assert s[1..] == x;
    } else {
      PiecesAfterItem(a[1..], x, sep);
      assert s[1..] == a[1..] + [sep] + x;
      assert a == [a[0]] + a[1..];
    }
  }

  /** Cutting joined text at its separators gives the items back. */
  lemma {:induction false} PiecesOfJoined(items: seq<seq<Byte>>, sep: Byte)
    requires items != [] && Free(items, sep)
    ensures Pieces(Joined(items, sep), sep) == items
  {
    if |items| == 1 {
      PiecesOfItem(items[0], sep);
    } else {
      PiecesOfJoined(items[1..], sep);
      PiecesAfterItem(items[0], Joined(items[1..], sep), sep);
      assert items == [items[0]] + items[1..];
    }
  }

  /** A list of as many items, none holding the separator, is determined by its joined text. */
  lemma {:induction false} JoinedInjective(a: seq<seq<Byte>>, b: seq<seq<Byte>>, sep: Byte)
    requires |a| == |b| && Free(a, sep) && Free(b, sep) && Joined(a, sep) == Joined(b, sep)
    ensures a == b
  {
    if |a| > 1 {
      FirstItem(a[0], b[0], Joined(a[1..], sep), Joined(b[1..], sep), sep);
      JoinedInjective(a[1..], b[1..], sep);
      assert a == [a[0]] + a[1..] && b == [b[0]] + b[1..];
    }
  }

  lemma {:induction false} JoinedFree(items: seq<seq<Byte>>, sep: Byte, other: Byte)
    requires Free(items, other) && sep != other
    ensures other !in Joined(items, sep)
  {
    if |items| > 1 {
      JoinedFree(items[1..], sep, other);
    }
  }

  // ---------- Little-endian integers ----------

  function Pow256(k: nat): (p: nat)
    ensures p > 0
  {
    if k == 0 then 1 else 256 * Pow256(k - 1)
  }

  function LittleEndian(n: nat, k: nat): (s: seq<Byte>)
    ensures |s| == k
    decreases k
  {
    if k == 0 then [] else [n % 256] + LittleEndian(n / 256, k - 1)
  }

  function FromLittleEndian(s: seq<Byte>): (n: nat)
    ensures n < Pow256(|s|)
  {
    if s == [] then 0 else s[0] + 256 * FromLittleEndian(s[1..])
  }

  lemma {:induction false} LittleEndianRoundTrip(n: nat, k: nat)
    requires n < Pow256(k)
    ensures FromLittleEndian(LittleEndian(n, k)) == n
    decreases k
  {
    if k > 0 {
      LittleEndianRoundTrip(n / 256, k - 1);
      assert LittleEndian(n, k)[1..] == LittleEndian(n / 256, k - 1);
    }
  }

  lemma LowByte(low: Byte, high: nat)
    ensures (low + 256 * high) % 256 == low && (low + 256 * high) / 256 == high
  {
  }

  lemma {:induction false} FromLittleEndianRoundTrip(s: seq<Byte>)
    ensures LittleEndian(FromLittleEndian(s), |s|) == s
  {
    if s != [] {
      FromLittleEndianRoundTrip(s[1..]);
      LowByte(s[0], FromLittleEndian(s[1..]));
      assert s == [s[0]] + s[1..];
    }
  }

  // ---------- Blocks of given widths ----------

  function Flat(segments: seq<seq<Byte>>): seq<Byte> {
    if segments == [] then [] else segments[0] + Flat(segments[1..])
  }

  function Total(widths: seq<nat>): nat { if widths == [] then 0 else widths[0] + Total(widths[1..]) }

  ghost predicate HaveWidths(segments: seq<seq<Byte>>, widths: seq<nat>) {
    |segments| == |widths| && forall k :: 0 <= k < |widths| ==> |segments[k]| == widths[k]
  }

  function Cut(bytes: seq<Byte>, widths: seq<nat>): (segments: seq<seq<Byte>>)
    requires |bytes| == Total(widths)
    ensures HaveWidths(segments, widths)
  {
    if widths == [] then [] else [bytes[..widths[0]]] + Cut(bytes[widths[0]..], widths[1..])
  }

  lemma {:induction false} FlatLength(segments: seq<seq<Byte>>, widths: seq<nat>)
    requires HaveWidths(segments, widths)
    ensures |Flat(segments)| == Total(widths)
  {
    if segments != [] {
      FlatLength(segments[1..], widths[1..]);
    }
  }

  lemma {:induction false} CutOfFlat(segments: seq<seq<Byte>>, widths: seq<nat>)
    requires HaveWidths(segments, widths) && |Flat(segments)| == Total(widths)
    ensures Cut(Flat(segments), widths) == segments
  {
    if segments != [] {
      FlatLength(segments[1..], widths[1..]);
      CutOfFlat(segments[1..], widths[1..]);
      assert Flat(segments)[..widths[0]] == segments[0];
      assert Flat(segments)[widths[0]..] == Flat(segments[1..]);
      assert segments == [segments[0]] + segments[1..];
    }
  }

  lemma {:induction false} FlatOfCut(bytes: seq<Byte>, widths: seq<nat>)
    requires |bytes| == Total(widths)
    ensures Flat(Cut(bytes, widths)) == bytes
  {
    if widths != [] {
      FlatOfCut(bytes[widths[0]..], widths[1..]);
      assert Cut(bytes, widths)[1..] == Cut(bytes[widths[0]..], widths[1..]);
      assert bytes == bytes[..widths[0]] + bytes[widths[0]..];
    }
  }
}
