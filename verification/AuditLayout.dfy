/** The 256-byte layout of a record in the journal. */
module AuditLayout {
  import opened Options
  import opened Bytes
  import opened AuditRecord

  // ---------- One record ----------

  const RECORD_SIZE := 256

  function ModelWidths(): (w: seq<nat>)
    ensures |w| == 10
  {
    [4, 4, 4, 4, 4, 4, 4, 4, 4, 4]
  }

  function Unsigned(n: int): nat
    requires Int32(n)
  {
    if n < 0 then n + 0x1_0000_0000 else n
  }

  function Signed(u: nat): (n: int)
    requires u < 0x1_0000_0000
    ensures Int32(n)
  {
    if u >= 0x8000_0000 then u - 0x1_0000_0000 else u
  }

  lemma Powers()
    ensures Pow256(1) == 256 && Pow256(4) == 0x1_0000_0000 && Pow256(8) == UINT64
  {
    assert Pow256(2) == 65536;
    assert Pow256(3) == 0x100_0000;
    assert Pow256(5) == 0x100_0000_0000;
    assert Pow256(6) == 0x1_0000_0000_0000;
    assert Pow256(7) == 0x100_0000_0000_0000;
  }

  function EncodeInt(n: int): (s: seq<Byte>)
    requires Int32(n)
    ensures |s| == 4
  {
    LittleEndian(Unsigned(n), 4)
  }

  function DecodeInt(s: seq<Byte>): (n: int)
    requires |s| == 4
    ensures Int32(n)
  {
    Powers();
    Signed(FromLittleEndian(s))
  }

  lemma IntRoundTrip(n: int)
    requires Int32(n)
    ensures DecodeInt(EncodeInt(n)) == n
  {
    Powers();
    LittleEndianRoundTrip(Unsigned(n), 4);
  }

  lemma IntBytesRoundTrip(s: seq<Byte>)
    requires |s| == 4
    ensures EncodeInt(DecodeInt(s)) == s
  {
    Powers();
    FromLittleEndianRoundTrip(s);
  }

  ghost predicate Ints(ns: seq<int>) { forall k :: 0 <= k < |ns| ==> Int32(ns[k]) }
  ghost predicate Fours(ss: seq<seq<Byte>>) { forall k :: 0 <= k < |ss| ==> |ss[k]| == 4 }

  function EncodeInts(ns: seq<int>): (ss: seq<seq<Byte>>)
    requires Ints(ns)
    ensures |ss| == |ns| && Fours(ss)
  {
    seq(|ns|, k requires 0 <= k < |ns| => EncodeInt(ns[k]))
  }

  function DecodeInts(ss: seq<seq<Byte>>): (ns: seq<int>)
    requires Fours(ss)
    ensures |ns| == |ss| && Ints(ns)
  {
    seq(|ss|, k requires 0 <= k < |ss| => DecodeInt(ss[k]))
  }

  lemma ModelTotal()
    ensures Total(ModelWidths()) == 40
  {
    var w := ModelWidths();
    assert Total(w[9..]) == 4 && Total(w[8..]) == 8 && Total(w[7..]) == 12 && Total(w[6..]) == 16 && Total(w[5..]) == 20
        && Total(w[4..]) == 24 && Total(w[3..]) == 28 && Total(w[2..]) == 32 && Total(w[1..]) == 36 by {
      TotalFrom(w, 9);
      TotalFrom(w, 8);
      TotalFrom(w, 7);
      TotalFrom(w, 6);
      TotalFrom(w, 5);
      TotalFrom(w, 4);
      TotalFrom(w, 3);
      TotalFrom(w, 2);
      TotalFrom(w, 1);
    }
  }

  lemma TotalFrom(w: seq<nat>, k: nat)
    requires k < |w|
    ensures Total(w[k..]) == w[k] + Total(w[k + 1..])
  {
    assert w[k..][1..] == w[k + 1..];
  }

  function EncodeModels(models: seq<int>): (s: seq<Byte>)
    requires |models| == 10 && Ints(models)
    ensures |s| == 40
  {
    ModelTotal();
    FlatLength(EncodeInts(models), ModelWidths());
    Flat(EncodeInts(models))
  }

  function DecodeModels(s: seq<Byte>): (models: seq<int>)
    requires |s| == 40
    ensures |models| == 10 && Ints(models)
  {
    ModelTotal();
    DecodeInts(Cut(s, ModelWidths()))
  }

  lemma ModelsRoundTrip(models: seq<int>)
    requires |models| == 10 && Ints(models)
    ensures DecodeModels(EncodeModels(models)) == models
  {
    ModelTotal();
    FlatLength(EncodeInts(models), ModelWidths());
    CutOfFlat(EncodeInts(models), ModelWidths());
    forall k | 0 <= k < 10 ensures DecodeInts(EncodeInts(models))[k] == models[k] {
      IntRoundTrip(models[k]);
    }
  }

  lemma ModelBytesRoundTrip(s: seq<Byte>)
    requires |s| == 40
    ensures EncodeModels(DecodeModels(s)) == s
  {
    ModelTotal();
    var cut := Cut(s, ModelWidths());
    assert EncodeInts(DecodeInts(cut)) == cut by {
      forall k | 0 <= k < 10 ensures EncodeInt(DecodeInt(cut[k])) == cut[k] {
        IntBytesRoundTrip(cut[k]);
      }
    }
    FlatOfCut(s, ModelWidths());
  }

  // ---------- The packed layout, in four groups of four ----------

  datatype Quad = Quad(a: seq<Byte>, b: seq<Byte>, c: seq<Byte>, d: seq<Byte>)

  function Glue(q: Quad): seq<Byte> { q.a + q.b + q.c + q.d }

  function Split(s: seq<Byte>, i: nat, j: nat, k: nat): (q: Quad)
    requires i <= j <= k <= |s|
    ensures Sized(q, i, j, k, |s|)
  {
    Quad(s[..i], s[i..j], s[j..k], s[k..])
  }

  predicate Sized(q: Quad, i: nat, j: nat, k: nat, n: nat) {
    |q.a| == i && |q.b| == j - i && |q.c| == k - j && |q.d| == n - k
  }

  lemma SplitOfGlue(q: Quad, i: nat, j: nat, k: nat, n: nat)
    requires i <= j <= k <= n && Sized(q, i, j, k, n)
    ensures |Glue(q)| == n && Split(Glue(q), i, j, k) == q
  {
  }

  lemma GlueOfSplit(s: seq<Byte>, i: nat, j: nat, k: nat)
    requires i <= j <= k <= |s|
    ensures Glue(Split(s, i, j, k)) == s
  {
  }

  function Word(s: seq<Byte>): Bits
    requires |s| == 4
  {
    Powers();
    FromLittleEndian(s)
  }

  lemma WordRoundTrip(w: Bits)
    ensures Word(LittleEndian(w, 4)) == w
  {
    Powers();
    LittleEndianRoundTrip(w, 4);
  }

  lemma WordBytesRoundTrip(s: seq<Byte>)
    requires |s| == 4
    ensures LittleEndian(Word(s), 4) == s
  {
    Powers();
    FromLittleEndianRoundTrip(s);
  }

  predicate HeadSized(q: Quad) { Sized(q, 8, 16, 20, 24) }
  predicate MiddleSized(q: Quad) { Sized(q, 4, 8, 9, 12) }
  predicate TextsSized(q: Quad) { Sized(q, 64, 104, 116, 132) }
  predicate TailSized(q: Quad) { Sized(q, 16, 48, 56, 88) }

  function Head(r: Record): (q: Quad)
    requires WellFormed(r)
    ensures HeadSized(q)
  {
    Quad(LittleEndian(r.timestamp, 8), LittleEndian(r.id, 8), EncodeInt(r.status), LittleEndian(r.value, 4))
  }

  function Middle(r: Record): (q: Quad)
    requires WellFormed(r)
    ensures MiddleSized(q)
  {
    Quad(LittleEndian(r.confidence, 4), EncodeInt(r.agreed), [if r.fallback then 1 else 0], r.pad)
  }

  function Texts(r: Record): (q: Quad)
    requires WellFormed(r)
    ensures TextsSized(q)
  {
    Quad(r.reasoning, EncodeModels(r.models), r.symbol, r.strategy)
  }

  function Tail(r: Record): (q: Quad)
    requires WellFormed(r)
    ensures TailSized(q)
  {
    Quad(r.user, r.prev, r.reserved, r.hash)
  }

  function Encode(r: Record): (s: seq<Byte>)
    requires WellFormed(r)
    ensures |s| == RECORD_SIZE
  {
    Glue(Quad(Glue(Head(r)), Glue(Middle(r)), Glue(Texts(r)), Glue(Tail(r))))
  }

  /** What the bytes hold before any check. */
  function FromParts(h: Quad, m: Quad, t: Quad, l: Quad): Record
    requires HeadSized(h) && MiddleSized(m) && TextsSized(t) && TailSized(l)
  {
    Record(FromLittleEndian(h.a), FromLittleEndian(h.b), DecodeInt(h.c), Word(h.d),
           Word(m.a), DecodeInt(m.b), m.c != [0], m.d, t.a, DecodeModels(t.b), t.c, t.d, l.a, l.b, l.c, l.d)
  }

  /** A status the enumeration has, a proper boolean, finite floats. */
  predicate PartsOk(h: Quad, m: Quad)
    requires HeadSized(h) && MiddleSized(m)
  {
    0 <= DecodeInt(h.c) <= 4 && m.c[0] <= 1 && Finite(Word(h.d)) && Finite(Word(m.a))
  }

  function HeadOf(s: seq<Byte>): (q: Quad)
    requires |s| == RECORD_SIZE
    ensures HeadSized(q)
  {
    Split(Split(s, 24, 36, 168).a, 8, 16, 20)
  }

  function MiddleOf(s: seq<Byte>): (q: Quad)
    requires |s| == RECORD_SIZE
    ensures MiddleSized(q)
  {
    Split(Split(s, 24, 36, 168).b, 4, 8, 9)
  }

  function TextsOf(s: seq<Byte>): (q: Quad)
    requires |s| == RECORD_SIZE
    ensures TextsSized(q)
  {
    Split(Split(s, 24, 36, 168).c, 64, 104, 116)
  }

  function TailOf(s: seq<Byte>): (q: Quad)
    requires |s| == RECORD_SIZE
    ensures TailSized(q)
  {
    Split(Split(s, 24, 36, 168).d, 16, 48, 56)
  }

  /** The checks the replay makes on one block. */
  function Decode(s: seq<Byte>): (r: Option<Record>)
    requires |s| == RECORD_SIZE
  {
    if PartsOk(HeadOf(s), MiddleOf(s)) then Some(FromParts(HeadOf(s), MiddleOf(s), TextsOf(s), TailOf(s))) else None
  }

  lemma PartsOfEncode(r: Record)
    requires WellFormed(r)
    ensures HeadOf(Encode(r)) == Head(r) && MiddleOf(Encode(r)) == Middle(r)
    ensures TextsOf(Encode(r)) == Texts(r) && TailOf(Encode(r)) == Tail(r)
  {
    var h, m, t, l := Head(r), Middle(r), Texts(r), Tail(r);
    SplitOfGlue(h, 8, 16, 20, 24);
    SplitOfGlue(m, 4, 8, 9, 12);
    SplitOfGlue(t, 64, 104, 116, 132);
    SplitOfGlue(l, 16, 48, 56, 88);
    SplitOfGlue(Quad(Glue(h), Glue(m), Glue(t), Glue(l)), 24, 36, 168, 256);
  }

  lemma HeadRoundTrip(r: Record)
    requires WellFormed(r)
    ensures var h := Head(r);
      && FromLittleEndian(h.a) == r.timestamp && FromLittleEndian(h.b) == r.id
      && DecodeInt(h.c) == r.status && Word(h.d) == r.value
  {
    Powers();
    LittleEndianRoundTrip(r.timestamp, 8);
    LittleEndianRoundTrip(r.id, 8);
    IntRoundTrip(r.status);
    WordRoundTrip(r.value);
  }

  lemma MiddleRoundTrip(r: Record)
    requires WellFormed(r)
    ensures var m := Middle(r);
      Word(m.a) == r.confidence && DecodeInt(m.b) == r.agreed && (m.c != [0] <==> r.fallback) && m.c[0] <= 1
  {
    WordRoundTrip(r.confidence);
    IntRoundTrip(r.agreed);
    assert r.fallback ==> [1][0] != [0][0];
  }

  /** Reading back what was written gives the record, padding and all. */
  lemma DecodeEncode(r: Record)
    requires WellFormed(r)
    ensures Decode(Encode(r)) == Some(r)
  {
    PartsOfEncode(r);
    HeadRoundTrip(r);
    MiddleRoundTrip(r);
    ModelsRoundTrip(r.models);
  }

  // ---------- Where each field lies ----------

  /** The unsigned number in the bytes from i to j, least significant first. */
  predicate HoldsNumber(s: seq<Byte>, i: nat, j: nat, n: nat) {
    i <= j <= |s| && FromLittleEndian(s[i..j]) == n
  }

  predicate Holds(s: seq<Byte>, i: nat, j: nat, part: seq<Byte>) {
    i <= j <= |s| && s[i..j] == part
  }

  lemma SubSlice(s: seq<Byte>, a: nat, b: nat, i: nat, j: nat)
    requires a <= b <= |s| && i <= j <= b - a
    ensures s[a..b][i..j] == s[a + i..a + j]
  {
    var left, right := s[a..b][i..j], s[a + i..a + j];
    assert |left| == |right|;
    forall k | 0 <= k < |left| ensures left[k] == right[k] {
      assert left[k] == s[a..b][i + k] == s[a + (i + k)];
      assert right[k] == s[a + i + k];
    }
  }

  /** A quarter of the record, cut in four. */
  lemma QuarterAt(s: seq<Byte>, a: nat, b: nat, i: nat, j: nat, k: nat)
    requires a <= b <= |s| && i <= j <= k <= b - a
    ensures Split(s[a..b], i, j, k) == Quad(s[a..a + i], s[a + i..a + j], s[a + j..a + k], s[a + k..b])
  {
    assert s[a..b][..i] == s[a..a + i];
    SubSlice(s, a, b, i, j);
    SubSlice(s, a, b, j, k);
    assert s[a..b][k..] == s[a + k..b];
  }

  lemma PartsAt(s: seq<Byte>)
    requires |s| == RECORD_SIZE
    ensures HeadOf(s) == Quad(s[0..8], s[8..16], s[16..20], s[20..24])
    ensures MiddleOf(s) == Quad(s[24..28], s[28..32], s[32..33], s[33..36])
    ensures TextsOf(s) == Quad(s[36..100], s[100..140], s[140..152], s[152..168])
    ensures TailOf(s) == Quad(s[168..184], s[184..216], s[216..224], s[224..256])
  {
    var q := Split(s, 24, 36, 168);
    assert q.a == s[0..24] && q.d == s[168..256];
    QuarterAt(s, 0, 24, 8, 16, 20);
    QuarterAt(s, 24, 36, 4, 8, 9);
    QuarterAt(s, 36, 168, 64, 104, 116);
    QuarterAt(s, 168, 256, 16, 48, 56);
  }

  predicate NumbersLaid(s: seq<Byte>, r: Record)
    requires WellFormed(r)
  {
    && HoldsNumber(s, 0, 8, r.timestamp) && HoldsNumber(s, 8, 16, r.id)
    && HoldsNumber(s, 16, 20, r.status) && HoldsNumber(s, 20, 24, r.value) && HoldsNumber(s, 24, 28, r.confidence)
    && HoldsNumber(s, 28, 32, TwosComplement(r.agreed)) && HoldsNumber(s, 32, 33, if r.fallback then 1 else 0)
  }

  predicate TextsLaid(s: seq<Byte>, r: Record) {
    && Holds(s, 33, 36, r.pad) && Holds(s, 36, 100, r.reasoning) && Holds(s, 140, 152, r.symbol)
    && Holds(s, 152, 168, r.strategy) && Holds(s, 168, 184, r.user) && Holds(s, 184, 216, r.prev)
    && Holds(s, 216, 224, r.reserved) && Holds(s, 224, 256, r.hash)
  }

  ghost predicate ModelsLaid(s: seq<Byte>, r: Record)
    requires WellFormed(r)
  {
    forall k :: 0 <= k < 10 ==> HoldsNumber(s, 100 + 4 * k, 104 + 4 * k, TwosComplement(r.models[k]))
  }

  function TwosComplement(n: int): nat
    requires -0x8000_0000 <= n < 0x8000_0000
  {
    if n < 0 then n + 0x1_0000_0000 else n
  }

  lemma NumbersAt(r: Record)
    requires WellFormed(r)
    ensures NumbersLaid(Encode(r), r)
  {
    hide Encode, Glue, Split, Head, Middle, FromLittleEndian;
    PartsAt(Encode(r));
    PartsOfEncode(r);
    NumbersHeld(r);
  }

  lemma TextsAt(r: Record)
    requires WellFormed(r)
    ensures TextsLaid(Encode(r), r)
  {
    hide Encode, Glue, Split, Head, EncodeModels, EncodeInt, FromLittleEndian;
    PartsAt(Encode(r));
    PartsOfEncode(r);
  }

  lemma ModelsAt(r: Record)
    requires WellFormed(r)
    ensures ModelsLaid(Encode(r), r)
  {
    hide Encode, Glue, Split, Head, Middle, Tail, FromLittleEndian;
    var s := Encode(r);
    PartsAt(s);
    PartsOfEncode(r);
    forall k | 0 <= k < 10 ensures HoldsNumber(s, 100 + 4 * k, 104 + 4 * k, TwosComplement(r.models[k])) {
      ModelAt(r.models, k);
      SubSlice(s, 100, 140, 4 * k, 4 * k + 4);
    }
  }

  /** The 256 bytes of a record, field by field, as the packed structure lays them out. */
  lemma LayoutOffsets(r: Record)
    requires WellFormed(r)
    ensures NumbersLaid(Encode(r), r) && TextsLaid(Encode(r), r) && ModelsLaid(Encode(r), r)
  {
    NumbersAt(r);
    TextsAt(r);
    ModelsAt(r);
  }

  lemma NumbersHeld(r: Record)
    requires WellFormed(r)
    ensures var h, m := Head(r), Middle(r);
      && FromLittleEndian(h.a) == r.timestamp && FromLittleEndian(h.b) == r.id && FromLittleEndian(h.c) == r.status
      && FromLittleEndian(h.d) == r.value && FromLittleEndian(m.a) == r.confidence
      && FromLittleEndian(m.b) == TwosComplement(r.agreed)
      && FromLittleEndian(m.c) == if r.fallback then 1 else 0
  {
    Powers();
    LittleEndianRoundTrip(r.timestamp, 8);
    LittleEndianRoundTrip(r.id, 8);
    LittleEndianRoundTrip(Unsigned(r.status), 4);
    LittleEndianRoundTrip(r.value, 4);
    LittleEndianRoundTrip(r.confidence, 4);
    LittleEndianRoundTrip(Unsigned(r.agreed), 4);
    assert FromLittleEndian([1]) == 1 && FromLittleEndian([0]) == 0;
  }

  lemma {:induction false} FourAt(segments: seq<seq<Byte>>, k: nat)
    requires Fours(segments) && k < |segments|
    ensures |Flat(segments)| >= 4 * k + 4 && Flat(segments)[4 * k..4 * k + 4] == segments[k]
  {
    if k > 0 {
      FourAt(segments[1..], k - 1);
      assert Flat(segments)[4..] == Flat(segments[1..]);
      assert Flat(segments)[4 * k..4 * k + 4] == Flat(segments)[4..][4 * (k - 1)..4 * (k - 1) + 4];
    }
  }

  lemma ModelAt(models: seq<int>, k: nat)
    requires |models| == 10 && Ints(models) && k < 10
    ensures FromLittleEndian(EncodeModels(models)[4 * k..4 * k + 4]) == TwosComplement(models[k])
  {
    FourAt(EncodeInts(models), k);
    Powers();
    LittleEndianRoundTrip(Unsigned(models[k]), 4);
  }

  lemma PartsWellFormed(h: Quad, m: Quad, t: Quad, l: Quad)
    requires HeadSized(h) && MiddleSized(m) && TextsSized(t) && TailSized(l) && PartsOk(h, m)
    ensures WellFormed(FromParts(h, m, t, l))
  {
    Powers();
  }

  lemma HeadBytes(h: Quad, m: Quad, t: Quad, l: Quad)
    requires HeadSized(h) && MiddleSized(m) && TextsSized(t) && TailSized(l)
    requires WellFormed(FromParts(h, m, t, l))
    ensures Head(FromParts(h, m, t, l)) == h
  {
    FromLittleEndianRoundTrip(h.a);
    FromLittleEndianRoundTrip(h.b);
    IntBytesRoundTrip(h.c);
    WordBytesRoundTrip(h.d);
  }

  lemma MiddleBytes(h: Quad, m: Quad, t: Quad, l: Quad)
    requires HeadSized(h) && MiddleSized(m) && TextsSized(t) && TailSized(l) && m.c[0] <= 1
    requires WellFormed(FromParts(h, m, t, l))
    ensures Middle(FromParts(h, m, t, l)) == m
  {
    WordBytesRoundTrip(m.a);
    IntBytesRoundTrip(m.b);
    assert m.c == [m.c[0]];
  }

  lemma TextsBytes(h: Quad, m: Quad, t: Quad, l: Quad)
    requires HeadSized(h) && MiddleSized(m) && TextsSized(t) && TailSized(l)
    requires WellFormed(FromParts(h, m, t, l))
    ensures Texts(FromParts(h, m, t, l)) == t && Tail(FromParts(h, m, t, l)) == l
  {
    ModelBytesRoundTrip(t.b);
  }

  lemma GlueAll(s: seq<Byte>)
    requires |s| == RECORD_SIZE
    ensures Glue(Quad(Glue(HeadOf(s)), Glue(MiddleOf(s)), Glue(TextsOf(s)), Glue(TailOf(s)))) == s
  {
    var q := Split(s, 24, 36, 168);
    GlueOfSplit(q.a, 8, 16, 20);
    GlueOfSplit(q.b, 4, 8, 9);
    GlueOfSplit(q.c, 64, 104, 116);
    GlueOfSplit(q.d, 16, 48, 56);
    GlueOfSplit(s, 24, 36, 168);
  }

  /** A block that decodes is the encoding of what it decodes to, so distinct blocks never show the
      same record. */
  lemma EncodeDecode(s: seq<Byte>)
    requires |s| == RECORD_SIZE && Decode(s).Some?
    ensures WellFormed(Decode(s).value) && Encode(Decode(s).value) == s
  {
    var h, m, t, l := HeadOf(s), MiddleOf(s), TextsOf(s), TailOf(s);
    PartsWellFormed(h, m, t, l);
    HeadBytes(h, m, t, l);
    MiddleBytes(h, m, t, l);
    TextsBytes(h, m, t, l);
    GlueAll(s);
  }

  // ---------- The layout as a codec ----------

  /** How records are written as blocks and read back. */
  datatype Codec = Codec(enc: Record -> seq<Byte>, dec: seq<Byte> -> Option<Record>)

  /** A well-formed record fills a block and reads back as itself; a block that reads back is the one
      its record is written as. */
  ghost predicate Exact(k: Codec) {
    && (forall r :: WellFormed(r) ==> |k.enc(r)| == RECORD_SIZE && k.dec(k.enc(r)) == Some(r))
    && (forall s: seq<Byte> :: |s| == RECORD_SIZE && k.dec(s).Some? ==>
          WellFormed(k.dec(s).value) && k.enc(k.dec(s).value) == s)
  }

  function Packed(): Codec {
    Codec(r => if WellFormed(r) then Encode(r) else [],
          (s: seq<Byte>) => if |s| == RECORD_SIZE then Decode(s) else None)
  }

  lemma PackedIsExact()
    ensures Exact(Packed())
  {
    forall r | WellFormed(r) ensures |Packed().enc(r)| == RECORD_SIZE && Packed().dec(Packed().enc(r)) == Some(r) {
      DecodeEncode(r);
    }
    forall s: seq<Byte> | |s| == RECORD_SIZE && Packed().dec(s).Some?
      ensures WellFormed(Packed().dec(s).value) && Packed().enc(Packed().dec(s).value) == s
    {
      EncodeDecode(s);
    }
  }
}
