/** The audit record and its canonical text. */
module AuditRecord {
  import opened Bytes

  /** A float is its 32 bits; it is finite unless its exponent is all ones. */
  type Bits = x: int | 0 <= x < 0x1_0000_0000

  predicate Finite(f: Bits) { f / 0x80_0000 % 256 != 255 }

  type Digest = d: seq<Byte> | |d| == 32
    witness [0, 0, 0, 0, 0, 0, 0, 0, 0, 0, 0, 0, 0, 0, 0, 0, 0, 0, 0, 0, 0, 0, 0, 0, 0, 0, 0, 0, 0, 0, 0, 0]

  function ZeroDigest(): Digest { seq(32, _ => 0) }

  datatype Record = Record(timestamp: nat, id: nat, status: int, value: Bits, confidence: Bits, agreed: int,
                           fallback: bool, pad: seq<Byte>, reasoning: seq<Byte>, models: seq<int>, symbol: seq<Byte>,
                           strategy: seq<Byte>, user: seq<Byte>, prev: Digest, reserved: seq<Byte>, hash: Digest)

  predicate Int32(n: int) { -0x8000_0000 <= n < 0x8000_0000 }

  const UINT64 := 0x1_0000_0000_0000_0000

  predicate WellFormed(r: Record) {
    && r.timestamp < UINT64 && r.id < UINT64 && 0 <= r.status <= 4
    && Finite(r.value) && Finite(r.confidence) && Int32(r.agreed)
    && |r.pad| == 3 && |r.reasoning| == 64 && |r.symbol| == 12 && |r.strategy| == 16 && |r.user| == 16
    && |r.reserved| == 8 && |r.models| == 10 && forall k :: 0 <= k < 10 ==> Int32(r.models[k])
  }

  // ---------- Canonical text ----------

  const SEPARATOR: Byte := 31
  const COMMA: Byte := 44

  /** The text of a buffer: everything before its first NUL. */
  function Text(buffer: seq<Byte>): seq<Byte> {
    if buffer == [] || buffer[0] == 0 then [] else [buffer[0]] + Text(buffer[1..])
  }

  predicate SafeText(buffer: seq<Byte>) {
    forall k :: 0 <= k < |Text(buffer)| ==> Text(buffer)[k] >= 32 && Text(buffer)[k] != 127
  }

  /** No control character in any text: otherwise the record has no canonical text at all. */
  predicate Safe(r: Record) {
    SafeText(r.reasoning) && SafeText(r.symbol) && SafeText(r.strategy) && SafeText(r.user)
  }

  /** How floats print is a parameter: finite ones without the separator, and differently. */
  type Printer = Bits -> seq<Byte>

  ghost predicate FaithfulPrinter(show: Printer) {
    && (forall f: Bits :: Finite(f) ==> SEPARATOR !in show(f))
    && (forall f: Bits, g: Bits :: Finite(f) && Finite(g) && show(f) == show(g) ==> f == g)
  }

  function GenesisText(): (t: seq<Byte>)
    ensures |t| == 16 && forall k :: 0 <= k < |t| ==> t[k] == 48
  {
    seq(16, _ => 48)
  }

  function PrevText(r: Record): seq<Byte> {
    if r.id == 1 && r.prev == ZeroDigest() then GenesisText() else Hex(r.prev)
  }

  function ModelTexts(models: seq<int>): (t: seq<seq<Byte>>)
    ensures |t| == |models|
  {
    seq(|models|, k requires 0 <= k < |models| => Decimal(models[k]))
  }

  function Names(): (n: seq<seq<Byte>>)
    ensures |n| == 13
  {
    [Ascii("timestamp_ns="), Ascii("decision_id="), Ascii("status="), Ascii("final_value="), Ascii("confidence="),
     Ascii("models_agreed="), Ascii("fallback_used="), Ascii("reasoning="), Ascii("symbol="), Ascii("strategy_id="),
     Ascii("user_id="), Ascii("prev_hash="), Ascii("contributing_models=")]
  }

  function Fields(show: Printer, r: Record): (f: seq<seq<Byte>>)
    ensures |f| == 13
  {
    [Decimal(r.timestamp), Decimal(r.id), Decimal(r.status), show(r.value), show(r.confidence),
     Decimal(r.agreed), [if r.fallback then 49 else 48], Text(r.reasoning), Text(r.symbol), Text(r.strategy),
     Text(r.user), PrevText(r), Joined(ModelTexts(r.models), COMMA)]
  }

  function Tagged(names: seq<seq<Byte>>, fields: seq<seq<Byte>>): (t: seq<seq<Byte>>)
    requires |names| == |fields|
    ensures |t| == |fields|
  {
    seq(|fields|, k requires 0 <= k < |fields| => names[k] + fields[k])
  }

  function Serialized(show: Printer, r: Record): seq<Byte> {
    Joined(Tagged(Names(), Fields(show, r)), SEPARATOR)
  }

  /** What the canonical text pins down. */
  ghost predicate SameEvidence(a: Record, b: Record) {
    && a.timestamp == b.timestamp && a.id == b.id && a.status == b.status
    && a.value == b.value && a.confidence == b.confidence && a.agreed == b.agreed && a.fallback == b.fallback
    && Text(a.reasoning) == Text(b.reasoning) && Text(a.symbol) == Text(b.symbol)
    && Text(a.strategy) == Text(b.strategy) && Text(a.user) == Text(b.user)
    && a.prev == b.prev && a.models == b.models
  }

  lemma NameFree(s: string)
    requires forall k :: 0 <= k < |s| ==> 'a' <= s[k] <= 'z' || s[k] == '_' || s[k] == '='
    ensures SEPARATOR !in Ascii(s)
  {
  }

  lemma NamesFree()
    ensures Free(Names(), SEPARATOR)
  {
    NameFree("timestamp_ns=");
    NameFree("decision_id=");
    NameFree("status=");
    NameFree("final_value=");
    NameFree("confidence=");
    NameFree("models_agreed=");
    NameFree("fallback_used=");
    NameFree("reasoning=");
    NameFree("symbol=");
    NameFree("strategy_id=");
    NameFree("user_id=");
    NameFree("prev_hash=");
    NameFree("contributing_models=");
  }

  lemma FieldsFree(show: Printer, r: Record)
    requires FaithfulPrinter(show) && WellFormed(r) && Safe(r)
    ensures Free(Fields(show, r), SEPARATOR)
  {
    JoinedFree(ModelTexts(r.models), COMMA, SEPARATOR);
  }

  lemma TaggedFree(names: seq<seq<Byte>>, fields: seq<seq<Byte>>, sep: Byte)
    requires |names| == |fields| && Free(names, sep) && Free(fields, sep)
    ensures Free(Tagged(names, fields), sep)
  {
  }

  lemma UntagOne(name: seq<Byte>, a: seq<Byte>, b: seq<Byte>)
    requires name + a == name + b
    ensures a == b
  {
    assert (name + a)[|name|..] == a && (name + b)[|name|..] == b;
  }

  lemma Untag(names: seq<seq<Byte>>, a: seq<seq<Byte>>, b: seq<seq<Byte>>)
    requires |names| == |a| == |b| && Tagged(names, a) == Tagged(names, b)
    ensures a == b
  {
    forall k | 0 <= k < |a| ensures a[k] == b[k] {
      assert Tagged(names, a)[k] == Tagged(names, b)[k];
      UntagOne(names[k], a[k], b[k]);
    }
  }

  lemma SameFields(show: Printer, a: Record, b: Record)
    requires FaithfulPrinter(show) && WellFormed(a) && WellFormed(b) && Safe(a) && Safe(b)
    requires Serialized(show, a) == Serialized(show, b)
    ensures Fields(show, a) == Fields(show, b)
  {
    var fa, fb := Fields(show, a), Fields(show, b);
    NamesFree();
    FieldsFree(show, a);
    FieldsFree(show, b);
    TaggedFree(Names(), fa, SEPARATOR);
    TaggedFree(Names(), fb, SEPARATOR);
    JoinedInjective(Tagged(Names(), fa), Tagged(Names(), fb), SEPARATOR);
    Untag(Names(), fa, fb);
  }

  /** The k-th piece of the canonical text is this name followed by this value. */
  ghost predicate Says(text: seq<Byte>, k: nat, name: string, value: seq<Byte>) {
    k < |Pieces(text, SEPARATOR)| && Pieces(text, SEPARATOR)[k] == Ascii(name) + value
  }

  lemma TextPieces(show: Printer, r: Record)
    requires FaithfulPrinter(show) && WellFormed(r) && Safe(r)
    ensures Pieces(Serialized(show, r), SEPARATOR) == Tagged(Names(), Fields(show, r))
  {
    NamesFree();
    FieldsFree(show, r);
    TaggedFree(Names(), Fields(show, r), SEPARATOR);
    PiecesOfJoined(Tagged(Names(), Fields(show, r)), SEPARATOR);
  }

  /** Cut at its separators, the canonical text shows each field of the record under its own name. */
  lemma TextSays(show: Printer, r: Record)
    requires FaithfulPrinter(show) && WellFormed(r) && Safe(r)
    ensures var text := Serialized(show, r);
      && |Pieces(text, SEPARATOR)| == 13
      && Says(text, 0, "timestamp_ns=", Decimal(r.timestamp)) && Says(text, 1, "decision_id=", Decimal(r.id))
      && Says(text, 2, "status=", Decimal(r.status)) && Says(text, 3, "final_value=", show(r.value))
      && Says(text, 4, "confidence=", show(r.confidence)) && Says(text, 5, "models_agreed=", Decimal(r.agreed))
      && Says(text, 6, "fallback_used=", Decimal(if r.fallback then 1 else 0))
      && Says(text, 7, "reasoning=", Text(r.reasoning)) && Says(text, 8, "symbol=", Text(r.symbol))
      && Says(text, 9, "strategy_id=", Text(r.strategy)) && Says(text, 10, "user_id=", Text(r.user))
      && Says(text, 11, "prev_hash=", PrevText(r))
      && Says(text, 12, "contributing_models=", Joined(ModelTexts(r.models), COMMA))
  {
    hide Pieces, Serialized, PrevText, Joined, Text;
    TextPieces(show, r);
    var t := Tagged(Names(), Fields(show, r));
    forall k | 0 <= k < 13 ensures t[k] == Names()[k] + Fields(show, r)[k] {
    }
  }

  lemma SamePrev(a: Record, b: Record)
    requires a.id == b.id && PrevText(a) == PrevText(b)
    ensures a.prev == b.prev
  {
    if PrevText(a) == Hex(a.prev) && PrevText(b) == Hex(b.prev) {
      HexInjective(a.prev, b.prev);
    }
  }

  lemma SameModels(a: seq<int>, b: seq<int>)
    requires |a| == |b| && Joined(ModelTexts(a), COMMA) == Joined(ModelTexts(b), COMMA)
    ensures a == b
  {
    JoinedInjective(ModelTexts(a), ModelTexts(b), COMMA);
    forall k | 0 <= k < |a| ensures a[k] == b[k] {
      assert ModelTexts(a)[k] == ModelTexts(b)[k];
      DecimalInjective(a[k], b[k]);
    }
  }

  lemma FieldsDecide(show: Printer, a: Record, b: Record)
    requires FaithfulPrinter(show) && WellFormed(a) && WellFormed(b) && Fields(show, a) == Fields(show, b)
    ensures SameEvidence(a, b)
  {
    var fa, fb := Fields(show, a), Fields(show, b);
    assert fa[0] == fb[0] && fa[1] == fb[1] && fa[2] == fb[2] && fa[3] == fb[3] && fa[4] == fb[4];
    assert fa[5] == fb[5] && fa[6] == fb[6] && fa[7] == fb[7] && fa[8] == fb[8] && fa[9] == fb[9];
    assert fa[10] == fb[10] && fa[11] == fb[11] && fa[12] == fb[12];
    DecimalInjective(a.timestamp, b.timestamp);
    DecimalInjective(a.id, b.id);
    DecimalInjective(a.status, b.status);
    DecimalInjective(a.agreed, b.agreed);
    assert fa[6][0] == fb[6][0];
    SamePrev(a, b);
    SameModels(a.models, b.models);
  }

  /** Two records have the same canonical text exactly when they agree on every canonical field:
      each text up to its NUL, every number, the previous digest and the model list. */
  lemma SerializationInjective(show: Printer, a: Record, b: Record)
    requires FaithfulPrinter(show) && WellFormed(a) && WellFormed(b) && Safe(a) && Safe(b)
    ensures Serialized(show, a) == Serialized(show, b) <==> SameEvidence(a, b)
  {
    if Serialized(show, a) == Serialized(show, b) {
      SameFields(show, a, b);
      FieldsDecide(show, a, b);
    }
    if SameEvidence(a, b) {
      assert Fields(show, a) == Fields(show, b);
    }
  }
}
