/** The journal file and the logger: appending a record to trail and file, replaying a file when it
    is opened. */
module AuditJournal {
  import opened Options
  import opened Bytes
  import opened AuditRecord
  import opened AuditChain
  import opened AuditLayout

  // ---------- A file of records ----------

  const MAX_FILE := 64 * 1024 * 1024
  const CAPACITY := (64 * 1024 * 1024 - 32) / 256

  function Header(): (h: seq<Byte>)
    ensures |h| == 19
  {
    Ascii("AILEE-AUDIT-256-V1\n")
  }

  function EncodeAll(k: Codec, trail: seq<Record>): seq<Byte> {
    if trail == [] then [] else EncodeAll(k, trail[..|trail| - 1]) + k.enc(trail[|trail| - 1])
  }

  /** Identifiers count up from one. */
  ghost predicate Consecutive(trail: seq<Record>) {
    forall i :: 0 <= i < |trail| ==> trail[i].id == i + 1
  }

  ghost predicate Recorded(trail: seq<Record>) { AllWellFormed(trail) && Consecutive(trail) }

  lemma {:induction false} EncodedLength(k: Codec, trail: seq<Record>)
    requires Exact(k) && AllWellFormed(trail)
    ensures |EncodeAll(k, trail)| == RECORD_SIZE * |trail|
  {
    if trail != [] {
      EncodedLength(k, trail[..|trail| - 1]);
    }
  }

  /** Whole blocks to the end, each one a record with the next identifier. */
  function Replay(k: Codec, s: seq<Byte>): Option<seq<Record>>
    decreases |s|
  {
    if s == [] then Some([])
    else if |s| < RECORD_SIZE then None
    else
      var n := |s| - RECORD_SIZE;
      match Replay(k, s[..n])
      case None => None
      case Some(before) => Extended(before, k.dec(s[n..]))
  }

  function Extended(before: seq<Record>, next: Option<Record>): Option<seq<Record>> {
    if next.Some? && next.value.id == |before| + 1 then Some(before + [next.value]) else None
  }

  lemma RecordedSnoc(k: Codec, trail: seq<Record>, r: Record)
    requires Recorded(trail) && WellFormed(r) && r.id == |trail| + 1
    ensures Recorded(trail + [r]) && EncodeAll(k, trail + [r]) == EncodeAll(k, trail) + k.enc(r)
  {
    assert (trail + [r])[..|trail|] == trail;
  }

  lemma RecordedFront(trail: seq<Record>)
    requires Recorded(trail) && trail != []
    ensures Recorded(trail[..|trail| - 1]) && WellFormed(trail[|trail| - 1]) && trail[|trail| - 1].id == |trail|
  {
  }

  /** Replaying a written trail gives it back. */
  lemma {:induction false} ReplayOfWritten(k: Codec, trail: seq<Record>)
    requires Exact(k) && Recorded(trail)
    ensures Replay(k, EncodeAll(k, trail)) == Some(trail)
  {
    if trail != [] {
      var n := |trail| - 1;
      var s := EncodeAll(k, trail);
      RecordedFront(trail);
      ReplayOfWritten(k, trail[..n]);
      assert s[..|s| - RECORD_SIZE] == EncodeAll(k, trail[..n]) && s[|s| - RECORD_SIZE..] == k.enc(trail[n]);
      assert trail == trail[..n] + [trail[n]];
    }
  }

  /** Only written trails replay. */
  lemma {:induction false} WrittenOfReplay(k: Codec, s: seq<Byte>)
    requires Exact(k) && Replay(k, s).Some?
    ensures Recorded(Replay(k, s).value) && EncodeAll(k, Replay(k, s).value) == s
    decreases |s|
  {
    if s != [] {
      var n := |s| - RECORD_SIZE;
      WrittenOfReplay(k, s[..n]);
      RecordedSnoc(k, Replay(k, s[..n]).value, k.dec(s[n..]).value);
      assert s == s[..n] + s[n..];
    }
  }

  // ---------- Opening ----------

  /** A file that exists and is not empty. */
  function OpenExisting(k: Codec, file: seq<Byte>): Option<seq<Record>> {
    if |file| > MAX_FILE || |file| < 19 || file[..19] != Header() then None else Replay(k, file[19..])
  }

  ghost predicate Journal(c: Primitives, k: Codec, file: seq<Byte>, trail: seq<Record>) {
    Recorded(trail) && Verified(c, trail) && file == Header() + EncodeAll(k, trail) && |file| <= MAX_FILE
  }

  /** Open takes a file that replays and whose chain is intact. */
  ghost predicate Accepts(c: Primitives, k: Codec, file: seq<Byte>) {
    OpenExisting(k, file).Some? && Verified(c, OpenExisting(k, file).value)
  }

  /** Open accepts a file exactly when it is the journal of some trail, within the size limit, with
      consecutive identifiers and an intact chain; and then it rebuilds that trail.  A torn record, a
      gap in the identifiers or a broken link is therefore always refused. */
  lemma AcceptsIff(c: Primitives, k: Codec, file: seq<Byte>, trail: seq<Record>)
    requires Exact(k)
    ensures Accepts(c, k, file) && OpenExisting(k, file).value == trail <==> Journal(c, k, file, trail)
  {
    if Accepts(c, k, file) && OpenExisting(k, file).value == trail {
      WrittenOfReplay(k, file[19..]);
      assert file == file[..19] + file[19..];
    }
    if Journal(c, k, file, trail) {
      assert file[..19] == Header() && file[19..] == EncodeAll(k, trail);
      ReplayOfWritten(k, trail);
    }
  }

  lemma JournalLength(c: Primitives, k: Codec, file: seq<Byte>, trail: seq<Record>)
    requires Exact(k) && Journal(c, k, file, trail)
    ensures |file| == 19 + RECORD_SIZE * |trail|
  {
    EncodedLength(k, trail);
  }

  /** After a write that was cut short the file is refused. */
  lemma TornRecordRefused(c: Primitives, k: Codec, file: seq<Byte>, trail: seq<Record>, part: seq<Byte>)
    requires Exact(k) && Journal(c, k, file, trail) && 0 < |part| < RECORD_SIZE
    ensures !Accepts(c, k, file + part)
  {
    JournalLength(c, k, file, trail);
    if Accepts(c, k, file + part) {
      var other := OpenExisting(k, file + part).value;
      AcceptsIff(c, k, file + part, other);
      JournalLength(c, k, file + part, other);
    }
  }

  /** After a complete write the file is the journal of the longer trail, whether or not the logger
      saw the write succeed. */
  lemma WrittenIsJournal(c: Primitives, k: Codec, file: seq<Byte>, trail: seq<Record>, r: Record)
    requires Exact(k) && Journal(c, k, file, trail) && WellFormed(r) && r.id == |trail| + 1
    requires Verified(c, trail + [r]) && |trail| < CAPACITY
    ensures Journal(c, k, file + k.enc(r), trail + [r])
  {
    JournalLength(c, k, file, trail);
    RecordedSnoc(k, trail, r);
  }

  /** The capacity test of the logger is exactly what keeps its files within what open accepts. */
  lemma CapacityFits(k: Codec, trail: seq<Record>)
    requires Exact(k) && AllWellFormed(trail)
    ensures |trail| <= CAPACITY <==> |Header() + EncodeAll(k, trail)| <= MAX_FILE
  {
    EncodedLength(k, trail);
  }

  // ---------- Logging ----------

  datatype Decision = Decision(timestamp: nat, status: int, value: Bits, confidence: Bits, agreed: int, fallback: bool,
                               reasoning: seq<Byte>, models: seq<int>, count: nat)

  /** The shape of the structure, not a claim about its contents. */
  ghost predicate Shaped(d: Decision) {
    && d.timestamp < UINT64 && Int32(d.status) && Int32(d.agreed) && |d.reasoning| == 128
    && |d.models| == 64 && forall k :: 0 <= k < 64 ==> Int32(d.models[k])
  }

  /** A float between zero and one, minus zero included. */
  predicate InUnit(f: Bits) { f <= 0x3F80_0000 || f == 0x8000_0000 }

  predicate NumbersOk(d: Decision) {
    && Finite(d.value) && Finite(d.confidence) && InUnit(d.confidence)
    && 0 <= d.agreed <= 64 && d.count <= 10 && 0 <= d.status <= 4
  }

  function Zeros(n: nat): (z: seq<Byte>)
    ensures |z| == n
  {
    seq(n, _ => 0)
  }

  /** At most n - 1 bytes of the text in a zeroed buffer of n. */
  function Buffer(text: seq<Byte>, n: nat): (b: seq<Byte>)
    requires n > 0
    ensures |b| == n
  {
    if |text| <= n - 1 then text + Zeros(n - |text|) else text[..n - 1] + [0]
  }

  function NewRecord(d: Decision, symbol: seq<Byte>, strategy: seq<Byte>, user: seq<Byte>, id: nat, prev: Digest)
    : (r: Record)
    requires |d.models| == 64
  {
    Record(d.timestamp, id, d.status, d.value, d.confidence, d.agreed, d.fallback, Zeros(3),
           Buffer(Text(d.reasoning), 64), d.models[..10], Buffer(symbol, 12), Buffer(strategy, 16), Buffer(user, 16),
           prev, Zeros(8), ZeroDigest())
  }

  /** The buffer shows as much of the text as there is room for. */
  predicate Shows(buffer: seq<Byte>, text: seq<Byte>, room: nat) {
    Text(buffer) <= Text(text) && |Text(buffer)| == if |Text(text)| <= room then |Text(text)| else room
  }

  /** What a record says about the decision it was made for. */
  predicate Reports(r: Record, d: Decision, symbol: seq<Byte>, strategy: seq<Byte>, user: seq<Byte>) {
    && r.timestamp == d.timestamp && r.status == d.status && r.value == d.value && r.confidence == d.confidence
    && r.agreed == d.agreed && r.fallback == d.fallback
    && Shows(r.reasoning, d.reasoning, 63) && Shows(r.symbol, symbol, 11)
    && Shows(r.strategy, strategy, 15) && Shows(r.user, user, 15)
    && |r.models| == 10 && r.models <= d.models
  }

  lemma {:induction false} TextOfZeros(text: seq<Byte>, zeros: seq<Byte>)
    requires zeros != [] && zeros[0] == 0
    ensures Text(text + zeros) == Text(text)
  {
    if text != [] {
      assert (text + zeros)[1..] == text[1..] + zeros;
      if text[0] != 0 {
        TextOfZeros(text[1..], zeros);
      }
    }
  }

  lemma {:induction false} TextOfPrefix(text: seq<Byte>, n: nat)
    requires n <= |text|
    ensures Text(text[..n]) <= Text(text)
    ensures |Text(text[..n])| == if |Text(text)| <= n then |Text(text)| else n
  {
    if n > 0 && text[0] != 0 {
      assert text[..n][1..] == text[1..][..n - 1];
      TextOfPrefix(text[1..], n - 1);
    }
  }

  lemma BufferShows(text: seq<Byte>, n: nat)
    requires n > 0
    ensures Shows(Buffer(text, n), text, n - 1)
  {
    if |text| <= n - 1 {
      TextOfZeros(text, Zeros(n - |text|));
      TextOfPrefix(text, |text|);
      assert text[..|text|] == text;
    } else {
      TextOfZeros(text[..n - 1], [0]);
      TextOfPrefix(text, n - 1);
    }
  }

  lemma {:induction false} TextOfText(buffer: seq<Byte>)
    ensures Text(Text(buffer)) == Text(buffer)
  {
    if buffer != [] && buffer[0] != 0 {
      TextOfText(buffer[1..]);
    }
  }

  function Sealed(c: Primitives, r: Record): Record { r.(hash := c.digest(c.text(r))) }

  /** A new record shows its decision and what the caller names it with. */
  lemma NewRecordReports(c: Primitives, d: Decision, symbol: seq<Byte>, strategy: seq<Byte>, user: seq<Byte>, id: nat,
                         prev: Digest)
    requires Shaped(d)
    ensures Reports(Sealed(c, NewRecord(d, symbol, strategy, user, id, prev)), d, symbol, strategy, user)
  {
    hide Text, Buffer;
    BufferShows(Text(d.reasoning), 64);
    TextOfText(d.reasoning);
    BufferShows(symbol, 12);
    BufferShows(strategy, 16);
    BufferShows(user, 16);
  }

  function LastHash(trail: seq<Record>): Digest { if trail == [] then ZeroDigest() else trail[|trail| - 1].hash }

  lemma SealedText(c: Primitives, r: Record)
    requires Faithful(c) && WellFormed(r) && Safe(r)
    ensures c.text(Sealed(c, r)) == c.text(r)
  {
    assert Comparable(Sealed(c, r), r) && SameEvidence(Sealed(c, r), r);
  }

  lemma SealedLinks(c: Primitives, trail: seq<Record>, r: Record)
    requires Faithful(c) && WellFormed(r) && Safe(r) && r.id == |trail| + 1 && r.prev == LastHash(trail)
    ensures LinkOk(c, Sealed(c, r), ExpectedPrev(trail, |trail|))
  {
    SealedText(c, r);
  }

  /** Appending a record made for the end of the trail keeps the chain intact. */
  lemma ChainGrows(c: Primitives, trail: seq<Record>, r: Record)
    requires Faithful(c) && Verified(c, trail)
    requires WellFormed(r) && Safe(r) && r.id == |trail| + 1 && r.prev == LastHash(trail)
    ensures Verified(c, trail + [Sealed(c, r)])
  {
    var longer := trail + [Sealed(c, r)];
    SealedLinks(c, trail, r);
    forall k | 0 <= k < |longer| ensures LinkAt(c, longer, k) {
      if k < |trail| {
        assert LinkAt(c, trail, k);
      }
    }
  }

  lemma NewRecordWellFormed(d: Decision, symbol: seq<Byte>, strategy: seq<Byte>, user: seq<Byte>, id: nat, prev: Digest)
    requires Shaped(d) && NumbersOk(d) && id < UINT64
    ensures WellFormed(NewRecord(d, symbol, strategy, user, id, prev))
  {
  }

  // ---------- Replaying block by block ----------

  lemma {:induction false} ReplayedWhole(k: Codec, s: seq<Byte>)
    requires Replay(k, s).Some?
    ensures |s| == RECORD_SIZE * |Replay(k, s).value|
    decreases |s|
  {
    if s != [] {
      ReplayedWhole(k, s[..|s| - RECORD_SIZE]);
    }
  }

  lemma {:induction false} ReplayPrefix(k: Codec, s: seq<Byte>, n: nat)
    requires Replay(k, s).Some? && n <= |s| && n % RECORD_SIZE == 0
    ensures Replay(k, s[..n]).Some?
    decreases |s|
  {
    ReplayedWhole(k, s);
    if n < |s| {
      ReplayPrefix(k, s[..|s| - RECORD_SIZE], n);
      assert s[..|s| - RECORD_SIZE][..n] == s[..n];
    } else {
      assert s[..n] == s;
    }
  }

  lemma ReplayStep(k: Codec, s: seq<Byte>, trail: seq<Record>)
    requires RECORD_SIZE * |trail| + RECORD_SIZE <= |s|
    requires Replay(k, s[..RECORD_SIZE * |trail|]) == Some(trail)
    ensures var n := RECORD_SIZE * |trail|;
      Replay(k, s[..n + RECORD_SIZE]) == Extended(trail, k.dec(s[n..n + RECORD_SIZE]))
  {
    var n := RECORD_SIZE * |trail|;
    var t := s[..n + RECORD_SIZE];
    assert t[..n] == s[..n] && t[n..] == s[n..n + RECORD_SIZE];
  }

  /** The reading loop of open. */
  method ReadRecords(k: Codec, s: seq<Byte>) returns (trail: Option<seq<Record>>)
    ensures trail == Replay(k, s)
  {
    var sofar: seq<Record> := [];
    while RECORD_SIZE * |sofar| < |s|
      invariant RECORD_SIZE * |sofar| <= |s|
      invariant Replay(k, s[..RECORD_SIZE * |sofar|]) == Some(sofar)
      decreases |s| - |sofar|
    {
      var n := RECORD_SIZE * |sofar|;
      if n + RECORD_SIZE > |s| {
        if Replay(k, s).Some? {
          ReplayedWhole(k, s);
        }
        return None;
      }
      ReplayStep(k, s, sofar);
      var next := k.dec(s[n..n + RECORD_SIZE]);
      if next.None? || next.value.id != |sofar| + 1 {
        if Replay(k, s).Some? {
          ReplayPrefix(k, s, n + RECORD_SIZE);
        }
        return None;
      }
      sofar := sofar + [next.value];
    }
    assert s[..|s|] == s;
    trail := Some(sofar);
  }
}
