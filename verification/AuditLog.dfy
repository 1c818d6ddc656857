/** The audit logger: the trail in memory, the chain's end, and the journal file behind it. */
module AuditLog {
  import opened Options
  import opened Bytes
  import opened AuditRecord
  import opened AuditChain
  import opened AuditLayout
  import opened AuditJournal

  datatype Outcome = Logged | Unavailable | InvalidNumbers | CapacityReached | UnsafeText | PersistenceFailed

  /** How one write to the file ended: bytes that reached it, and whether the sync succeeded. */
  datatype Write = Write(written: nat, synced: bool)

  predicate Complete(w: Write) { w.written >= RECORD_SIZE && w.synced }

  function Prefix(s: seq<Byte>, n: nat): seq<Byte> { if n <= |s| then s[..n] else s }

  /** The errors in the order the logger raises them. */
  function OutcomeOf(persistent: bool, isOpen: bool, d: Decision, r: Record, w: Write): Outcome {
    if persistent && !isOpen then Unavailable
    else if !NumbersOk(d) then InvalidNumbers
    else if isOpen && r.id > CAPACITY then CapacityReached
    else if !Safe(r) then UnsafeText
    else if isOpen && !Complete(w) then PersistenceFailed
    else Logged
  }

  /** Each error names the first thing in the way, and only a decision with nothing in the way is
      logged. */
  lemma OutcomeIff(persistent: bool, isOpen: bool, d: Decision, r: Record, w: Write)
    ensures var o := OutcomeOf(persistent, isOpen, d, r, w);
      var full, failed := isOpen && r.id > CAPACITY, isOpen && !(w.written >= 256 && w.synced);
      && (o.Logged? <==> (persistent ==> isOpen) && NumbersOk(d) && !full && Safe(r) && !failed)
      && (o.PersistenceFailed? ==> failed && Safe(r) && NumbersOk(d))
      && (o.UnsafeText? ==> !Safe(r) && NumbersOk(d) && !full)
      && (o.CapacityReached? ==> full && NumbersOk(d))
      && (o.InvalidNumbers? ==> !NumbersOk(d) && (persistent ==> isOpen))
      && (o.Unavailable? <==> persistent && !isOpen)
  {
  }

  class AuditLogger {
    const c: Primitives
    const k: Codec
    var trail: seq<Record>
    var nextId: nat
    var lastHash: Digest
    var isOpen: bool
    var persistent: bool
    /** The bytes of the open file. */
    var file: seq<Byte>

    /** The trail is a chain from its genesis, the counters point past its end, and an open file is
        exactly the journal of the trail. */
    ghost predicate Valid()
      reads this
    {
      && Faithful(c) && Exact(k) && Recorded(trail) && Verified(c, trail)
      && nextId == |trail| + 1 && lastHash == LastHash(trail)
      && (isOpen ==> persistent && Journal(c, k, file, trail))
    }

    constructor (c: Primitives, k: Codec)
      requires Faithful(c) && Exact(k)
      ensures Valid() && trail == [] && !isOpen && !persistent && this.c == c && this.k == k
    {
      this.c, this.k := c, k;
      trail, nextId, lastHash, isOpen, persistent, file := [], 1, ZeroDigest(), false, false, [];
    }

    ghost function Next(d: Decision, symbol: seq<Byte>, strategy: seq<Byte>, user: seq<Byte>): Record
      requires Shaped(d)
      reads this
    {
      NewRecord(d, symbol, strategy, user, nextId, lastHash)
    }

    /** Logs one decision, or says why not; only a logged decision changes the trail, and a failed
        write closes the file with whatever part of the record reached it. */
    method LogDecision(d: Decision, symbol: seq<Byte>, strategy: seq<Byte>, user: seq<Byte>, w: Write)
      returns (o: Outcome)
      requires Valid() && Shaped(d) && nextId < UINT64
      modifies this
      ensures Valid() && persistent == old(persistent)
      ensures o == OutcomeOf(old(persistent), old(isOpen), d, old(Next(d, symbol, strategy, user)), w)
      ensures o.Logged? ==> isOpen == old(isOpen)
      ensures o.Logged? ==> trail == old(trail) + [Sealed(c, old(Next(d, symbol, strategy, user)))]
      ensures o.Logged? ==>
        Reports(trail[|old(trail)|], d, symbol, strategy, user) && trail[|old(trail)|].id == |trail|
      ensures !o.Logged? ==> trail == old(trail)
      ensures isOpen <==> old(isOpen) && !o.PersistenceFailed?
      ensures o.PersistenceFailed? ==>
        file == old(file) + Prefix(k.enc(Sealed(c, old(Next(d, symbol, strategy, user)))), w.written)
      ensures old(isOpen) && o.Logged? ==> file == old(file) + k.enc(Sealed(c, old(Next(d, symbol, strategy, user))))
    {
      hide Reports, Recorded, Journal, Verified, Faithful, Exact;
      if persistent && !isOpen {
        return Unavailable;
      }
      if !NumbersOk(d) {
        return InvalidNumbers;
      }
      if isOpen && nextId > CAPACITY {
        return CapacityReached;
      }
      var r := NewRecord(d, symbol, strategy, user, nextId, lastHash);
      if !Safe(r) {
        return UnsafeText;
      }
      NewRecordWellFormed(d, symbol, strategy, user, nextId, lastHash);
      NewRecordReports(c, d, symbol, strategy, user, nextId, lastHash);
      var ready := Sealed(c, r);
      if isOpen {
        if !Complete(w) {
          file := file + Prefix(k.enc(ready), w.written);
          isOpen := false;
          return PersistenceFailed;
        }
      }
      Append(r, ready);
      o := Logged;
    }

    method Append(ghost r: Record, ready: Record)
      requires Valid() && WellFormed(r) && Safe(r) && r.id == nextId && r.prev == lastHash && ready == Sealed(c, r)
      requires isOpen ==> nextId <= CAPACITY
      modifies this`trail, this`nextId, this`lastHash, this`file
      ensures Valid() && trail == old(trail) + [ready]
      ensures isOpen ==> file == old(file) + k.enc(ready)
    {
      ChainGrows(c, trail, r);
      RecordedSnoc(k, trail, ready);
      if isOpen {
        WrittenIsJournal(c, k, file, trail, ready);
        file := file + k.enc(ready);
      }
      trail := trail + [ready];
      nextId := nextId + 1;
      lastHash := ready.hash;
    }

    method Close()
      requires Valid()
      modifies this`isOpen
      ensures Valid() && !isOpen
    {
      isOpen := false;
    }

    /** Opens the file with these contents.  ready: the file can be opened, is a private regular file
        and is locked; legacy: a non-empty text export exists without a journal; started: the header
        of a new file reached the disk; exported: the text export could be opened. */
    method Open(contents: seq<Byte>, ready: bool, legacy: bool, started: bool, exported: bool) returns (ok: bool)
      requires Valid()
      modifies this
      ensures Valid() && persistent
      ensures ok <==> (!old(isOpen) && old(trail) == [] && ready && exported
                       && if contents == [] then !legacy && started else Accepts(c, k, contents))
      ensures !ok ==> trail == old(trail) && isOpen == old(isOpen) && file == old(file)
      ensures ok ==> isOpen && file == (if contents == [] then Header() else contents)
      ensures ok ==> trail == if contents == [] then [] else OpenExisting(k, contents).value
    {
      persistent := true;
      if isOpen || trail != [] || !ready {
        return false;
      }
      if contents == [] {
        if legacy || !started || !exported {
          return false;
        }
        NewJournal(c, k);
        isOpen, file := true, Header();
        return true;
      }
      ok := Reopen(contents, exported);
    }

    method Reopen(contents: seq<Byte>, exported: bool) returns (ok: bool)
      requires Valid() && !isOpen && trail == [] && persistent && contents != []
      modifies this`trail, this`nextId, this`lastHash, this`file, this`isOpen
      ensures Valid()
      ensures ok <==> exported && Accepts(c, k, contents)
      ensures !ok ==> trail == [] && !isOpen && file == old(file)
      ensures ok ==> isOpen && file == contents && trail == OpenExisting(k, contents).value
    {
      if |contents| > MAX_FILE || |contents| < 19 || contents[..19] != Header() {
        return false;
      }
      var records := ReadRecords(k, contents[19..]);
      if records.None? {
        return false;
      }
      var intact := VerifyIntegrity(c, records.value);
      if !intact || !exported {
        return false;
      }
      AcceptsIff(c, k, contents, records.value);
      trail := records.value;
      nextId := |trail| + 1;
      if trail != [] {
        lastHash := trail[|trail| - 1].hash;
      }
      isOpen, file := true, contents;
      ok := true;
    }
  }

  lemma NewJournal(c: Primitives, k: Codec)
    ensures Journal(c, k, Header(), [])
  {
    assert Header() + [] == Header();
  }

  /** What a new logger finds after a failed write of n bytes: the old trail if nothing was written,
      the longer one if all of it was, and otherwise a file it refuses. */
  lemma AfterFailedWrite(c: Primitives, k: Codec, file: seq<Byte>, trail: seq<Record>, r: Record, n: nat)
    requires Exact(k) && Journal(c, k, file, trail) && WellFormed(r) && r.id == |trail| + 1
    requires Verified(c, trail + [r]) && |trail| < CAPACITY
    ensures var after := file + Prefix(k.enc(r), n);
      && (Accepts(c, k, after) <==> n == 0 || n >= RECORD_SIZE)
      && (n == 0 ==> OpenExisting(k, after).Some? && OpenExisting(k, after).value == trail)
      && (n >= RECORD_SIZE ==> OpenExisting(k, after).Some? && OpenExisting(k, after).value == trail + [r])
  {
    var part := Prefix(k.enc(r), n);
    if n == 0 {
      assert file + part == file;
      AcceptsIff(c, k, file, trail);
    } else if n < RECORD_SIZE {
      TornRecordRefused(c, k, file, trail, part);
    } else {
      assert part == k.enc(r);
      WrittenIsJournal(c, k, file, trail, r);
      AcceptsIff(c, k, file + part, trail + [r]);
    }
  }

  /** Closing after any successful run and opening the file in a new logger rebuilds the same trail,
      next identifier and last digest. */
  method Recover(logger: AuditLogger) returns (reopened: AuditLogger, ok: bool)
    requires logger.Valid() && logger.isOpen
    modifies logger
    ensures ok && reopened.Valid() && reopened.isOpen && fresh(reopened)
    ensures reopened.trail == old(logger.trail)
    ensures reopened.nextId == old(logger.nextId) && reopened.lastHash == old(logger.lastHash)
  {
    AcceptsIff(logger.c, logger.k, logger.file, logger.trail);
    logger.Close();
    reopened := new AuditLogger(logger.c, logger.k);
    ok := reopened.Open(logger.file, true, false, true, true);
  }
}
