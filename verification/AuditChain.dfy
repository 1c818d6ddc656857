/** The hash chain over a trail of audit records. */
module AuditChain {
  import opened Bytes
  import opened AuditRecord

  /** The canonical text of a record and the digest of a text, taken as functions. */
  datatype Primitives = Primitives(text: Record -> seq<Byte>, digest: seq<Byte> -> Digest)

  ghost predicate Comparable(a: Record, b: Record) { WellFormed(a) && WellFormed(b) && Safe(a) && Safe(b) }

  /** Texts are equal exactly when the records agree on every canonical field. */
  ghost predicate Faithful(c: Primitives) {
    forall a, b :: Comparable(a, b) ==> (c.text(a) == c.text(b) <==> SameEvidence(a, b))
  }

  function Canonical(show: Printer, digest: seq<Byte> -> Digest): Primitives {
    Primitives(r => Serialized(show, r), digest)
  }

  lemma CanonicalIsFaithful(show: Printer, digest: seq<Byte> -> Digest)
    requires FaithfulPrinter(show)
    ensures Faithful(Canonical(show, digest))
  {
    forall a, b | Comparable(a, b) ensures Serialized(show, a) == Serialized(show, b) <==> SameEvidence(a, b) {
      SerializationInjective(show, a, b);
    }
  }

  function ExpectedPrev(trail: seq<Record>, k: nat): seq<Byte>
    requires k <= |trail|
  {
    if k == 0 then GenesisText() else Hex(trail[k - 1].hash)
  }

  predicate LinkOk(c: Primitives, r: Record, expected: seq<Byte>) {
    PrevText(r) == expected && Safe(r) && r.hash == c.digest(c.text(r))
  }

  ghost predicate LinkAt(c: Primitives, trail: seq<Record>, k: nat)
    requires k < |trail|
  {
    LinkOk(c, trail[k], ExpectedPrev(trail, k))
  }

  ghost predicate Verified(c: Primitives, trail: seq<Record>) {
    forall k :: 0 <= k < |trail| ==> LinkAt(c, trail, k)
  }

  ghost predicate VerifiedTo(c: Primitives, trail: seq<Record>, n: nat)
    requires n <= |trail|
  {
    forall k :: 0 <= k < n ==> LinkAt(c, trail, k)
  }

  /** The three comparisons of the check, the last one on hexadecimal text, settle one more link. */
  lemma CheckStep(c: Primitives, trail: seq<Record>, k: nat, expected: seq<Byte>, digest: Digest)
    requires k < |trail| && VerifiedTo(c, trail, k)
    requires digest == c.digest(c.text(trail[k])) && expected == ExpectedPrev(trail, k)
    ensures var passes := PrevText(trail[k]) == expected && Safe(trail[k]) && Hex(trail[k].hash) == Hex(digest);
      (passes ==> VerifiedTo(c, trail, k + 1)) && (!passes ==> !Verified(c, trail))
  {
    if Hex(trail[k].hash) == Hex(digest) {
      HexInjective(trail[k].hash, digest);
    }
    assert Verified(c, trail) ==> LinkAt(c, trail, k);
  }

  /** The integrity check walks the trail once; a record without canonical text fails it. */
  method VerifyIntegrity(c: Primitives, trail: seq<Record>) returns (ok: bool)
    ensures ok <==> Verified(c, trail)
  {
    var expected := GenesisText();
    for k := 0 to |trail|
      invariant expected == ExpectedPrev(trail, k)
      invariant VerifiedTo(c, trail, k)
    {
      var r := trail[k];
      CheckStep(c, trail, k, expected, c.digest(c.text(r)));
      if PrevText(r) != expected {
        return false;
      }
      if !Safe(r) {
        return false;
      }
      if Hex(r.hash) != Hex(c.digest(c.text(r))) {
        return false;
      }
      expected := Hex(r.hash);
    }
    ok := true;
  }

  ghost predicate AllWellFormed(trail: seq<Record>) {
    forall k :: 0 <= k < |trail| ==> WellFormed(trail[k])
  }

  /** Two different canonical texts with one digest. */
  ghost predicate Collision(c: Primitives, a: Record, b: Record) {
    c.text(a) != c.text(b) && c.digest(c.text(a)) == c.digest(c.text(b))
  }

  ghost predicate SomeCollision(c: Primitives, a: seq<Record>, b: seq<Record>) {
    exists i, j :: 0 <= i < |a| && 0 <= j < |b| && Collision(c, a[i], b[j])
  }

  ghost predicate SameHistory(a: seq<Record>, b: seq<Record>) {
    |a| == |b| && forall k :: 0 <= k < |a| ==> SameEvidence(a[k], b[k]) && a[k].hash == b[k].hash
  }

  lemma PrefixVerified(c: Primitives, trail: seq<Record>, n: nat)
    requires n <= |trail| && Verified(c, trail) && AllWellFormed(trail)
    ensures Verified(c, trail[..n]) && AllWellFormed(trail[..n])
  {
    forall k | 0 <= k < n ensures LinkAt(c, trail[..n], k) {
      assert LinkAt(c, trail, k);
    }
  }

  lemma SamePrevText(a: Record, b: Record)
    requires SameEvidence(a, b)
    ensures PrevText(a) == PrevText(b)
  {
  }

  lemma LastLinks(c: Primitives, a: seq<Record>, b: seq<Record>)
    requires Faithful(c) && a != [] && b != []
    requires Verified(c, a) && Verified(c, b) && AllWellFormed(a) && AllWellFormed(b)
    requires a[|a| - 1].hash == b[|b| - 1].hash && !Collision(c, a[|a| - 1], b[|b| - 1])
    ensures SameEvidence(a[|a| - 1], b[|b| - 1])
    ensures |a| == 1 <==> |b| == 1
    ensures |a| > 1 && |b| > 1 ==> a[|a| - 2].hash == b[|b| - 2].hash
  {
    var n, m := |a| - 1, |b| - 1;
    assert LinkAt(c, a, n);
    assert LinkAt(c, b, m);
    assert Comparable(a[n], b[m]);
    SamePrevText(a[n], b[m]);
    if n > 0 && m > 0 {
      HexInjective(a[n - 1].hash, b[m - 1].hash);
    }
  }

  /** The last digest determines the history: two trails that pass the integrity check and end in
      the same digest are of one length and agree on every canonical field of every record, unless
      they exhibit two texts with the same digest. */
  lemma {:induction false} LastDigestDeterminesHistory(c: Primitives, a: seq<Record>, b: seq<Record>)
    requires Faithful(c) && a != [] && b != []
    requires Verified(c, a) && Verified(c, b) && AllWellFormed(a) && AllWellFormed(b)
    requires a[|a| - 1].hash == b[|b| - 1].hash
    ensures SameHistory(a, b) || SomeCollision(c, a, b)
  {
    var n, m := |a| - 1, |b| - 1;
    if !Collision(c, a[n], b[m]) {
      LastLinks(c, a, b);
      if n > 0 && m > 0 {
        PrefixVerified(c, a, n);
        PrefixVerified(c, b, m);
        LastDigestDeterminesHistory(c, a[..n], b[..m]);
        if SameHistory(a[..n], b[..m]) {
          HistorySnoc(a, b);
        } else {
          CollisionLifts(c, a, b, n, m);
        }
      }
    }
  }

  lemma CollisionLifts(c: Primitives, a: seq<Record>, b: seq<Record>, n: nat, m: nat)
    requires n <= |a| && m <= |b| && SomeCollision(c, a[..n], b[..m])
    ensures SomeCollision(c, a, b)
  {
    var i, j :| 0 <= i < n && 0 <= j < m && Collision(c, a[..n][i], b[..m][j]);
    assert Collision(c, a[i], b[j]);
  }

  lemma HistorySnoc(a: seq<Record>, b: seq<Record>)
    requires a != [] && b != [] && SameHistory(a[..|a| - 1], b[..|b| - 1])
    requires SameEvidence(a[|a| - 1], b[|b| - 1]) && a[|a| - 1].hash == b[|b| - 1].hash
    ensures SameHistory(a, b)
  {
    forall k | 0 <= k < |a| ensures SameEvidence(a[k], b[k]) && a[k].hash == b[k].hash {
      if k < |a| - 1 {
        assert SameEvidence(a[..|a| - 1][k], b[..|b| - 1][k]);
      }
    }
  }
}
