/** The export plane run by one thread at a time: recordDecision and getAggregatedSnapshot as
    methods over the shard array.  The interleavings of their single steps are in Seqlock. */
module ExportPlane {
  import opened Seqlock

  class Plane {
    const shards: array<Shard>

    /** Every shard is well-formed and no recording is under way. */
    ghost predicate Valid()
      reads this, shards
    {
      ShardsOk(shards[..]) && forall i :: 0 <= i < shards.Length ==> shards[i].writer == Idle
    }

    constructor ()
      ensures Valid() && fresh(shards)
      ensures shards[..] == START.shards
    {
      shards := new Shard[MAX_CORES](_ => FRESH_SHARD);
    }

    method RecordDecision(coreId: nat, status: Status)
      requires Valid()
      modifies shards
      ensures Valid()
      ensures var k := if coreId < 64 then coreId else 0;
        shards[..] == old(shards[..])[k := Recorded(old(shards[..])[k], status)]
    {
      hide ShardOk, ApplyAll;
      var k := if coreId >= MAX_CORES then 0 else coreId;
      var m := shards[k];
      ScriptEffect(m.counters, status);
      RecordedOk(m, status);
      shards[k] := shards[k].(bumps := shards[k].bumps + 1);
      var c := shards[k].counters;
      c := c.(total := c.total + 1);
      if status == DecisionValid {
        c := c.(valid := c.valid + 1);
      } else if status == RejectedLowConfidence {
        c := c.(confidence := c.confidence + 1);
        c := c.(fallback := c.fallback + 1);
      } else if status == RejectedNoConsensus {
        c := c.(consensus := c.consensus + 1);
        c := c.(fallback := c.fallback + 1);
      } else if status == FallbackActivated {
        c := c.(fallback := c.fallback + 1);
      } else {
        c := c.(invalid := c.invalid + 1);
      }
      shards[k] := shards[k].(counters := c);
      shards[k] := shards[k].(bumps := shards[k].bumps + 1, log := shards[k].log + [status]);
    }

    /** With no writer running the scan returns the census of everything recorded so far. */
    method GetAggregatedSnapshot() returns (agg: Counters)
      requires Valid()
      ensures agg == Words(Census(AllLogs(shards[..])))
    {
      agg := ZERO;
      var i := 0;
      while i < MAX_CORES
        invariant i <= MAX_CORES
        invariant agg == Words(Census(AllLogs(shards[..i])))
      {
        assert ShardOk(shards[..][i]);
        TallyIsCensus(shards[i].log);
        CensusAdds(AllLogs(shards[..i]), shards[i].log);
        WordsOfSum(Census(AllLogs(shards[..i])), Census(shards[i].log));
        agg := Words(Add(agg, Words(shards[i].counters)));
        assert shards[..i + 1][..i] == shards[..i];
        i := i + 1;
      }
      assert shards[..MAX_CORES] == shards[..];
    }
  }

  /** The shard after one whole recording. */
  function Recorded(sh: Shard, status: Status): Shard {
    Shard(sh.bumps + 2, ApplyAll(sh.counters, Script(status)), Idle, sh.log + [status])
  }

  function AllLogs(shards: seq<Shard>): seq<Status> {
    if shards == [] then [] else AllLogs(shards[..|shards| - 1]) + shards[|shards| - 1].log
  }

  lemma RecordedOk(sh: Shard, status: Status)
    requires ShardOk(sh) && sh.writer == Idle
    ensures ShardOk(Recorded(sh, status))
  {
    assert (sh.log + [status])[..|sh.log|] == sh.log;
  }

  function Alone(sh: Shard, status: Status, steps: nat): Shard {
    if steps == 0 then sh else WriterStep(Alone(sh, status, steps - 1), status)
  }

  /** The method is the writer of the interleaving model run to its end without interruption. */
  lemma {:induction false} RecordingAlone(sh: Shard, status: Status, k: nat)
    requires sh.writer == Idle && k <= |Script(status)|
    ensures Alone(sh, status, 1 + k) ==
      Shard(sh.bumps + 1, ApplyAll(sh.counters, Script(status)[..k]), Writing(status, k), sh.log)
    ensures k == |Script(status)| ==> Alone(sh, status, 2 + k) == Recorded(sh, status)
  {
    var ops := Script(status);
    if k == 0 {
      assert Alone(sh, status, 1) == WriterStep(Alone(sh, status, 0), status);
      assert ops[..0] == [];
    } else {
      RecordingAlone(sh, status, k - 1);
      assert ops[..k][..k - 1] == ops[..k - 1];
    }
    if k == |ops| {
      assert ops[..k] == ops;
      assert Alone(sh, status, 2 + k) == WriterStep(Alone(sh, status, 1 + k), status);
    }
  }
}
