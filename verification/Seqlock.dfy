/** The sharded telemetry counters: one seqlock a shard, one writer a shard, a scanning reader that
    retries.  Every atomic load and fetch_add is one step; a schedule is a sequence of steps, and
    what is proved holds of every schedule.  64-bit counters wrap. */
module Seqlock {
  import opened Modular

  const MAX_CORES: nat := 64

  datatype Status = DecisionValid | RejectedLowConfidence | RejectedNoConsensus | FallbackActivated | ErrorNoModels

  /** The six counters of a shard, also the layout of a snapshot. */
  datatype Counters = Counters(total: nat, valid: nat, fallback: nat, confidence: nat, consensus: nat, invalid: nat)

  datatype Op = IncTotal | IncValid | IncFallback | IncConfidence | IncConsensus | IncInvalid

  datatype Writer = Idle | Writing(status: Status, done: nat)

  /** A shard.  bumps and counters say how often each word was incremented; the 64-bit word that a
      load returns is that number modulo 2^64.  log is a history variable: the decisions whose
      recording has finished. */
  datatype Shard = Shard(bumps: nat, counters: Counters, writer: Writer, log: seq<Status>) {
    function Sequence(): nat { Word(bumps) }
    function Started(): nat { |log| + if writer.Idle? then 0 else 1 }
  }

  /** The scanning reader.  Before its first load of a round loaded is None.  bumps1 and cuts are
      history variables: the bumps behind seq1, and for each accepted shard the number of decisions
      its numbers stand for. */
  datatype Round = NotStarted | Loading(seq1: nat, loaded: seq<nat>, bumps1: nat)
  datatype Reader = Reader(shard: nat, round: Round, agg: Counters, cuts: seq<nat>)

  datatype State = State(shards: seq<Shard>, reader: Reader)

  /** One step of the schedule: the next step of the writer that owns a core, or of the reader. */
  datatype Event = Write(coreId: nat, status: Status) | Read

  const ZERO := Counters(0, 0, 0, 0, 0, 0)
  const FRESH_READER := Reader(0, NotStarted, ZERO, [])
  const FRESH_SHARD := Shard(0, ZERO, Idle, [])
  const START := State(seq(MAX_CORES, _ => FRESH_SHARD), FRESH_READER)

  function ShardOf(coreId: nat): nat { if coreId >= MAX_CORES then 0 else coreId }

  function Apply(c: Counters, op: Op): Counters {
    match op
    case IncTotal => c.(total := c.total + 1)
    case IncValid => c.(valid := c.valid + 1)
    case IncFallback => c.(fallback := c.fallback + 1)
    case IncConfidence => c.(confidence := c.confidence + 1)
    case IncConsensus => c.(consensus := c.consensus + 1)
    case IncInvalid => c.(invalid := c.invalid + 1)
  }

  /** The counter increments of one recording, in program order, between its two sequence bumps. */
  function Script(d: Status): seq<Op> {
    [IncTotal] +
    match d
    case DecisionValid => [IncValid]
    case RejectedLowConfidence => [IncConfidence, IncFallback]
    case RejectedNoConsensus => [IncConsensus, IncFallback]
    case FallbackActivated => [IncFallback]
    case ErrorNoModels => [IncInvalid]
  }

  function ApplyAll(c: Counters, ops: seq<Op>): Counters {
    if ops == [] then c else Apply(ApplyAll(c, ops[..|ops| - 1]), ops[|ops| - 1])
  }

  function WriterStep(sh: Shard, d: Status): Shard {
    match sh.writer
    case Idle => sh.(bumps := sh.bumps + 1, writer := Writing(d, 0))
    case Writing(e, k) =>
      if k < |Script(e)| then sh.(counters := Apply(sh.counters, Script(e)[k]), writer := Writing(e, k + 1))
      else sh.(bumps := sh.bumps + 1, writer := Idle, log := sh.log + [e])
  }

  function Fields(c: Counters): (fs: seq<nat>)
    ensures |fs| == 6
  {
    [c.total, c.valid, c.fallback, c.confidence, c.consensus, c.invalid]
  }

  function FromFields(fs: seq<nat>): Counters
    requires |fs| == 6
  {
    Counters(fs[0], fs[1], fs[2], fs[3], fs[4], fs[5])
  }

  function Add(a: Counters, b: Counters): Counters {
    Counters(a.total + b.total, a.valid + b.valid, a.fallback + b.fallback,
             a.confidence + b.confidence, a.consensus + b.consensus, a.invalid + b.invalid)
  }

  function Words(c: Counters): Counters {
    Counters(Word(c.total), Word(c.valid), Word(c.fallback), Word(c.confidence), Word(c.consensus), Word(c.invalid))
  }

  /** One load of the reader: the first sequence load, one of the six counters, or the second
      sequence load, after which the round is accepted or started again. */
  function ReaderStep(r: Reader, shards: seq<Shard>): Reader {
    if r.shard >= |shards| then r
    else
      var sh := shards[r.shard];
      match r.round
      case NotStarted =>
        if sh.Sequence() % 2 != 0 then r else r.(round := Loading(sh.Sequence(), [], sh.bumps))
      case Loading(seq1, loaded, bumps1) =>
        if |loaded| < 6 then r.(round := Loading(seq1, loaded + [Word(Fields(sh.counters)[|loaded|])], bumps1))
        else if seq1 == sh.Sequence() && |loaded| == 6 then
          Reader(r.shard + 1, NotStarted, Words(Add(r.agg, FromFields(loaded))), r.cuts + [bumps1 / 2])
        else r.(round := NotStarted)
  }

  function Next(s: State, e: Event): State {
    match e
    case Write(core, d) =>
      var k := ShardOf(core);
      if k < |s.shards| then s.(shards := s.shards[k := WriterStep(s.shards[k], d)]) else s
    case Read => s.(reader := ReaderStep(s.reader, s.shards))
  }

  function Exec(s: State, es: seq<Event>): State {
    if es == [] then s else Next(Exec(s, es[..|es| - 1]), es[|es| - 1])
  }

  // ---------- What the counters of a shard stand for ----------

  function Tally(log: seq<Status>): Counters {
    if log == [] then ZERO else ApplyAll(Tally(log[..|log| - 1]), Script(log[|log| - 1]))
  }

  function Count(log: seq<Status>, d: Status): nat { multiset(log)[d] }

  /** The counters after a log of decisions, read off the log: how many there are of each kind. */
  function Census(log: seq<Status>): Counters {
    Counters(|log|, Count(log, DecisionValid),
      Count(log, RejectedLowConfidence) + Count(log, RejectedNoConsensus) + Count(log, FallbackActivated),
      Count(log, RejectedLowConfidence), Count(log, RejectedNoConsensus), Count(log, ErrorNoModels))
  }

  lemma ScriptEffect(c: Counters, d: Status)
    ensures ApplyAll(c, Script(d)) ==
      match d
      case DecisionValid => c.(total := c.total + 1, valid := c.valid + 1)
      case RejectedLowConfidence =>
        c.(total := c.total + 1, confidence := c.confidence + 1, fallback := c.fallback + 1)
      case RejectedNoConsensus =>
        c.(total := c.total + 1, consensus := c.consensus + 1, fallback := c.fallback + 1)
      case FallbackActivated => c.(total := c.total + 1, fallback := c.fallback + 1)
      case ErrorNoModels => c.(total := c.total + 1, invalid := c.invalid + 1)
  {
    var ops := Script(d);
    assert ops[..1] == [IncTotal] && ops[..1][..0] == [];
    assert ApplyAll(c, []) == c;
    assert ApplyAll(c, ops[..1]) == Apply(c, IncTotal);
    if |ops| == 3 {
      assert ops[..2][..1] == ops[..1];
      assert ApplyAll(c, ops[..2]) == Apply(ApplyAll(c, ops[..1]), ops[1]);
    }
  }

  lemma {:induction false} TallyIsCensus(log: seq<Status>)
    ensures Tally(log) == Census(log)
  {
    if log != [] {
      var before, d := log[..|log| - 1], log[|log| - 1];
      assert log == before + [d];
      TallyIsCensus(before);
      ScriptEffect(Tally(before), d);
      assert multiset(log) == multiset(before) + multiset{d};
    }
  }

  lemma CensusAdds(a: seq<Status>, b: seq<Status>)
    ensures Census(a + b) == Add(Census(a), Census(b))
  {
    assert multiset(a + b) == multiset(a) + multiset(b);
  }

  lemma WordsOfSum(a: Counters, b: Counters)
    ensures Words(Add(Words(a), Words(b))) == Words(Add(a, b))
  {
    hide Word;
    WordOfSum(a.total, b.total);
    WordOfSum(a.valid, b.valid);
    WordOfSum(a.fallback, b.fallback);
    WordOfSum(a.confidence, b.confidence);
    WordOfSum(a.consensus, b.consensus);
    WordOfSum(a.invalid, b.invalid);
  }

  lemma {:induction false} CountsCoverLog(log: seq<Status>)
    ensures |log| == Count(log, DecisionValid) + Count(log, RejectedLowConfidence) + Count(log, RejectedNoConsensus)
      + Count(log, FallbackActivated) + Count(log, ErrorNoModels)
  {
    if log != [] {
      var before, d := log[..|log| - 1], log[|log| - 1];
      assert log == before + [d];
      assert multiset(log) == multiset(before) + multiset{d};
      CountsCoverLog(before);
      match d
      case DecisionValid =>
      case RejectedLowConfidence =>
      case RejectedNoConsensus =>
      case FallbackActivated =>
      case ErrorNoModels =>
    } else {
      assert multiset(log) == multiset{};
    }
  }

  // ---------- Shard invariant ----------

  ghost predicate ShardOk(sh: Shard) {
    match sh.writer
    case Idle => sh.bumps == 2 * |sh.log| && sh.counters == Tally(sh.log)
    case Writing(d, k) =>
      && sh.bumps == 2 * |sh.log| + 1
      && k <= |Script(d)|
      && sh.counters == ApplyAll(Tally(sh.log), Script(d)[..k])
  }

  ghost predicate ShardsOk(shards: seq<Shard>) {
    |shards| == MAX_CORES && forall i :: 0 <= i < |shards| ==> ShardOk(shards[i])
  }

  /** later is a later state of the shard sh. */
  ghost predicate Later(sh: Shard, later: Shard) {
    && sh.bumps <= later.bumps
    && sh.log <= later.log
    && (sh.bumps == later.bumps && sh.bumps % 2 == 0 ==> later.counters == sh.counters)
  }

  lemma WriterStepOk(sh: Shard, d: Status)
    requires ShardOk(sh)
    ensures ShardOk(WriterStep(sh, d)) && Later(sh, WriterStep(sh, d))
  {
    if sh.writer.Writing? {
      var ops, k := Script(sh.writer.status), sh.writer.done;
      if k < |ops| {
        assert ops[..k + 1][..k] == ops[..k];
      } else {
        assert ops[..k] == ops;
        assert (sh.log + [sh.writer.status])[..|sh.log|] == sh.log;
      }
    }
  }

  // ---------- Reader invariant ----------

  /** What the running round knows: nothing changed in the shard as long as no bump was added. */
  ghost predicate RoundOk(round: Round, sh: Shard) {
    match round
    case NotStarted => true
    case Loading(seq1, loaded, bumps1) =>
      && seq1 == Word(bumps1) && bumps1 % 2 == 0 && bumps1 <= sh.bumps && |loaded| <= 6
      && (bumps1 == sh.bumps ==> loaded == Fields(Words(sh.counters))[..|loaded|])
  }

  lemma RoundSurvivesWriter(round: Round, sh: Shard, d: Status)
    requires RoundOk(round, sh) && ShardOk(sh)
    ensures RoundOk(round, WriterStep(sh, d))
  {
    WriterStepOk(sh, d);
  }

  /** Seqlock atomicity.  A round that ends with equal sequence numbers, no more than 2^64 - 1 bumps
      apart, read exactly the counters after seq1 / 2 finished decisions, none being half recorded. */
  lemma AcceptedReadIsAtomic(round: Round, sh: Shard)
    requires ShardOk(sh) && RoundOk(round, sh)
    requires round.Loading? && |round.loaded| == 6 && round.seq1 == sh.Sequence()
    requires sh.bumps - round.bumps1 < WORD
    ensures sh.writer.Idle? && |sh.log| == round.bumps1 / 2
    ensures FromFields(round.loaded) == Words(Tally(sh.log)) == Words(Census(sh.log))
  {
    SameResidue(round.bumps1, sh.bumps);
    TallyIsCensus(sh.log);
    assert Fields(Words(sh.counters))[..6] == Fields(Words(sh.counters));
  }

  // ---------- A whole scan ----------

  /** The decisions the accepted shards stand for, shard after shard. */
  function Seen(shards: seq<Shard>, cuts: seq<nat>): seq<Status>
    requires |cuts| <= |shards| && forall i :: 0 <= i < |cuts| ==> cuts[i] <= |shards[i].log|
  {
    if cuts == [] then []
    else
      var k := |cuts| - 1;
      Seen(shards, cuts[..k]) + shards[k].log[..cuts[k]]
  }

  ghost predicate ShardsLater(first: seq<Shard>, shards: seq<Shard>) {
    && ShardsOk(first) && ShardsOk(shards)
    && forall i :: 0 <= i < MAX_CORES ==> Later(first[i], shards[i])
  }

  ghost predicate CutsOk(first: seq<Shard>, shards: seq<Shard>, cuts: seq<nat>) {
    && |cuts| <= |first| == |shards|
    && forall i :: 0 <= i < |cuts| ==> |first[i].log| <= cuts[i] <= |shards[i].log|
  }

  ghost predicate ReaderOk(first: seq<Shard>, shards: seq<Shard>, r: Reader)
    requires |first| == |shards| == MAX_CORES
  {
    && |r.cuts| == r.shard <= MAX_CORES
    && CutsOk(first, shards, r.cuts)
    && r.agg == Words(Census(Seen(shards, r.cuts)))
    && (r.shard < MAX_CORES ==>
          && RoundOk(r.round, shards[r.shard])
          && (r.round.Loading? ==> first[r.shard].bumps <= r.round.bumps1))
  }

  ghost predicate ScanOk(s0: State, s: State) {
    ShardsLater(s0.shards, s.shards) && ReaderOk(s0.shards, s.shards, s.reader)
  }

  /** The reader's next step accepts the round it is in. */
  predicate Accepting(r: Reader, shards: seq<Shard>) {
    && r.shard < |shards| && r.round.Loading?
    && |r.round.loaded| == 6 && r.round.seq1 == shards[r.shard].Sequence()
  }

  /** A round about to be accepted saw fewer than 2^64 bumps. */
  ghost predicate InTime(r: Reader, shards: seq<Shard>) {
    Accepting(r, shards) ==> shards[r.shard].bumps - r.round.bumps1 < WORD
  }

  ghost predicate RoundsInTime(s0: State, es: seq<Event>) {
    forall k :: 0 <= k < |es| && es[k].Read? ==> InTime(Exec(s0, es[..k]).reader, Exec(s0, es[..k]).shards)
  }

  lemma {:induction false} SeenStable(shards: seq<Shard>, later: seq<Shard>, cuts: seq<nat>)
    requires |cuts| <= |shards| == |later|
    requires forall i :: 0 <= i < |cuts| ==> cuts[i] <= |shards[i].log|
    requires forall i :: 0 <= i < |shards| ==> shards[i].log <= later[i].log
    ensures Seen(shards, cuts) == Seen(later, cuts)
  {
    if cuts != [] {
      var k := |cuts| - 1;
      SeenStable(shards, later, cuts[..k]);
      assert shards[k].log[..cuts[k]] == later[k].log[..cuts[k]];
    }
  }

  lemma LaterTransitive(a: Shard, b: Shard, c: Shard)
    requires Later(a, b) && Later(b, c)
    ensures Later(a, c)
  {
  }

  lemma WriteKeepsShards(s0: State, s: State, core: nat, d: Status)
    requires ShardsOk(s0.shards) && ShardsOk(s.shards)
    requires forall i :: 0 <= i < MAX_CORES ==> Later(s0.shards[i], s.shards[i])
    ensures var s' := Next(s, Write(core, d));
      && ShardsOk(s'.shards) && s'.reader == s.reader
      && (forall i :: 0 <= i < MAX_CORES ==> Later(s0.shards[i], s'.shards[i]) && s.shards[i].log <= s'.shards[i].log)
  {
    var k := ShardOf(core);
    WriterStepOk(s.shards[k], d);
    LaterTransitive(s0.shards[k], s.shards[k], WriterStep(s.shards[k], d));
  }

  lemma WriteKeepsScan(s0: State, s: State, core: nat, d: Status)
    requires ScanOk(s0, s)
    ensures ScanOk(s0, Next(s, Write(core, d)))
  {
    var k := ShardOf(core);
    var s' := Next(s, Write(core, d));
    WriteKeepsShards(s0, s, core, d);
    if s.reader.shard == k {
      RoundSurvivesWriter(s.reader.round, s.shards[k], d);
    }
    LogsGrowKeepReader(s0.shards, s.shards, s'.shards, s.reader);
  }

  lemma LogsGrowKeepReader(first: seq<Shard>, shards: seq<Shard>, later: seq<Shard>, r: Reader)
    requires |first| == |shards| == |later| == MAX_CORES && ReaderOk(first, shards, r)
    requires forall i :: 0 <= i < MAX_CORES ==> shards[i].log <= later[i].log
    requires r.shard < MAX_CORES ==> RoundOk(r.round, later[r.shard])
    ensures ReaderOk(first, later, r)
  {
    SeenStable(shards, later, r.cuts);
  }

  /** An accepted round extends the history seen so far by the whole log of its shard. */
  lemma AcceptExtendsSeen(shards: seq<Shard>, cuts: seq<nat>, agg: Counters, loaded: Counters)
    requires |cuts| < |shards| && forall i :: 0 <= i < |cuts| ==> cuts[i] <= |shards[i].log|
    requires agg == Words(Census(Seen(shards, cuts))) && loaded == Words(Census(shards[|cuts|].log))
    ensures Words(Add(agg, loaded)) == Words(Census(Seen(shards, cuts + [|shards[|cuts|].log|])))
  {
    var log := shards[|cuts|].log;
    assert (cuts + [|log|])[..|cuts|] == cuts;
    assert log[..|log|] == log;
    CensusAdds(Seen(shards, cuts), log);
    WordsOfSum(Census(Seen(shards, cuts)), Census(log));
  }

  lemma LoadKeepsRound(seq1: nat, loaded: seq<nat>, bumps1: nat, sh: Shard)
    requires RoundOk(Loading(seq1, loaded, bumps1), sh) && |loaded| < 6
    ensures RoundOk(Loading(seq1, loaded + [Word(Fields(sh.counters)[|loaded|])], bumps1), sh)
  {
    var k := |loaded|;
    assert Fields(Words(sh.counters))[k] == Word(Fields(sh.counters)[k]);
    assert Fields(Words(sh.counters))[..k + 1] == Fields(Words(sh.counters))[..k] + [Fields(Words(sh.counters))[k]];
  }

  lemma AcceptKeepsCuts(first: seq<Shard>, shards: seq<Shard>, cuts: seq<nat>)
    requires |cuts| < |first| == |shards| && CutsOk(first, shards, cuts)
    requires Later(first[|cuts|], shards[|cuts|])
    ensures CutsOk(first, shards, cuts + [|shards[|cuts|].log|])
  {
  }

  lemma AcceptStep(r: Reader, shards: seq<Shard>)
    requires Accepting(r, shards)
    ensures ReaderStep(r, shards) ==
      Reader(r.shard + 1, NotStarted, Words(Add(r.agg, FromFields(r.round.loaded))), r.cuts + [r.round.bumps1 / 2])
  {
  }

  lemma AcceptKeepsReader(first: seq<Shard>, shards: seq<Shard>, r: Reader)
    requires ShardsLater(first, shards) && ReaderOk(first, shards, r) && r.shard < MAX_CORES
    requires Accepting(r, shards) && InTime(r, shards)
    ensures ReaderOk(first, shards, ReaderStep(r, shards))
  {
    hide Word, Census, ReaderStep, FromFields;
    AcceptStep(r, shards);
    AcceptedReadIsAtomic(r.round, shards[r.shard]);
    AcceptKeepsCuts(first, shards, r.cuts);
    AcceptExtendsSeen(shards, r.cuts, r.agg, FromFields(r.round.loaded));
    AcceptedReaderOk(first, shards, r, Words(Add(r.agg, FromFields(r.round.loaded))));
  }

  lemma AcceptedReaderOk(first: seq<Shard>, shards: seq<Shard>, r: Reader, agg: Counters)
    requires |first| == |shards| == MAX_CORES && r.shard < MAX_CORES && |r.cuts| == r.shard
    requires CutsOk(first, shards, r.cuts + [|shards[r.shard].log|])
    requires agg == Words(Census(Seen(shards, r.cuts + [|shards[r.shard].log|])))
    ensures ReaderOk(first, shards, Reader(r.shard + 1, NotStarted, agg, r.cuts + [|shards[r.shard].log|]))
  {
  }

  lemma NewRoundKeepsReader(first: seq<Shard>, shards: seq<Shard>, r: Reader, round: Round)
    requires |first| == |shards| == MAX_CORES && ReaderOk(first, shards, r) && r.shard < MAX_CORES
    requires RoundOk(round, shards[r.shard])
    requires round.Loading? ==> first[r.shard].bumps <= round.bumps1
    ensures ReaderOk(first, shards, r.(round := round))
  {
  }

  lemma ReadKeepsReader(first: seq<Shard>, shards: seq<Shard>, r: Reader)
    requires ShardsLater(first, shards) && ReaderOk(first, shards, r) && r.shard < MAX_CORES
    requires InTime(r, shards)
    ensures ReaderOk(first, shards, ReaderStep(r, shards))
  {
    var sh := shards[r.shard];
    assert Later(first[r.shard], sh);
    match r.round
    case NotStarted =>
      if sh.Sequence() % 2 == 0 {
        EvenWord(sh.bumps);
        NewRoundKeepsReader(first, shards, r, Loading(sh.Sequence(), [], sh.bumps));
      }
    case Loading(seq1, loaded, bumps1) =>
      if |loaded| < 6 {
        LoadKeepsRound(seq1, loaded, bumps1, sh);
        NewRoundKeepsReader(first, shards, r, Loading(seq1, loaded + [Word(Fields(sh.counters)[|loaded|])], bumps1));
      } else if seq1 == sh.Sequence() {
        AcceptKeepsReader(first, shards, r);
      } else {
        NewRoundKeepsReader(first, shards, r, NotStarted);
      }
  }

  lemma ReadKeepsScan(s0: State, s: State)
    requires ScanOk(s0, s) && InTime(s.reader, s.shards)
    ensures ScanOk(s0, Next(s, Read))
  {
    if s.reader.shard < MAX_CORES {
      ReadKeepsReader(s0.shards, s.shards, s.reader);
    }
  }

  /** The counters of every shard stand for its log in every state reached from the start. */
  lemma {:induction false} ShardsStayOk(s: State, es: seq<Event>)
    requires ShardsOk(s.shards)
    ensures ShardsOk(Exec(s, es).shards)
  {
    if es != [] {
      var before := Exec(s, es[..|es| - 1]);
      ShardsStayOk(s, es[..|es| - 1]);
      match es[|es| - 1]
      case Write(core, d) => WriterStepOk(before.shards[ShardOf(core)], d);
      case Read =>
    }
  }

  /** Every state of a scan, whatever the schedule, as long as no accepted round saw 2^64 bumps. */
  lemma {:induction false} ScanInvariant(s0: State, es: seq<Event>)
    requires ShardsOk(s0.shards) && s0.reader == FRESH_READER && RoundsInTime(s0, es)
    ensures ScanOk(s0, Exec(s0, es))
  {
    if es != [] {
      var n := |es| - 1;
      var before := Exec(s0, es[..n]);
      assert RoundsInTime(s0, es[..n]) by {
        InTimeBefore(s0, es, n);
      }
      ScanInvariant(s0, es[..n]);
      match es[n]
      case Write(core, d) => WriteKeepsScan(s0, before, core, d);
      case Read => ReadKeepsScan(s0, before);
    }
  }

  lemma InTimeBefore(s0: State, es: seq<Event>, n: nat)
    requires n <= |es| && RoundsInTime(s0, es)
    ensures RoundsInTime(s0, es[..n])
  {
    forall k | 0 <= k < n && es[k].Read?
      ensures InTime(Exec(s0, es[..n][..k]).reader, Exec(s0, es[..n][..k]).shards)
    {
      assert es[..n][..k] == es[..k];
    }
  }

  function SumOf(ns: seq<nat>): nat {
    if ns == [] then 0 else SumOf(ns[..|ns| - 1]) + ns[|ns| - 1]
  }

  function Finished(shards: seq<Shard>): nat { SumOf(seq(|shards|, i requires 0 <= i < |shards| => |shards[i].log|)) }
  function Started(shards: seq<Shard>): nat {
    SumOf(seq(|shards|, i requires 0 <= i < |shards| => shards[i].Started()))
  }

  lemma {:induction false} SumMonotone(a: seq<nat>, b: seq<nat>)
    requires |a| == |b| && forall i :: 0 <= i < |a| ==> a[i] <= b[i]
    ensures SumOf(a) <= SumOf(b)
  {
    if a != [] {
      SumMonotone(a[..|a| - 1], b[..|b| - 1]);
    }
  }

  lemma {:induction false} SeenLength(shards: seq<Shard>, cuts: seq<nat>)
    requires |cuts| <= |shards| && forall i :: 0 <= i < |cuts| ==> cuts[i] <= |shards[i].log|
    ensures |Seen(shards, cuts)| == SumOf(cuts)
  {
    if cuts != [] {
      SeenLength(shards, cuts[..|cuts| - 1]);
    }
  }

  /** The reader has gone through all the shards. */
  ghost predicate FinishedScan(s0: State, es: seq<Event>) {
    && ShardsOk(s0.shards) && s0.reader == FRESH_READER && RoundsInTime(s0, es)
    && Exec(s0, es).reader.shard == MAX_CORES
  }

  /** Every aggregated snapshot, under every schedule, is the census of a history: a prefix of each
      shard's finished decisions, at least those finished when the scan began and none that was not
      started when it ended. */
  lemma SnapshotIsAHistory(s0: State, es: seq<Event>)
    requires FinishedScan(s0, es)
    ensures var s := Exec(s0, es);
      && |s.reader.cuts| == MAX_CORES
      && CutsOk(s0.shards, s.shards, s.reader.cuts)
      && s.reader.agg == Words(Census(Seen(s.shards, s.reader.cuts)))
      && Finished(s0.shards) <= |Seen(s.shards, s.reader.cuts)| <= Started(s.shards)
  {
    var s := Exec(s0, es);
    ScanInvariant(s0, es);
    SeenLength(s.shards, s.reader.cuts);
    CutsBetween(s0.shards, s.shards, s.reader.cuts);
  }

  lemma CutsBetween(first: seq<Shard>, shards: seq<Shard>, cuts: seq<nat>)
    requires |cuts| == |first| && CutsOk(first, shards, cuts)
    ensures Finished(first) <= SumOf(cuts) <= Started(shards)
  {
    SumMonotone(seq(|first|, i requires 0 <= i < |first| => |first[i].log|), cuts);
    SumMonotone(cuts, seq(|shards|, i requires 0 <= i < |shards| => shards[i].Started()));
  }

  /** The accounting identities, modulo 2^64 always and exactly while at most 2^64 - 1 decisions are
      possible, with the total between the two bounds. */
  ghost predicate Balanced(c: Counters, least: nat, most: nat) {
    && c.total == Word(c.valid + c.fallback + c.invalid)
    && (most < WORD ==>
      && c.total == c.valid + c.fallback + c.invalid
      && c.confidence + c.consensus <= c.fallback
      && least <= c.total <= most)
  }

  /** Every aggregated snapshot balances, its total lying between the decisions finished when the
      scan began and those started when it ended. */
  lemma SnapshotIdentities(s0: State, es: seq<Event>)
    requires FinishedScan(s0, es)
    ensures Balanced(Exec(s0, es).reader.agg, Finished(s0.shards), Started(Exec(s0, es).shards))
  {
    var s := Exec(s0, es);
    SnapshotIsAHistory(s0, es);
    CensusIdentities(Seen(s.shards, s.reader.cuts), s.reader.agg, Finished(s0.shards), Started(s.shards));
  }

  lemma CensusIdentities(log: seq<Status>, c: Counters, least: nat, most: nat)
    requires c == Words(Census(log)) && least <= |log| <= most
    ensures Balanced(c, least, most)
  {
    hide Word;
    var n := Census(log);
    CountsCoverLog(log);
    assert n.total == n.valid + n.fallback + n.invalid;
    WordOfThree(n.valid, n.fallback, n.invalid);
    if most < WORD {
      SmallWord(n.total);
      SmallWord(n.valid);
      SmallWord(n.fallback);
      SmallWord(n.confidence);
      SmallWord(n.consensus);
      SmallWord(n.invalid);
    }
  }

  lemma WordOfThree(x: nat, y: nat, z: nat)
    ensures Word(Word(x) + Word(y) + Word(z)) == Word(x + y + z)
  {
    hide Word;
    WordOfSum(x, y);
    WordAdd(Word(x) + Word(y), z);
    WordAdd(z, Word(x) + Word(y));
    WordAdd(z, x + y);
  }

  // ---------- Why the 2^64 bound is needed ----------

  function Burst(n: nat): seq<Event> {
    if n == 0 then []
    else
      var w := Write(0, DecisionValid);
      Burst(n - 1) + [w, w, w, w]
  }

  lemma {:induction false} ExecConcat(s: State, a: seq<Event>, b: seq<Event>)
    ensures Exec(s, a + b) == Exec(Exec(s, a), b)
  {
    if b == [] {
      assert a + b == a;
    } else {
      var n := |b| - 1;
      ExecConcat(s, a, b[..n]);
      assert (a + b)[..|a + b| - 1] == a + b[..n] by {
        assert |a + b| - 1 == |a| + n;
      }
    }
  }

  ghost predicate OnlyValidOnCoreZero(s: State, n: nat) {
    && |s.shards| == MAX_CORES
    && s.shards[0].bumps == 2 * n && s.shards[0].writer == Idle
    && s.shards[0].counters == Counters(n, n, 0, 0, 0, 0)
  }

  lemma FourWrites(s: State, n: nat)
    requires OnlyValidOnCoreZero(s, n)
    ensures var w := Write(0, DecisionValid);
      OnlyValidOnCoreZero(Exec(s, [w, w, w, w]), n + 1) && Exec(s, [w, w, w, w]).reader == s.reader
  {
    var w := Write(0, DecisionValid);
    var s1 := Next(s, w);
    var s2 := Next(s1, w);
    var s3 := Next(s2, w);
    assert [w, w, w, w][..3] == [w, w, w] && [w, w, w][..2] == [w, w] && [w, w][..1] == [w];
    assert Exec(s, [w]) == s1;
    assert Exec(s, [w, w]) == s2;
    assert Exec(s, [w, w, w]) == s3;
  }

  lemma {:induction false} BurstRuns(s: State, n: nat)
    requires OnlyValidOnCoreZero(s, 0)
    ensures OnlyValidOnCoreZero(Exec(s, Burst(n)), n) && Exec(s, Burst(n)).reader == s.reader
  {
    if n > 0 {
      BurstRuns(s, n - 1);
      FourWrites(Exec(s, Burst(n - 1)), n - 1);
      var w := Write(0, DecisionValid);
      ExecConcat(s, Burst(n - 1), [w, w, w, w]);
    }
  }

  const HALF_WORD: nat := 0x8000_0000_0000_0000

  function Reads(n: nat): seq<Event> { if n == 0 then [] else Reads(n - 1) + [Read] }

  /** With exactly 2^64 bumps between the two sequence loads the numbers meet again: the reader
      accepts a torn shard that shows no decision in total and 2^63 valid ones. */
  lemma TornReadAfterFullWrap()
    ensures var s := Exec(START, [Read, Read] + Burst(HALF_WORD) + Reads(6));
      && |s.shards| == MAX_CORES && s.shards[0].bumps == WORD
      && s.reader.shard == 1 && s.reader.agg.total == 0 && s.reader.agg.valid == HALF_WORD
  {
    var s0 := Exec(START, [Read, Read]);
    assert [Read, Read][..1] == [Read];
    assert Exec(START, [Read]) == Next(START, Read);
    assert s0 == Next(Next(START, Read), Read);
    assert Next(START, Read).reader == Reader(0, Loading(0, [], 0), ZERO, []);
    assert s0 == Loaded(START, 1) by {
      assert [] + [0] == TORN[..1];
    }
    BurstRuns(s0, HALF_WORD);
    ExecConcat(START, [Read, Read], Burst(HALF_WORD));
    var s1 := Exec(START, [Read, Read] + Burst(HALF_WORD));
    ExecConcat(START, [Read, Read] + Burst(HALF_WORD), Reads(6));
    SixReads(s1);
  }

  /** The words of the torn round: the total from before the burst, the rest from after it. */
  const TORN: seq<nat> := [0, HALF_WORD, 0, 0, 0, 0]

  function Loaded(s: State, n: nat): State
    requires n <= 6
  {
    s.(reader := Reader(0, Loading(0, TORN[..n], 0), ZERO, []))
  }

  lemma LoadOne(s: State, n: nat)
    requires OnlyValidOnCoreZero(s, HALF_WORD) && 0 < n < 6
    ensures Next(Loaded(s, n), Read) == Loaded(s, n + 1)
  {
    SmallWord(TORN[n]);
    assert Fields(s.shards[0].counters)[n] == TORN[n];
    assert TORN[..n] + [TORN[n]] == TORN[..n + 1];
  }

  lemma {:induction false} LoadsRun(s: State, k: nat)
    requires OnlyValidOnCoreZero(s, HALF_WORD) && k <= 5
    ensures Exec(Loaded(s, 1), Reads(k)) == Loaded(s, k + 1)
  {
    if k > 0 {
      LoadsRun(s, k - 1);
      LoadOne(s, k);
    }
  }

  /** Five loads, and the second sequence load finds the number of the first one again. */
  lemma SixReads(s: State)
    requires OnlyValidOnCoreZero(s, HALF_WORD)
    ensures Exec(Loaded(s, 1), Reads(6))
         == s.(reader := Reader(1, NotStarted, Counters(0, HALF_WORD, 0, 0, 0, 0), [0]))
  {
    LoadsRun(s, 5);
    AcceptTorn(s);
  }

  lemma TornWords()
    ensures Words(Add(ZERO, FromFields(TORN))) == Counters(0, HALF_WORD, 0, 0, 0, 0)
  {
    hide Word;
    SmallWord(0);
    SmallWord(HALF_WORD);
  }

  lemma AcceptTorn(s: State)
    requires OnlyValidOnCoreZero(s, HALF_WORD)
    ensures Next(Loaded(s, 6), Read) == s.(reader := Reader(1, NotStarted, Counters(0, HALF_WORD, 0, 0, 0, 0), [0]))
  {
    hide Word;
    TornWords();
    WordStep(MAX_WORD);
    SmallWord(MAX_WORD);
    assert TORN[..6] == TORN;
  }
}
