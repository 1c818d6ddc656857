/** The wave-frame evaluator: sequence tracking, gap accounting and the channel status machine, and
    what it makes of the frames that the lock-free channel delivers. */
module WaveEvaluator {
  import opened Modular
  import opened SpscRing

  const TWO_PI := 6.283185307179586

  /** Flag bits: 1 gap, 2 out of order, 4 corrupted. */
  datatype Frame = Frame(sequenceId: nat, flags: bv8, bidSize: real, askSize: real, lastSize: real,
                         vwapDelta: real, channelId: nat)
  datatype Status = Healthy | Degraded | Corrupted | Locked
  datatype State = State(expected: nat, processed: nat, gaps: nat, status: Status,
                         cloneMask: nat, degradedClones: nat, phase: real, amplitude: real)
  datatype Advisory = Advisory(confidence: real, energy: real, acceleration: real,
                               streamDegraded: bool, escalate: bool, freeze: bool, channelId: nat)
  datatype Config = Config(maxSequenceGaps: nat)

  const FRESH := State(1, 0, 0, Healthy, 0, 0, 0.0, 1.0)

  predicate Flagged(f: Frame) { f.flags & 7 != 0 }
  predicate MarkedCorrupted(f: Frame) { f.flags & 4 != 0 }

  function PhaseOf(id: nat): real {
    var x := id as real * 0.1;
    x - (x / TWO_PI).Floor as real * TWO_PI
  }

  function AmplitudeOf(f: Frame): real {
    if f.bidSize + f.askSize > 0.0 then f.lastSize / (f.bidSize + f.askSize) else 1.0
  }

  predicate ClonesDegraded(s: State) { s.cloneMask != 0 || s.degradedClones > 0 }

  /** Whether the sequence check lets the frame through. */
  predicate Accepts(s: State, f: Frame) { s.processed == 0 || f.sequenceId >= s.expected }

  /** The sequence fields after one frame, no safety fault and no degraded clone. */
  function Sequenced(s: State, f: Frame): State {
    var late := s.processed > 0 && f.sequenceId > s.expected;
    var s1 := if late then s.(gaps := Word(s.gaps + (f.sequenceId - s.expected)), status := Degraded)
              else if Accepts(s, f) then s else s.(status := Degraded);
    var s2 := if Accepts(s, f) then s1.(expected := Word(f.sequenceId + 1), processed := Word(s.processed + 1)) else s1;
    s2.(phase := PhaseOf(f.sequenceId), amplitude := AmplitudeOf(f))
  }

  predicate Suspicious(s: State, f: Frame) {
    !Accepts(s, f) || Flagged(f) || Sequenced(s, f).status != Healthy
  }

  predicate Condemned(s: State, f: Frame, cfg: Config) {
    Suspicious(s, f) && (Sequenced(s, f).gaps >= cfg.maxSequenceGaps || MarkedCorrupted(f))
  }

  function NextState(s: State, f: Frame, cfg: Config, fault: bool): State {
    if fault then s.(status := Locked)
    else if ClonesDegraded(s) then s.(status := Degraded)
    else if Condemned(s, f, cfg) then Sequenced(s, f).(status := Corrupted)
    else Sequenced(s, f)
  }

  function AdvisoryOf(s: State, f: Frame, cfg: Config, fault: bool): Advisory {
    if fault || ClonesDegraded(s) then Advisory(0.0, 0.0, 0.0, true, true, true, f.channelId)
    else if Condemned(s, f, cfg) then Advisory(0.0, 0.0, f.vwapDelta, true, true, true, f.channelId)
    else if Suspicious(s, f) then
      Advisory(if Accepts(s, f) then 0.5 else 0.0, if Accepts(s, f) then AmplitudeOf(f) else 0.0,
               f.vwapDelta, true, false, true, f.channelId)
    else Advisory(1.0, AmplitudeOf(f), f.vwapDelta, false, false, false, f.channelId)
  }

  /** The state object that the evaluator updates step by step. */
  class WaveState {
    var expected: nat
    var processed: nat
    var gaps: nat
    var status: Status
    var cloneMask: nat
    var degradedClones: nat
    var phase: real
    var amplitude: real

    ghost function View(): State
      reads this
    {
      State(expected, processed, gaps, status, cloneMask, degradedClones, phase, amplitude)
    }

    constructor ()
      ensures View() == FRESH
    {
      expected, processed, gaps, status := 1, 0, 0, Healthy;
      cloneMask, degradedClones, phase, amplitude := 0, 0, 0.0, 1.0;
    }

    method Evaluate(frame: Frame, cfg: Config, killSwitch: bool, hardwareFault: bool) returns (adv: Advisory)
      modifies this
      ensures View() == NextState(old(View()), frame, cfg, killSwitch || hardwareFault)
      ensures adv == AdvisoryOf(old(View()), frame, cfg, killSwitch || hardwareFault)
    {
      adv := Advisory(1.0, 1.0, 0.0, false, false, false, frame.channelId);
      if killSwitch || hardwareFault {
        status := Locked;
        adv := adv.(confidence := 0.0, energy := 0.0, streamDegraded := true, escalate := true, freeze := true);
        return;
      }
      if cloneMask != 0 || degradedClones > 0 {
        status := Degraded;
        adv := adv.(streamDegraded := true, freeze := true, confidence := 0.0, energy := 0.0,
                    acceleration := 0.0, escalate := true);
        return;
      }
      var outOfOrder := false;
      if processed > 0 {
        if frame.sequenceId > expected {
          gaps := Word(gaps + (frame.sequenceId - expected));
          status := Degraded;
        } else if frame.sequenceId < expected {
          status := Degraded;
          outOfOrder := true;
        }
      }
      if !outOfOrder {
        expected := Word(frame.sequenceId + 1);
        processed := Word(processed + 1);
      }
      phase := PhaseOf(frame.sequenceId);
      amplitude := AmplitudeOf(frame);
      if outOfOrder || Flagged(frame) || status != Healthy {
        adv := adv.(streamDegraded := true, freeze := true);
        if gaps >= cfg.maxSequenceGaps || MarkedCorrupted(frame) {
          status := Corrupted;
          adv := adv.(escalate := true, confidence := 0.0, energy := 0.0);
        } else {
          adv := adv.(confidence := if outOfOrder then 0.0 else 0.5, energy := if outOfOrder then 0.0 else amplitude);
        }
      } else {
        adv := adv.(confidence := 1.0, energy := amplitude,
                    streamDegraded := false, freeze := false, escalate := false);
      }
      adv := adv.(acceleration := frame.vwapDelta);
    }
  }

  /** The phase lies on the circle and differs from a tenth of the id by whole turns. */
  lemma PhaseInRange(id: nat)
    ensures 0.0 <= PhaseOf(id) < TWO_PI
    ensures exists turns: int :: WholeTurns(PhaseOf(id), id, turns)
  {
    var x := id as real * 0.1;
    var q := (x / TWO_PI).Floor as real;
    assert q <= x / TWO_PI < q + 1.0;
    assert WholeTurns(PhaseOf(id), id, (x / TWO_PI).Floor);
  }

  predicate WholeTurns(phase: real, id: nat, turns: int) { phase + turns as real * TWO_PI == id as real * 0.1 }

  // ---------- What the evaluator advises ----------

  /** Refused or after a gap: the sequence check found fault with the frame. */
  predicate OffSequence(s: State, f: Frame) { s.processed > 0 && f.sequenceId != s.expected }

  predicate OutOfOrder(s: State, f: Frame) { s.processed > 0 && f.sequenceId < s.expected }

  predicate Blocked(s: State, fault: bool) { fault || s.cloneMask != 0 || s.degradedClones > 0 }

  /** The frame is suspicious and marked as corrupted or one too many after gaps. */
  predicate Condemns(after: State, f: Frame, cfg: Config) {
    after.gaps >= cfg.maxSequenceGaps || f.flags & 4 != 0
  }

  /** A clean frame: in sequence, on a healthy channel, with none of the three flags. */
  predicate CleanFrame(s: State, f: Frame) { !OffSequence(s, f) && s.status == Healthy && f.flags & 7 == 0 }

  ghost predicate StatusFits(s: State, f: Frame, cfg: Config, fault: bool, after: State) {
    && (fault ==> after.status == Locked)
    && (!fault && Blocked(s, fault) ==> after.status == Degraded)
    && (!Blocked(s, fault) ==>
         && (CleanFrame(s, f) ==> after.status == Healthy)
         && (!CleanFrame(s, f) && Condemns(after, f, cfg) ==> after.status == Corrupted)
         && (!CleanFrame(s, f) && !Condemns(after, f, cfg) ==>
               after.status == if OffSequence(s, f) then Degraded else s.status))
  }

  ghost predicate AdviceFits(s: State, f: Frame, cfg: Config, fault: bool, after: State, adv: Advisory) {
    && adv.channelId == f.channelId && (adv.freeze <==> adv.streamDegraded)
    && (adv.streamDegraded <==> Blocked(s, fault) || !CleanFrame(s, f))
    && (adv.escalate <==> Blocked(s, fault) || (!CleanFrame(s, f) && Condemns(after, f, cfg)))
    && adv.acceleration == (if Blocked(s, fault) then 0.0 else f.vwapDelta)
    && (adv.confidence == 1.0 <==> !adv.streamDegraded)
    && (adv.confidence == 0.5 <==> adv.streamDegraded && !adv.escalate && !OutOfOrder(s, f))
    && (adv.confidence == 1.0 || adv.confidence == 0.5 || adv.confidence == 0.0)
    && (adv.confidence == 0.0 ==> adv.energy == 0.0)
    && (adv.confidence > 0.0 && f.bidSize + f.askSize > 0.0 ==> adv.energy * (f.bidSize + f.askSize) == f.lastSize)
    && (adv.confidence > 0.0 && f.bidSize + f.askSize <= 0.0 ==> adv.energy == 1.0)
  }

  lemma AmplitudeIs(f: Frame)
    ensures f.bidSize + f.askSize > 0.0 ==> AmplitudeOf(f) * (f.bidSize + f.askSize) == f.lastSize
    ensures f.bidSize + f.askSize <= 0.0 ==> AmplitudeOf(f) == 1.0
  {
  }

  /** Status and advisory after every frame: which status, when it escalates, how confident it is and
      with what energy, both directions for each. */
  lemma AdviceExplained(s: State, f: Frame, cfg: Config, fault: bool)
    ensures StatusFits(s, f, cfg, fault, NextState(s, f, cfg, fault))
    ensures AdviceFits(s, f, cfg, fault, NextState(s, f, cfg, fault), AdvisoryOf(s, f, cfg, fault))
  {
    hide AmplitudeOf, Word;
    AmplitudeIs(f);
    CorruptedIsFlagged(f);
  }

  // ---------- The status never heals ----------

  /** Whatever arrives, faults and degraded clones included, a channel that is not healthy stays so
      and keeps advising degradation and freeze. */
  lemma NeverHeals(s: State, f: Frame, cfg: Config, fault: bool)
    requires s.status != Healthy
    ensures NextState(s, f, cfg, fault).status != Healthy
    ensures AdvisoryOf(s, f, cfg, fault).streamDegraded && AdvisoryOf(s, f, cfg, fault).freeze
  {
  }

  /** A run: each frame with the safety verdict at its arrival. */
  function Run(s: State, ins: seq<(Frame, bool)>, cfg: Config): State {
    if ins == [] then s
    else
      var n := |ins| - 1;
      NextState(Run(s, ins[..n], cfg), ins[n].0, cfg, ins[n].1)
  }

  /** Once a run is unhealthy after k frames it is unhealthy after any later number j of frames, and
      the advisory on the next frame says so. */
  lemma {:induction false} StaysUnhealthy(s: State, ins: seq<(Frame, bool)>, k: nat, j: nat, cfg: Config)
    requires k <= j <= |ins| && Run(s, ins[..k], cfg).status != Healthy
    ensures Run(s, ins[..j], cfg).status != Healthy
    ensures j < |ins| ==> AdvisoryOf(Run(s, ins[..j], cfg), ins[j].0, cfg, ins[j].1).streamDegraded
    decreases j
  {
    if k < j {
      StaysUnhealthy(s, ins, k, j - 1, cfg);
      RunSnoc(s, ins, j, cfg);
      NeverHeals(Run(s, ins[..j - 1], cfg), ins[j - 1].0, cfg, ins[j - 1].1);
    }
    if j < |ins| {
      NeverHeals(Run(s, ins[..j], cfg), ins[j].0, cfg, ins[j].1);
    }
  }

  lemma RunSnoc(s: State, ins: seq<(Frame, bool)>, j: nat, cfg: Config)
    requires 0 < j <= |ins|
    ensures Run(s, ins[..j], cfg) == NextState(Run(s, ins[..j - 1], cfg), ins[j - 1].0, cfg, ins[j - 1].1)
  {
    assert ins[..j][..j - 1] == ins[..j - 1];
  }

  // ---------- Fault-free runs ----------

  function Clean(frames: seq<Frame>): seq<(Frame, bool)> {
    seq(|frames|, i requires 0 <= i < |frames| => (frames[i], false))
  }

  function CleanRun(frames: seq<Frame>, cfg: Config): State { Run(FRESH, Clean(frames), cfg) }

  lemma CleanSnoc(frames: seq<Frame>, cfg: Config)
    requires frames != []
    ensures var n := |frames| - 1;
      CleanRun(frames, cfg) == NextState(CleanRun(frames[..n], cfg), frames[n], cfg, false)
  {
    var n := |frames| - 1;
    assert Clean(frames)[..n] == Clean(frames[..n]);
  }

  ghost predicate WordIds(frames: seq<Frame>) {
    forall i :: 0 <= i < |frames| ==> frames[i].sequenceId < WORD
  }

  /** The ids that a fault-free run accepts, in order. */
  function AcceptedIds(frames: seq<Frame>, cfg: Config): seq<nat> {
    if frames == [] then []
    else
      var n := |frames| - 1;
      AcceptedIds(frames[..n], cfg)
      + if Accepts(CleanRun(frames[..n], cfg), frames[n]) then [frames[n].sequenceId] else []
  }

  /** The ids missing before an accepted one.  A frame that finds the processed count at 0, as the
      first one does, is compared with nothing. */
  function Skip(accepted: nat, next: nat, id: nat): nat {
    if Word(accepted) > 0 && id > Word(next) then id - Word(next) else 0
  }

  function NextOf(ids: seq<nat>): nat { if ids == [] then 1 else ids[|ids| - 1] + 1 }

  function Skips(ids: seq<nat>): nat {
    if ids == [] then 0
    else
      var n := |ids| - 1;
      Skips(ids[..n]) + Skip(n, NextOf(ids[..n]), ids[n])
  }

  /** What the sequence fields say about the accepted ids. */
  ghost predicate Counted(s: State, ids: seq<nat>) {
    !ClonesDegraded(s) && FieldsAre(s, |ids|, Skips(ids), NextOf(ids))
  }

  ghost predicate FieldsAre(s: State, accepted: nat, skipped: nat, next: nat) {
    s.processed == Word(accepted) && s.gaps == Word(skipped) && s.expected == Word(next)
  }

  /** Each id is at or above the id expected after the one before, unless the count was at 0. */
  ghost predicate FollowsAt(ids: seq<nat>, i: nat)
    requires 0 < i < |ids|
  {
    Word(i) != 0 ==> ids[i] >= Word(ids[i - 1] + 1)
  }

  ghost predicate Follows(ids: seq<nat>) {
    forall i :: 0 < i < |ids| ==> FollowsAt(ids, i)
  }

  ghost predicate LawHolds(s: State, ids: seq<nat>) { Counted(s, ids) && Follows(ids) }

  lemma SkipsSnoc(ids: seq<nat>, id: nat)
    ensures Skips(ids + [id]) == Skips(ids) + Skip(|ids|, NextOf(ids), id)
  {
    assert (ids + [id])[..|ids|] == ids;
  }

  lemma FollowsSnoc(ids: seq<nat>, id: nat)
    requires Follows(ids) && (Word(|ids|) != 0 ==> id >= Word(ids[|ids| - 1] + 1))
    ensures Follows(ids + [id])
  {
    forall i | 0 < i < |ids| + 1 ensures FollowsAt(ids + [id], i) {
      assert i < |ids| ==> FollowsAt(ids, i);
    }
  }

  lemma AcceptedFields(s: State, f: Frame, cfg: Config)
    requires !ClonesDegraded(s) && Accepts(s, f)
    ensures var n := NextState(s, f, cfg, false);
      && !ClonesDegraded(n) && n.processed == Word(s.processed + 1) && n.expected == Word(f.sequenceId + 1)
      && n.gaps == if s.processed > 0 && f.sequenceId > s.expected then Word(s.gaps + (f.sequenceId - s.expected))
                   else s.gaps
  {
  }

  lemma AcceptedNumbers(s: State, accepted: nat, skipped: nat, next: nat, f: Frame, cfg: Config)
    requires !ClonesDegraded(s) && Accepts(s, f) && FieldsAre(s, accepted, skipped, next)
    ensures !ClonesDegraded(NextState(s, f, cfg, false))
    ensures FieldsAre(NextState(s, f, cfg, false), accepted + 1, skipped + Skip(accepted, next, f.sequenceId),
                      f.sequenceId + 1)
  {
    hide Word;
    AcceptedFields(s, f, cfg);
    WordAdd(1, accepted);
    if f.sequenceId > s.expected {
      WordAdd(f.sequenceId - s.expected, skipped);
    }
  }

  lemma CountedNext(s: State, ids: seq<nat>, f: Frame, cfg: Config)
    requires Counted(s, ids) && Accepts(s, f)
    ensures Counted(NextState(s, f, cfg, false), ids + [f.sequenceId])
  {
    hide Word;
    AcceptedNumbers(s, |ids|, Skips(ids), NextOf(ids), f, cfg);
    SkipsSnoc(ids, f.sequenceId);
  }

  lemma CountedStep(s: State, ids: seq<nat>, f: Frame, cfg: Config)
    requires LawHolds(s, ids)
    ensures LawHolds(NextState(s, f, cfg, false), if Accepts(s, f) then ids + [f.sequenceId] else ids)
  {
    if Accepts(s, f) {
      FollowsSnoc(ids, f.sequenceId);
      assert Counted(NextState(s, f, cfg, false), ids + [f.sequenceId]) by {
        CountedNext(s, ids, f, cfg);
      }
    }
  }

  /** The counting law of every fault-free run, wraps included: processed frames are the accepted
      ids, gaps are the ids skipped between them, the expected id is the successor of the last. */
  lemma {:induction false} CountingLaw(frames: seq<Frame>, cfg: Config)
    ensures |AcceptedIds(frames, cfg)| <= |frames|
    ensures LawHolds(CleanRun(frames, cfg), AcceptedIds(frames, cfg))
  {
    if frames != [] {
      var n := |frames| - 1;
      var s, ids := CleanRun(frames[..n], cfg), AcceptedIds(frames[..n], cfg);
      CountingLaw(frames[..n], cfg);
      CleanSnoc(frames, cfg);
      assert AcceptedIds(frames, cfg) == if Accepts(s, frames[n]) then ids + [frames[n].sequenceId] else ids;
      CountedStep(s, ids, frames[n], cfg);
    }
  }

  /** The frames that arrived without a safety fault. */
  function Kept(ins: seq<(Frame, bool)>): seq<Frame> {
    if ins == [] then []
    else
      var n := |ins| - 1;
      Kept(ins[..n]) + if ins[n].1 then [] else [ins[n].0]
  }

  ghost predicate SameSequence(a: State, b: State) {
    && a.expected == b.expected && a.processed == b.processed && a.gaps == b.gaps
    && a.cloneMask == b.cloneMask && a.degradedClones == b.degradedClones
  }

  lemma SameSequenceStep(a: State, b: State, f: Frame, cfg: Config)
    requires SameSequence(a, b)
    ensures SameSequence(NextState(a, f, cfg, false), NextState(b, f, cfg, false))
    ensures SameSequence(NextState(a, f, cfg, true), b)
  {
  }

  /** Frames that meet a safety fault leave the sequence fields as they are, and the status has no
      part in them, so the counting law holds of every run over the other frames. */
  lemma {:induction false} CountingLawWithFaults(ins: seq<(Frame, bool)>, cfg: Config)
    ensures SameSequence(Run(FRESH, ins, cfg), CleanRun(Kept(ins), cfg))
    ensures LawHolds(Run(FRESH, ins, cfg), AcceptedIds(Kept(ins), cfg))
  {
    if ins != [] {
      var n := |ins| - 1;
      var frames := Kept(ins[..n]);
      CountingLawWithFaults(ins[..n], cfg);
      SameSequenceStep(Run(FRESH, ins[..n], cfg), CleanRun(frames, cfg), ins[n].0, cfg);
      if ins[n].1 {
        assert Kept(ins) == frames;
      } else {
        CleanSnoc(frames + [ins[n].0], cfg);
        assert (frames + [ins[n].0])[..|frames|] == frames;
      }
    }
    CountingLaw(Kept(ins), cfg);
    SameLaw(CleanRun(Kept(ins), cfg), Run(FRESH, ins, cfg), AcceptedIds(Kept(ins), cfg));
  }

  lemma SameLaw(a: State, b: State, ids: seq<nat>)
    requires SameSequence(a, b) && LawHolds(a, ids)
    ensures LawHolds(b, ids)
  {
  }

  /** First id, count and skipped ids give the last id, up to 2^64 ids. */
  lemma {:induction false} SkipsAddUp(ids: seq<nat>)
    requires Follows(ids) && 0 < |ids| <= WORD
    ensures Word(ids[0] + |ids| + Skips(ids)) == Word(ids[|ids| - 1] + 1)
  {
    if |ids| > 1 {
      var n := |ids| - 1;
      var skip := Skip(n, NextOf(ids[..n]), ids[n]);
      SmallWord(n);
      assert FollowsAt(ids, n);
      FollowsPrefix(ids, n);
      SkipsAddUp(ids[..n]);
      SumStep(ids[0] + n + Skips(ids[..n]), ids[n - 1] + 1, ids[n], skip);
    }
  }

  lemma FollowsPrefix(ids: seq<nat>, n: nat)
    requires n <= |ids| && Follows(ids)
    ensures Follows(ids[..n])
  {
    forall i | 0 < i < n ensures FollowsAt(ids[..n], i) {
      assert FollowsAt(ids, i);
    }
  }

  lemma SumStep(sum: nat, next: nat, id: nat, skip: nat)
    requires Word(sum) == Word(next) && id == Word(next) + skip
    ensures Word(sum + 1 + skip) == Word(id + 1)
  {
    WordAdd(skip + 1, sum);
  }

  lemma WordsAdd(a: nat, b: nat, c: nat, wb: nat, wc: nat)
    requires wb == Word(b) && wc == Word(c)
    ensures Word(a + wb + wc) == Word(a + b + c)
  {
    WordAdd(a + wb, c);
    WordAdd(a + c, b);
  }

  ghost predicate SumsUp(s: State, first: nat) {
    s.expected == Word(first + s.processed + s.gaps)
  }

  lemma CountedSum(s: State, ids: seq<nat>)
    requires LawHolds(s, ids) && 0 < |ids| <= WORD
    ensures SumsUp(s, ids[0])
  {
    SkipsAddUp(ids);
    WordsAdd(ids[0], |ids|, Skips(ids), s.processed, s.gaps);
  }

  /** Until 2^64 frames are accepted: expected id = first accepted id + processed frames + gaps. */
  lemma CountsGiveExpected(frames: seq<Frame>, cfg: Config)
    requires 0 < |AcceptedIds(frames, cfg)| <= WORD
    ensures SumsUp(CleanRun(frames, cfg), AcceptedIds(frames, cfg)[0])
  {
    CountingLaw(frames, cfg);
    CountedSum(CleanRun(frames, cfg), AcceptedIds(frames, cfg));
  }

  ghost predicate Increasing(ids: seq<nat>) {
    forall i :: 0 < i < |ids| ==> ids[i - 1] < ids[i]
  }

  ghost predicate Words(ids: seq<nat>) {
    forall i :: 0 <= i < |ids| ==> ids[i] < WORD
  }

  /** No id before the last one is 2^64 - 1. */
  ghost predicate MaxOnlyLast(ids: seq<nat>) {
    forall i :: 0 <= i < |ids| - 1 ==> ids[i] != MAX_WORD
  }

  lemma NextId(id: nat, next: nat)
    requires id < MAX_WORD && next >= Word(id + 1)
    ensures id < next
  {
  }

  lemma FollowingIncreases(ids: seq<nat>)
    requires Follows(ids) && Words(ids) && |ids| <= WORD && MaxOnlyLast(ids)
    ensures Increasing(ids)
  {
    forall i | 0 < i < |ids| ensures ids[i - 1] < ids[i] {
      assert FollowsAt(ids, i) && Word(i) == i;
      NextId(ids[i - 1], ids[i]);
    }
  }

  lemma {:induction false} IncreasingIsShort(ids: seq<nat>)
    requires Increasing(ids) && Words(ids)
    ensures |ids| <= WORD
    ensures ids != [] ==> ids[|ids| - 1] >= |ids| - 1
  {
    if |ids| > 1 {
      IncreasingIsShort(ids[..|ids| - 1]);
      assert ids[|ids| - 2] < ids[|ids| - 1];
    }
  }

  /** Accepted ids are ids of frames. */
  lemma {:induction false} AcceptedAreInputs(frames: seq<Frame>, cfg: Config)
    requires WordIds(frames)
    ensures Words(AcceptedIds(frames, cfg))
    ensures (forall i :: 0 <= i < |frames| ==> frames[i].sequenceId != MAX_WORD) ==>
      MAX_WORD !in AcceptedIds(frames, cfg)
  {
    if frames != [] {
      AcceptedAreInputs(frames[..|frames| - 1], cfg);
    }
  }

  ghost predicate NoMaxBeforeLast(frames: seq<Frame>) {
    forall i :: 0 <= i < |frames| - 1 ==> frames[i].sequenceId != MAX_WORD
  }

  lemma MaxOnlyLastOf(frames: seq<Frame>, cfg: Config)
    requires WordIds(frames) && NoMaxBeforeLast(frames)
    ensures MaxOnlyLast(AcceptedIds(frames, cfg))
  {
    if frames != [] {
      var before := frames[..|frames| - 1];
      AcceptedAreInputs(before, cfg);
      forall i | 0 <= i < |AcceptedIds(frames, cfg)| - 1 ensures AcceptedIds(frames, cfg)[i] != MAX_WORD {
        assert AcceptedIds(frames, cfg)[i] in AcceptedIds(before, cfg);
      }
    }
  }

  lemma {:induction false} AcceptedPrefix(frames: seq<Frame>, k: nat, cfg: Config)
    requires k <= |frames|
    ensures AcceptedIds(frames[..k], cfg) <= AcceptedIds(frames, cfg)
  {
    if k < |frames| {
      AcceptedPrefix(frames[..|frames| - 1], k, cfg);
      assert frames[..|frames| - 1][..k] == frames[..k];
    } else {
      assert frames[..k] == frames;
    }
  }

  lemma AcceptedSnoc(frames: seq<Frame>, k: nat, cfg: Config)
    requires k < |frames|
    ensures AcceptedIds(frames[..k + 1], cfg) == AcceptedIds(frames[..k], cfg)
      + if Accepts(CleanRun(frames[..k], cfg), frames[k]) then [frames[k].sequenceId] else []
  {
    assert frames[..k + 1][..k] == frames[..k];
  }

  /** The expected id is below 2^64, and 0 after 2^64 - 1. */
  lemma ExpectedIsWord(s: State, ids: seq<nat>)
    requires Counted(s, ids)
    ensures s.expected < WORD
    ensures ids != [] && ids[|ids| - 1] == MAX_WORD ==> s.expected == 0
  {
  }

  /** 2^64 - 1 is always accepted and so is whatever follows it. */
  lemma MaxAcceptsNext(frames: seq<Frame>, i: nat, cfg: Config)
    requires WordIds(frames) && i + 1 < |frames| && frames[i].sequenceId == MAX_WORD
    ensures AcceptedIds(frames[..i + 2], cfg)
         == AcceptedIds(frames[..i], cfg) + [MAX_WORD, frames[i + 1].sequenceId]
  {
    hide Word, AcceptedIds, CleanRun, Counted, Follows;
    var ids, next := AcceptedIds(frames[..i], cfg), frames[i + 1].sequenceId;
    CountingLaw(frames[..i], cfg);
    ExpectedIsWord(CleanRun(frames[..i], cfg), ids);
    AcceptedSnoc(frames, i, cfg);
    CountingLaw(frames[..i + 1], cfg);
    ExpectedIsWord(CleanRun(frames[..i + 1], cfg), ids + [MAX_WORD]);
    AcceptedSnoc(frames, i + 1, cfg);
    assert ids + [MAX_WORD] + [next] == ids + [MAX_WORD, next];
  }

  /** The accepted ids of a fault-free run increase strictly exactly when no frame but the last
      carries 2^64 - 1 and no more than 2^64 frames are accepted, as in every run that short. */
  lemma IdsIncreaseUnlessWrapped(frames: seq<Frame>, cfg: Config)
    requires WordIds(frames)
    ensures Increasing(AcceptedIds(frames, cfg)) <==>
      NoMaxBeforeLast(frames) && |AcceptedIds(frames, cfg)| <= WORD
    ensures |AcceptedIds(frames, cfg)| <= |frames|
  {
    var ids := AcceptedIds(frames, cfg);
    CountingLaw(frames, cfg);
    AcceptedAreInputs(frames, cfg);
    if Increasing(ids) {
      IncreasingIsShort(ids);
      forall i | 0 <= i < |frames| - 1 ensures frames[i].sequenceId != MAX_WORD {
        if frames[i].sequenceId == MAX_WORD {
          MaxAcceptsNext(frames, i, cfg);
          AcceptedPrefix(frames, i + 2, cfg);
          MaxThenSmaller(ids, AcceptedIds(frames[..i], cfg), frames[i + 1].sequenceId);
        }
      }
    }
    if NoMaxBeforeLast(frames) && |ids| <= WORD {
      MaxOnlyLastOf(frames, cfg);
      FollowingIncreases(ids);
    }
  }

  lemma MaxThenSmaller(ids: seq<nat>, before: seq<nat>, id: nat)
    requires id < WORD && before + [MAX_WORD, id] <= ids
    ensures !Increasing(ids)
  {
    assert ids[|before|] == MAX_WORD && ids[|before| + 1] == id;
    assert ids[(|before| + 1) - 1] == MAX_WORD;
  }

  /** The wrap in the open: the id after 2^64 - 1 is accepted although it is smaller. */
  lemma WrapBreaksOrder(f: Frame, g: Frame, cfg: Config)
    requires f.sequenceId == MAX_WORD && g.sequenceId < MAX_WORD
    ensures AcceptedIds([f, g], cfg) == [f.sequenceId, g.sequenceId]
    ensures !Increasing(AcceptedIds([f, g], cfg))
  {
    assert [f, g][..1] == [f] && [f][..0] == [];
    CleanSnoc([f], cfg);
    assert AcceptedIds([f], cfg) == [f.sequenceId];
    assert AcceptedIds([f, g], cfg)[1 - 1] > AcceptedIds([f, g], cfg)[1];
  }

  // ---------- When the channel stays healthy ----------

  ghost predicate InSequence(frames: seq<Frame>) {
    forall i :: 0 < i < |frames| ==> frames[i].sequenceId == Word(frames[i - 1].sequenceId + 1)
  }

  ghost predicate Unmarked(frames: seq<Frame>, cfg: Config) {
    forall i :: 0 <= i < |frames| ==>
      !MarkedCorrupted(frames[i]) && (cfg.maxSequenceGaps == 0 ==> !Flagged(frames[i]))
  }

  lemma CorruptedIsFlagged(f: Frame)
    ensures MarkedCorrupted(f) ==> Flagged(f)
  {
  }

  lemma HealthyStep(s: State, f: Frame, cfg: Config)
    requires s.status == Healthy && s.gaps == 0 && !ClonesDegraded(s)
    ensures NextState(s, f, cfg, false).status == Healthy <==>
      && (s.processed == 0 || f.sequenceId == s.expected)
      && !MarkedCorrupted(f) && (cfg.maxSequenceGaps == 0 ==> !Flagged(f))
    ensures NextState(s, f, cfg, false).status == Healthy ==>
      NextState(s, f, cfg, false).gaps == 0 && NextState(s, f, cfg, false).expected == Word(f.sequenceId + 1)
  {
    CorruptedIsFlagged(f);
  }

  ghost predicate Intact(s: State, frames: seq<Frame>) {
    && s.gaps == 0 && !ClonesDegraded(s) && s.processed == |frames|
    && (frames != [] ==> s.expected == Word(frames[|frames| - 1].sequenceId + 1))
  }

  lemma IntactStep(s: State, frames: seq<Frame>, f: Frame, cfg: Config)
    requires s.status == Healthy && Intact(s, frames) && |frames| + 1 < WORD
    ensures NextState(s, f, cfg, false).status == Healthy <==>
      && (frames != [] ==> f.sequenceId == Word(frames[|frames| - 1].sequenceId + 1))
      && !MarkedCorrupted(f) && (cfg.maxSequenceGaps == 0 ==> !Flagged(f))
    ensures NextState(s, f, cfg, false).status == Healthy ==> Intact(NextState(s, f, cfg, false), frames + [f])
  {
    hide Word;
    HealthyStep(s, f, cfg);
    SmallWord(s.processed + 1);
  }

  lemma SequenceSnoc(frames: seq<Frame>, f: Frame, cfg: Config)
    ensures InSequence(frames + [f]) <==>
      InSequence(frames) && (frames != [] ==> f.sequenceId == Word(frames[|frames| - 1].sequenceId + 1))
    ensures Unmarked(frames + [f], cfg) <==>
      Unmarked(frames, cfg) && !MarkedCorrupted(f) && (cfg.maxSequenceGaps == 0 ==> !Flagged(f))
  {
    var all := frames + [f];
    assert all[|frames|] == f;
    assert forall i :: 0 <= i < |frames| ==> all[i] == frames[i];
  }

  /** A fault-free run ends healthy exactly when the ids were consecutive 64-bit words, no frame was
      marked corrupted, and, with a gap limit of 0, none was flagged at all. */
  lemma {:induction false} HealthyIff(frames: seq<Frame>, cfg: Config)
    requires |frames| < WORD
    ensures CleanRun(frames, cfg).status == Healthy <==> InSequence(frames) && Unmarked(frames, cfg)
    ensures CleanRun(frames, cfg).status == Healthy ==> Intact(CleanRun(frames, cfg), frames)
  {
    if frames != [] {
      var n := |frames| - 1;
      var s := CleanRun(frames[..n], cfg);
      HealthyIff(frames[..n], cfg);
      CleanSnoc(frames, cfg);
      SequenceSnoc(frames[..n], frames[n], cfg);
      assert frames == frames[..n] + [frames[n]];
      if s.status == Healthy {
        IntactStep(s, frames[..n], frames[n], cfg);
      } else {
        NeverHeals(s, frames[n], cfg, false);
      }
    }
  }

  // ---------- Increasing frames ----------

  ghost predicate FramesIncrease(frames: seq<Frame>) {
    WordIds(frames) && forall i :: 0 < i < |frames| ==> frames[i - 1].sequenceId < frames[i].sequenceId
  }

  ghost predicate AllCounted(s: State, frames: seq<Frame>) {
    && s.processed == |frames| && !ClonesDegraded(s)
    && (frames == [] ==> s.gaps == 0)
    && (frames != [] ==>
      var first, last := frames[0].sequenceId, frames[|frames| - 1].sequenceId;
      && s.expected == Word(last + 1)
      && last + 1 == first + |frames| + s.gaps)
  }

  /** Frames with increasing ids are all accepted, and the gap count is exactly the number of ids
      skipped between the first and the last. */
  lemma {:induction false} IncreasingAllCounted(frames: seq<Frame>, cfg: Config)
    requires FramesIncrease(frames) && |frames| < WORD
    ensures AllCounted(CleanRun(frames, cfg), frames)
  {
    if frames != [] {
      var n := |frames| - 1;
      var s := CleanRun(frames[..n], cfg);
      IncreasingAllCounted(frames[..n], cfg);
      CleanSnoc(frames, cfg);
      IncreasingStep(s, frames[..n], frames[n], cfg);
      assert frames == frames[..n] + [frames[n]];
    }
  }

  lemma IncreasingStep(s: State, frames: seq<Frame>, f: Frame, cfg: Config)
    requires AllCounted(s, frames) && |frames| + 1 < WORD
    requires f.sequenceId < WORD
    requires frames != [] ==> frames[|frames| - 1].sequenceId < f.sequenceId
    ensures AllCounted(NextState(s, f, cfg, false), frames + [f])
  {
    hide Word;
    SmallWord(s.processed + 1);
    if frames != [] {
      SmallWord(frames[|frames| - 1].sequenceId + 1);
      SmallWord(s.gaps + (f.sequenceId - s.expected));
    }
  }

  // ---------- Channel and evaluator together ----------

  function Refusals(offered: seq<(Frame, bool)>): nat {
    if offered == [] then 0
    else Refusals(offered[..|offered| - 1]) + if offered[|offered| - 1].1 then 0 else 1
  }

  lemma {:induction false} RefusalsAdd(a: seq<(Frame, bool)>, b: seq<(Frame, bool)>)
    ensures Refusals(a + b) == Refusals(a) + Refusals(b)
  {
    if b == [] {
      assert a + b == a;
    } else {
      assert (a + b)[..|a + b| - 1] == a + b[..|b| - 1];
      RefusalsAdd(a, b[..|b| - 1]);
    }
  }

  lemma {:induction false} RefusalsAtMost(offered: seq<(Frame, bool)>)
    ensures Refusals(offered) <= |offered|
    ensures (forall i :: 0 <= i < |offered| ==> !offered[i].1) ==> Refusals(offered) == |offered|
  {
    if offered != [] {
      RefusalsAtMost(offered[..|offered| - 1]);
    }
  }

  /** Where the accepted offers stand. */
  function Places(offered: seq<(Frame, bool)>): (places: seq<nat>)
    ensures |places| == |Accepted(offered)|
    ensures forall j :: 0 <= j < |places| ==> places[j] < |offered|
  {
    if offered == [] then []
    else
      var n := |offered| - 1;
      Places(offered[..n]) + if offered[n].1 then [n] else []
  }

  /** The place of the j-th accepted offer, and none accepted between it and the next. */
  ghost predicate PlaceOk(offered: seq<(Frame, bool)>, places: seq<nat>, j: nat)
    requires j < |places|
  {
    && places[j] < |offered| && offered[places[j]].1
    && (j + 1 < |places| ==>
      && places[j] < places[j + 1] <= |offered|
      && forall t :: places[j] < t < places[j + 1] ==> !offered[t].1)
    && (j + 1 == |places| ==> forall t :: places[j] < t < |offered| ==> !offered[t].1)
  }

  ghost predicate PlacesOk(offered: seq<(Frame, bool)>, places: seq<nat>) {
    && |places| == |Accepted(offered)|
    && (forall j :: 0 <= j < |places| ==> PlaceOk(offered, places, j))
    && (forall j :: 0 <= j < |places| ==>
          places[j] < |offered| && Accepted(offered)[j] == offered[places[j]].0)
    && (places == [] ==> forall t :: 0 <= t < |offered| ==> !offered[t].1)
  }

  lemma PlaceStaysOk(offered: seq<(Frame, bool)>, n: nat, before: seq<nat>, j: nat)
    requires |offered| == n + 1 && j < |before| && PlaceOk(offered[..n], before, j)
    ensures PlaceOk(offered, before + if offered[n].1 then [n] else [], j)
  {
    assert forall t :: 0 <= t < n ==> offered[..n][t] == offered[t];
  }

  lemma PlacesStep(offered: seq<(Frame, bool)>, n: nat, before: seq<nat>)
    requires |offered| == n + 1 && PlacesOk(offered[..n], before)
    ensures PlacesOk(offered, before + if offered[n].1 then [n] else [])
  {
    hide PlaceOk, Places;
    var places := before + if offered[n].1 then [n] else [];
    forall j | 0 <= j < |places| ensures PlaceOk(offered, places, j) {
      if j < |before| {
        PlaceStaysOk(offered, n, before, j);
      } else {
        NewPlaceOk(offered, n, before);
      }
    }
    assert forall t :: 0 <= t < n ==> offered[..n][t] == offered[t];
  }

  lemma NewPlaceOk(offered: seq<(Frame, bool)>, n: nat, before: seq<nat>)
    requires |offered| == n + 1 && offered[n].1
    ensures PlaceOk(offered, before + [n], |before|)
  {
  }

  lemma {:induction false} PlacesAreOk(offered: seq<(Frame, bool)>)
    ensures PlacesOk(offered, Places(offered))
  {
    if offered != [] {
      PlacesAreOk(offered[..|offered| - 1]);
      PlacesStep(offered, |offered| - 1, Places(offered[..|offered| - 1]));
    }
  }

  /** The producer numbers its frames with consecutive 64-bit words. */
  ghost predicate Numbered(offered: seq<(Frame, bool)>, start: nat) {
    forall i :: 0 <= i < |offered| ==> offered[i].0.sequenceId == Word(start + i)
  }

  /** No frame numbered 2^64 - 1 was refused between two offers. */
  ghost predicate NoLostMax(offered: seq<(Frame, bool)>, first: nat, last: nat)
    requires last <= |offered|
  {
    forall t :: first < t < last && offered[t].0.sequenceId == MAX_WORD ==> offered[t].1
  }

  /** The sequence fields after the first popped frames, none rejected so far. */
  ghost predicate Tracked(s: State, offered: seq<(Frame, bool)>, start: nat, first: nat, last: nat, popped: nat)
    requires first <= last < |offered|
  {
    && s.processed == popped && s.expected == Word(start + last + 1)
    && s.gaps == Refusals(offered[first..last + 1])
  }

  lemma SliceGrows(offered: seq<(Frame, bool)>, first: nat, last: nat, next: nat)
    requires first <= last < next < |offered| && offered[next].1 && forall t :: last < t < next ==> !offered[t].1
    ensures Refusals(offered[first..next + 1]) == Refusals(offered[first..last + 1]) + (next - last - 1)
  {
    var a, b := offered[first..last + 1], offered[last + 1..next];
    assert offered[first..next] == a + b;
    assert offered[first..next + 1][..next - first] == offered[first..next];
    RefusalsAdd(a, b);
    RefusalsAtMost(b);
  }

  lemma NextNumber(offered: seq<(Frame, bool)>, start: nat, last: nat, next: nat)
    requires Numbered(offered, start) && last < next < |offered| < WORD
    requires forall t :: last < t < next ==> !offered[t].1
    ensures var id, expected := offered[next].0.sequenceId, Word(start + last + 1);
      if NoLostMax(offered, last, next) then id == expected + (next - last - 1) else id < expected
  {
    if NoLostMax(offered, last, next) {
      forall x | start + last + 1 <= x < start + next ensures Word(x) != MAX_WORD {
        assert offered[x - start].0.sequenceId == Word(start + (x - start));
      }
      NoWrapBetween(start + last + 1, start + next);
    } else {
      var t :| last < t < next && offered[t].0.sequenceId == MAX_WORD && !offered[t].1;
      WrapBetween(start + last + 1, start + t, start + next);
    }
  }

  lemma NextTracked(s: State, offered: seq<(Frame, bool)>, start: nat, first: nat, last: nat, next: nat, n: nat,
                    cfg: Config)
    requires Numbered(offered, start) && first <= last < next < |offered| < WORD && 0 < n < |offered|
    requires offered[next].1 && forall t :: last < t < next ==> !offered[t].1
    requires !ClonesDegraded(s) && Tracked(s, offered, start, first, last, n)
    ensures var s' := NextState(s, offered[next].0, cfg, false);
      && !ClonesDegraded(s')
      && if NoLostMax(offered, last, next) then Tracked(s', offered, start, first, next, n + 1) else s'.processed == n
  {
    hide Word;
    var f := offered[next].0;
    NextNumber(offered, start, last, next);
    if NoLostMax(offered, last, next) {
      AcceptedFields(s, f, cfg);
      SmallWord(n + 1);
      WordAdd(1, start + next);
      SliceGrows(offered, first, last, next);
      RefusalsAtMost(offered[first..next + 1]);
      SmallWord(Refusals(offered[first..next + 1]));
    }
  }

  lemma FirstTracked(offered: seq<(Frame, bool)>, start: nat, first: nat, cfg: Config)
    requires Numbered(offered, start) && first < |offered| && offered[first].1
    ensures var s := CleanRun([offered[first].0], cfg);
      !ClonesDegraded(s) && Tracked(s, offered, start, first, first, 1) && NoLostMax(offered, first, first)
  {
    hide Word;
    var f := offered[first].0;
    CleanSnoc([f], cfg);
    assert CleanRun([f][..0], cfg) == FRESH;
    AcceptedFields(FRESH, f, cfg);
    SmallWord(1);
    WordAdd(1, start + first);
    assert offered[first..first + 1] == [offered[first]];
    assert Refusals([offered[first]]) == 0;
  }

  lemma NoLostMaxSplits(offered: seq<(Frame, bool)>, first: nat, last: nat, next: nat)
    requires first <= last < next <= |offered| && offered[last].1
    ensures NoLostMax(offered, first, next) <==> NoLostMax(offered, first, last) && NoLostMax(offered, last, next)
  {
  }

  lemma ProcessedAtMostOne(s: State, f: Frame, cfg: Config)
    requires !ClonesDegraded(s)
    ensures !ClonesDegraded(NextState(s, f, cfg, false))
    ensures NextState(s, f, cfg, false).processed <= s.processed + 1
  {
  }

  /** As long as no refused frame carried 2^64 - 1 every popped frame is processed; afterwards some
      are not. */
  lemma {:induction false} PoppedTracked(offered: seq<(Frame, bool)>, popped: seq<Frame>, start: nat, cfg: Config)
    requires Numbered(offered, start) && |offered| < WORD && popped != [] && popped <= Accepted(offered)
    ensures var s, first, last := CleanRun(popped, cfg), Places(offered)[0], Places(offered)[|popped| - 1];
      && first <= last && |popped| <= |offered| && !ClonesDegraded(s)
      && if NoLostMax(offered, first, last) then Tracked(s, offered, start, first, last, |popped|)
         else s.processed < |popped|
    decreases |popped|
  {
    hide Tracked, NoLostMax, Numbered;
    var places, n := Places(offered), |popped| - 1;
    PlacesAreOk(offered);
    AcceptedLength(offered);
    assert PlaceOk(offered, places, n);
    assert popped[n] == offered[places[n]].0;
    if n == 0 {
      assert popped == [popped[0]];
      FirstTracked(offered, start, places[0], cfg);
    } else {
      assert PlaceOk(offered, places, n - 1);
      PoppedTracked(offered, popped[..n], start, cfg);
      CleanSnoc(popped, cfg);
      var s := CleanRun(popped[..n], cfg);
      NoLostMaxSplits(offered, places[0], places[n - 1], places[n]);
      ProcessedAtMostOne(s, popped[n], cfg);
      if NoLostMax(offered, places[0], places[n - 1]) {
        NextTracked(s, offered, start, places[0], places[n - 1], places[n], n, cfg);
      }
    }
  }

  lemma {:induction false} AcceptedLength(offered: seq<(Frame, bool)>)
    ensures |Accepted(offered)| <= |offered|
  {
    if offered != [] {
      AcceptedLength(offered[..|offered| - 1]);
    }
  }

  /** Every consumed frame was processed, and the gaps are the refused offers between the first and
      the last consumed one. */
  ghost predicate GapsExplained(offered: seq<(Frame, bool)>, popped: seq<Frame>, w: State)
    requires popped != [] && popped <= Accepted(offered)
  {
    var first, last := Places(offered)[0], Places(offered)[|popped| - 1];
    first <= last && w.processed == |popped| && w.gaps == Refusals(offered[first..last + 1])
  }

  /** No frame numbered 2^64 - 1 was refused between the first and the last consumed one. */
  ghost predicate MaxNotLost(offered: seq<(Frame, bool)>, popped: seq<Frame>)
    requires popped != [] && popped <= Accepted(offered)
  {
    NoLostMax(offered, Places(offered)[0], Places(offered)[|popped| - 1])
  }

  /** What the evaluator makes of any consumed part of the accepted frames, numbered consecutively
      with wrap-around: nothing is rejected and the gap count is the number of frames refused in
      between, exactly when no refused one of them carried 2^64 - 1; after such a loss a consumed
      frame is rejected. */
  lemma GapsAreRefusalsOf(offered: seq<(Frame, bool)>, popped: seq<Frame>, start: nat, cfg: Config)
    requires Numbered(offered, start) && |offered| < WORD && popped != [] && popped <= Accepted(offered)
    ensures GapsExplained(offered, popped, CleanRun(popped, cfg)) <==> MaxNotLost(offered, popped)
  {
    PoppedTracked(offered, popped, start, cfg);
  }

  /** A producer whose numbers stay below 2^64 - 1 before its last frame cannot lose that one. */
  lemma ShortNumbering(offered: seq<(Frame, bool)>, popped: seq<Frame>, start: nat)
    requires Numbered(offered, start) && start + |offered| <= WORD && popped != [] && popped <= Accepted(offered)
    ensures MaxNotLost(offered, popped)
  {
    hide Word, Accepted, Places;
    forall t | 0 <= t < |offered| - 1 ensures offered[t].0.sequenceId != MAX_WORD {
      SmallWord(start + t);
    }
  }

  /** The producer numbers its frames with consecutive words, some are refused by a full ring, the
      consumer evaluates what it pops, under any schedule. */
  lemma GapsAreRefusals(cells: seq<Frame>, es: seq<Event<Frame>>, start: nat, cfg: Config)
    requires |cells| == WAVE_CAPACITY
    requires var s := Exec(WAVE, Start(cells), es);
      Numbered(s.offered, start) && |s.offered| < WORD && s.popped != []
    ensures var s := Exec(WAVE, Start(cells), es);
      && s.popped <= Accepted(s.offered)
      && (GapsExplained(s.offered, s.popped, CleanRun(s.popped, cfg)) <==> MaxNotLost(s.offered, s.popped))
  {
    var s := Exec(WAVE, Start(cells), es);
    Fifo(WAVE, cells, es);
    GapsAreRefusalsOf(s.offered, s.popped, start, cfg);
  }
}
