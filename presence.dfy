/** The presence logic shared by the two prover screens
    (ios/DataLogger/ProverApp/AttendanceView.swift and ios/DataLogger/ProverApp/ContentView.swift):
    the sliding motion window, the window classifier's control flow, the two-slot hysteresis,
    the majority votes, the beacon gates and the sampling timers. */
module Presence {
  import opened Common

  /** One device-motion sample: user acceleration x, y, z and rotation rate x, y, z. */
  type Row = seq<real>

  const WindowSize: nat := 100
  const HopSize: nat := 50
  /** Seconds without a fresh beacon nonce until the screen shows "OUT OF RANGE". */
  const RangeThreshold: real := 35.0

  const IdleText := "Idle"
  const CapturingText := "Capturing…"
  const MotionUnavailableText := "Motion unavailable"
  const ErrorText := "Error"
  const WithUserText := "WITH USER"
  const LeftBehindText := "LEFT BEHIND"
  const GeneratingProofText := "Generating proof…"
  const ConfirmedText := "✅ Attendance confirmed!"
  const AbsentText := "❌ Attendance absent"

  // ---------------------------------------------------------------------------
  // Sliding window

  function Min(a: nat, b: nat): nat {
    if a < b then a else b
  }

  /** The buffer a sequence of rows leaves behind: its last `WindowSize` rows, in order. */
  function Recent(xs: seq<Row>): (r: seq<Row>)
    ensures |r| == Min(|xs|, WindowSize)
    ensures r == xs[|xs| - |r|..]
  {
    if |xs| > WindowSize then xs[|xs| - WindowSize..] else xs
  }

  /** One step of the motion callback on the buffer: append, then drop the oldest rows
      beyond the window. */
  function Slide(buffer: seq<Row>, row: Row): (r: seq<Row>)
    ensures |r| == Min(|buffer| + 1, WindowSize)
    ensures r == (buffer + [row])[|buffer| + 1 - |r|..]
  {
    var b := buffer + [row];
    if |b| > WindowSize then b[|b| - WindowSize..] else b
  }

  /** Appending and trimming row by row keeps exactly the most recent rows. */
  lemma SlideRecent(xs: seq<Row>, row: Row)
    ensures Slide(Recent(xs), row) == Recent(xs + [row])
  {
    var ys := xs + [row];
    if |xs| > WindowSize {
      var b := Recent(xs) + [row];
      assert |b| == WindowSize + 1;
      assert b[|b| - WindowSize..] == ys[|ys| - WindowSize..];
    }
  }

  /** The hop trigger: a classification runs when the sample counter is a multiple of the
      hop and the buffer is full. */
  predicate ClassifyDue(sampleCount: nat, bufferLength: nat) {
    sampleCount % HopSize == 0 && bufferLength == WindowSize
  }

  /** Since a capture began, the first classification is at sample 100 and then one every
      50 samples. */
  lemma ClassifySchedule(xs: seq<Row>)
    ensures ClassifyDue(|xs|, |Recent(xs)|) <==> |xs| >= WindowSize && |xs| % HopSize == 0
  {
  }

  // ---------------------------------------------------------------------------
  // Window classification

  /** What a classification produces: a label to push, or the RF error path. */
  datatype WindowOutcome = Label(withUser: bool) | ClassifierError

  /** The control flow of `classifyWindow`: `gate` is the variance-ratio test (ratio at least
      5) and `rf` the random forest, `None` when its prediction throws. */
  function Classify<W>(gate: W -> bool, rf: W -> Option<bool>, w: W): (r: WindowOutcome)
    ensures !gate(w) ==> r == Label(false)
    ensures r == ClassifierError <==> gate(w) && rf(w).None?
    ensures gate(w) && rf(w).Some? ==> r == Label(rf(w).value)
  {
    if !gate(w) then Label(false)
    else match rf(w)
      case None => ClassifierError
      case Some(isWith) => Label(isWith)
  }

  /** A failed ratio gate pushes "not with user" without consulting the forest. */
  lemma GateFailureSkipsForest<W>(gate: W -> bool, rf1: W -> Option<bool>, rf2: W -> Option<bool>, w: W)
    requires !gate(w)
    ensures Classify(gate, rf1, w) == Classify(gate, rf2, w) == Label(false)
  {
  }

  // ---------------------------------------------------------------------------
  // Two-slot hysteresis

  /** `pushResult` on `lastResults`: drop the oldest slot, append the newest label. */
  function Push(h: seq<bool>, isWith: bool): (r: seq<bool>)
    requires |h| == 2
    ensures |r| == 2 && r[0] == h[1] && r[1] == isWith
  {
    h[1..] + [isWith]
  }

  /** The smoothed state: with the user unless both slots say otherwise. */
  predicate Smoothed(h: seq<bool>)
    requires |h| == 2
  {
    !(h[0] == false && h[1] == false)
  }

  function StateText(h: seq<bool>): (t: string)
    requires |h| == 2
    ensures t == LeftBehindText <==> !h[0] && !h[1]
    ensures t == WithUserText <==> Smoothed(h)
  {
    if h[0] == false && h[1] == false then LeftBehindText else WithUserText
  }

  /** The history after a sequence of labels. */
  function PushAll(h: seq<bool>, labels: seq<bool>): (r: seq<bool>)
    requires |h| == 2
    ensures |r| == 2
  {
    if labels == [] then h else Push(PushAll(h, labels[..|labels| - 1]), labels[|labels| - 1])
  }

  /** The history is always the last two entries of the initial slots followed by every
      label pushed since. */
  lemma {:induction false} PushAllLastTwo(h: seq<bool>, labels: seq<bool>)
    requires |h| == 2
    ensures PushAll(h, labels) == (h + labels)[|labels|..]
  {
    if labels != [] {
      var init := labels[..|labels| - 1];
      PushAllLastTwo(h, init);
      assert h + labels == (h + init) + [labels[|labels| - 1]];
    }
  }

  /** From a fresh capture (`[true, true]`), "LEFT BEHIND" shows exactly when the last two
      labels were both false. */
  lemma LeftBehindIffTwoFalse(labels: seq<bool>)
    ensures StateText(PushAll([true, true], labels)) == LeftBehindText <==>
      |labels| >= 2 && !labels[|labels| - 1] && !labels[|labels| - 2]
  {
    PushAllLastTwo([true, true], labels);
    var all := [true, true] + labels;
    assert all[|labels|] == all[|all| - 2] && all[|labels| + 1] == all[|all| - 1];
    if |labels| >= 2 {
      assert all[|all| - 1] == labels[|labels| - 1] && all[|all| - 2] == labels[|labels| - 2];
    }
  }

  /** A single negative label after a positive one never produces "LEFT BEHIND". */
  lemma SingleFalseTolerated(h: seq<bool>)
    requires |h| == 2 && h[1]
    ensures StateText(Push(h, false)) == WithUserText
  {
  }

  /** A single positive label always restores "WITH USER". */
  lemma SingleTrueRestores(h: seq<bool>)
    requires |h| == 2
    ensures StateText(Push(h, true)) == WithUserText
  {
  }

  // ---------------------------------------------------------------------------
  // Majority votes

  /** `filter { $0 }.count`. */
  function CountTrue(s: seq<bool>): (n: nat)
    ensures n <= |s|
  {
    if s == [] then 0 else CountTrue(s[..|s| - 1]) + (if s[|s| - 1] then 1 else 0)
  }

  /** The count is the multiplicity of `true`, and the rest of the entries are `false`. */
  lemma {:induction false} CountTrueMultiset(s: seq<bool>)
    ensures CountTrue(s) == multiset(s)[true]
    ensures |s| - CountTrue(s) == multiset(s)[false]
  {
    if s != [] {
      var init := s[..|s| - 1];
      CountTrueMultiset(init);
      assert s == init + [s[|s| - 1]];
      assert multiset(s) == multiset(init) + multiset{s[|s| - 1]};
    }
  }

  /** `present > absent` with `absent = count - present`. */
  predicate Majority(s: seq<bool>) {
    CountTrue(s) > |s| - CountTrue(s)
  }

  /** Strict majority: true entries must outnumber false ones, so ties and the empty
      sequence give false. */
  lemma MajorityIff(s: seq<bool>)
    ensures Majority(s) <==> multiset(s)[true] > multiset(s)[false]
    ensures multiset(s)[true] == multiset(s)[false] ==> !Majority(s)
  {
    CountTrueMultiset(s);
  }

  /** The vote depends only on how many entries of each kind there are, not their order. */
  lemma MajorityPermutation(a: seq<bool>, b: seq<bool>)
    requires multiset(a) == multiset(b)
    ensures Majority(a) == Majority(b)
  {
    MajorityIff(a);
    MajorityIff(b);
  }

  /** The final attendance text. */
  function Verdict(samples: seq<bool>): (t: string)
    ensures t == ConfirmedText <==> multiset(samples)[true] > multiset(samples)[false]
    ensures t == AbsentText <==> multiset(samples)[true] <= multiset(samples)[false]
  {
    MajorityIff(samples);
    if Majority(samples) then ConfirmedText else AbsentText
  }

  /** Samples that are all "absent" always give the absent verdict. */
  lemma AllAbsentVerdict(samples: seq<bool>)
    requires forall i | 0 <= i < |samples| :: !samples[i]
    ensures Verdict(samples) == AbsentText
  {
    assert true !in multiset(samples);
  }

  // ---------------------------------------------------------------------------
  // Beacon gates

  /** A fresh beacon nonce triggers a proof only while the smoothed state is "WITH USER"
      and the nonce differs from the last one sent. */
  predicate ProofGate(resultText: string, lastSent: Option<Nonce>, nonce: Nonce) {
    resultText == WithUserText && lastSent != Some(nonce)
  }

  /** Once a nonce has been sent, the same nonce never triggers a second proof. */
  lemma NoSecondProof(text: string, lastSent: Option<Nonce>, nonce: Nonce, laterText: string)
    requires ProofGate(text, lastSent, nonce)
    ensures !ProofGate(laterText, Some(nonce), nonce)
    ensures laterText == WithUserText ==> forall other: Nonce | other != nonce :: ProofGate(laterText, Some(nonce), other)
  {
  }

  /** The range flag: more than 35 s since the last fresh beacon. */
  predicate OutOfRange(elapsed: real) {
    elapsed > RangeThreshold
  }

  // ---------------------------------------------------------------------------
  // Sampling timers

  /** The timers `startSampling` sets up, as values: `pendingFirst` counts the first-sample
      closures queued with `asyncAfter` (which cannot be cancelled), `repeating` and
      `oneShot` hold the ids of the live 20 s and 180 s timers, `samplingRef` and
      `attendanceRef` the ids stored in `samplingTimer` and `attendanceTimer`, and `next`
      the id the next timer gets. */
  datatype Schedule = Schedule(pendingFirst: nat, repeating: set<nat>, oneShot: set<nat>,
                               samplingRef: Option<nat>, attendanceRef: Option<nat>, next: nat)

  function RefSet(r: Option<nat>): set<nat> {
    if r.Some? then {r.value} else {}
  }

  /** Every live 180 s timer is the one `attendanceTimer` refers to, and ids are fresh. */
  ghost predicate ScheduleOk(s: Schedule) {
    s.oneShot <= RefSet(s.attendanceRef) &&
    (forall id | id in s.repeating :: id < s.next) &&
    (s.samplingRef.Some? ==> s.samplingRef.value < s.next) &&
    (s.attendanceRef.Some? ==> s.attendanceRef.value < s.next)
  }

  const NoTimers := Schedule(0, {}, {}, None, None, 0)

  /** `startSampling`: invalidate both stored timers, queue the first-sample closure and
      start a new 180 s timer. */
  function Restart(s: Schedule): Schedule {
    Schedule(s.pendingFirst + 1, s.repeating - RefSet(s.samplingRef), {s.next},
             s.samplingRef, Some(s.next), s.next + 1)
  }

  /** The first-sample closure: a new 20 s timer replaces the stored one, which is not
      invalidated. */
  function FirstSampleRan(s: Schedule): Schedule
    requires s.pendingFirst > 0
  {
    Schedule(s.pendingFirst - 1, s.repeating + {s.next}, s.oneShot,
             Some(s.next), s.attendanceRef, s.next + 1)
  }

  /** The 180 s timer fires once and invalidates the stored 20 s timer. */
  function AttendanceRan(s: Schedule, id: nat): Schedule
    requires id in s.oneShot
  {
    Schedule(s.pendingFirst, s.repeating - RefSet(s.samplingRef), s.oneShot - {id},
             s.samplingRef, s.attendanceRef, s.next)
  }

  /** Each timer step keeps the schedule well formed, and after a restart exactly one
      180 s timer is live. */
  lemma ScheduleSteps(s: Schedule, id: nat)
    requires ScheduleOk(s)
    ensures ScheduleOk(Restart(s)) && Restart(s).oneShot == {s.next}
    ensures s.pendingFirst > 0 ==> ScheduleOk(FirstSampleRan(s))
    ensures id in s.oneShot ==> ScheduleOk(AttendanceRan(s, id)) && AttendanceRan(s, id).oneShot == {}
  {
  }

  /** One press of the button, left alone: once the verdict is made no sampling timer is
      left running. */
  lemma SingleRunStops(s: Schedule)
    requires ScheduleOk(s) && s.pendingFirst == 0 && s.repeating <= RefSet(s.samplingRef)
    ensures s.next in Restart(s).oneShot
    ensures FirstSampleRan(Restart(s)).oneShot == {s.next}
    ensures AttendanceRan(FirstSampleRan(Restart(s)), s.next).repeating == {}
  {
  }

  /** Two presses within the 5 s first-sample delay: both queued closures run, the second
      overwrites the first one's 20 s timer without invalidating it, and that timer keeps
      sampling after the verdict. */
  lemma OrphanSamplingTimer()
    ensures var s := FirstSampleRan(FirstSampleRan(Restart(Restart(NoTimers))));
      2 in s.repeating && 3 in s.repeating && s.oneShot == {1} &&
      AttendanceRan(s, 1).repeating == {2}
  {
    var s := FirstSampleRan(FirstSampleRan(Restart(Restart(NoTimers))));
    assert s.repeating == {2, 3} && s.samplingRef == Some(3);
  }
}
