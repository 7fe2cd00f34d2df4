/** The live attendance screen (ios/DataLogger/ProverApp/AttendanceView.swift). Its `@State`
    properties become the fields of `AttendanceView`; the motion callback, the classifier,
    the beacon and range publishers and the timers become methods called in the order the
    run loop would deliver them. */
module AttendanceScreen {
  import opened Common
  import opened Presence

  class AttendanceView {
    /** `CMMotionManager.isDeviceMotionAvailable`, fixed for the device. */
    const motionAvailable: bool
    /** The variance-ratio gate of `classifyWindow` over a full window. */
    const gate: seq<Row> -> bool
    /** The `PresenceRF` prediction over a full window, `None` when it throws. */
    const rf: seq<Row> -> Option<bool>

    /** Whether the motion handler is installed. */
    var capturing: bool
    var buffer: seq<Row>
    var sampleCount: nat
    var resultText: string
    var lastResults: seq<bool>
    var instantStates: seq<bool>
    /** Every row delivered since the capture was (re)started. */
    ghost var ingested: seq<Row>

    var lastSentNonce: Option<Nonce>
    var proofResult: string
    /** The nonces handed to `generateAndSendProof`, whose body is empty. */
    var proofRequests: seq<Nonce>
    var lastBeaconTime: real
    var outOfRange: bool

    var samples: seq<bool>
    var finalText: string
    /** The statuses passed to `session.recordAttendance`. */
    var recorded: seq<string>
    var schedule: Schedule

    /** The buffer holds the most recent rows of the capture, the counter counts all of
        them, the history has two slots, and nothing is captured without motion hardware. */
    ghost predicate Valid()
      reads this
    {
      |lastResults| == 2 &&
      buffer == Recent(ingested) && sampleCount == |ingested| &&
      (capturing ==> motionAvailable) &&
      ScheduleOk(schedule)
    }

    /** The effect of one `classifyWindow` on window `w`, from history `h0` and recorded
        states `states0`. */
    ghost predicate Classified(h0: seq<bool>, states0: seq<bool>, w: seq<Row>)
      requires |h0| == 2
      reads this
    {
      match Classify(gate, rf, w)
      case ClassifierError =>
        resultText == ErrorText && lastResults == h0 && instantStates == states0
      case Label(isWith) =>
        lastResults == Push(h0, isWith) && resultText == StateText(lastResults) &&
        instantStates == states0 + [Smoothed(lastResults)]
    }

    /** The view as it is first shown; `now` is the `Date()` `lastBeaconTime` starts at. */
    constructor (motionAvailable: bool, gate: seq<Row> -> bool, rf: seq<Row> -> Option<bool>, now: real)
      ensures Valid()
      ensures this.motionAvailable == motionAvailable && this.gate == gate && this.rf == rf
      ensures !capturing && buffer == [] && sampleCount == 0 && resultText == IdleText
      ensures lastResults == [true, true] && instantStates == []
      ensures lastSentNonce == None && proofResult == "" && proofRequests == []
      ensures lastBeaconTime == now && !outOfRange
      ensures samples == [] && finalText == "" && recorded == [] && schedule == NoTimers
    {
      this.motionAvailable, this.gate, this.rf := motionAvailable, gate, rf;
      capturing, buffer, sampleCount, resultText := false, [], 0, IdleText;
      lastResults, instantStates, ingested := [true, true], [], [];
      lastSentNonce, proofResult, proofRequests := None, "", [];
      lastBeaconTime, outOfRange := now, false;
      samples, finalText, recorded, schedule := [], "", [], NoTimers;
    }

    /** `startContinuousCapture`: reset the window, the counter, the history and the
        recorded states, then install the motion handler if the hardware has one. */
    method StartContinuousCapture()
      requires Valid()
      modifies this`capturing, this`buffer, this`sampleCount, this`lastResults, this`resultText,
        this`instantStates, this`ingested
      ensures Valid()
      ensures buffer == [] && sampleCount == 0 && lastResults == [true, true] && instantStates == []
      ensures ingested == []
      ensures capturing == motionAvailable
      ensures resultText == if motionAvailable then CapturingText else MotionUnavailableText
    {
      buffer := [];
      ingested := [];
      sampleCount := 0;
      lastResults := [true, true];
      resultText := CapturingText;
      instantStates := [];
      if !motionAvailable {
        resultText := MotionUnavailableText;
        return;
      }
      capturing := true;
    }

    /** The motion handler, called with the update's `data`: append the row, trim the
        buffer to the window and classify on every hop once the buffer is full. */
    method MotionUpdate(data: Option<Row>)
      requires Valid()
      modifies this`buffer, this`sampleCount, this`ingested, this`lastResults, this`resultText,
        this`instantStates
      ensures Valid()
      ensures !capturing || data.None? ==> unchanged(this)
      ensures !motionAvailable ==> unchanged(this)
      ensures capturing && data.Some? ==>
        ingested == old(ingested) + [data.value] && sampleCount == old(sampleCount) + 1 &&
        |buffer| <= WindowSize && buffer == Slide(old(buffer), data.value)
      ensures capturing && data.Some? && ClassifyDue(sampleCount, |buffer|) ==>
        Classified(old(lastResults), old(instantStates), buffer)
      ensures capturing && data.Some? && !ClassifyDue(sampleCount, |buffer|) ==>
        lastResults == old(lastResults) && resultText == old(resultText) &&
        instantStates == old(instantStates)
    {
      if !capturing || data.None? {
        return;
      }
      var row := data.value;
      SlideRecent(ingested, row);
      ingested := ingested + [row];
      buffer := buffer + [row];
      sampleCount := sampleCount + 1;
      if |buffer| > WindowSize {
        buffer := buffer[|buffer| - WindowSize..];
      }
      if sampleCount % HopSize == 0 && |buffer| == WindowSize {
        ClassifyWindow();
      }
    }

    /** `classifyWindow`: a failed ratio gate pushes false, a forest error shows "Error"
        and pushes nothing, otherwise the forest's label is pushed. */
    method ClassifyWindow()
      requires |lastResults| == 2
      modifies this`lastResults, this`resultText, this`instantStates
      ensures |lastResults| == 2
      ensures Classified(old(lastResults), old(instantStates), buffer)
    {
      if !gate(buffer) {
        PushResult(false);
        return;
      }
      var out := rf(buffer);
      match out
      case Some(isWith) =>
        PushResult(isWith);
      case None =>
        resultText := ErrorText;
    }

    /** `pushResult`: shift the label into the history, show the smoothed state and record
        it for the next sample. */
    method PushResult(isWith: bool)
      requires |lastResults| == 2
      modifies this`lastResults, this`resultText, this`instantStates
      ensures lastResults == Push(old(lastResults), isWith)
      ensures resultText == StateText(lastResults)
      ensures instantStates == old(instantStates) + [Smoothed(lastResults)]
    {
      lastResults := lastResults[1..];
      lastResults := lastResults + [isWith];
      resultText := if lastResults[0] == false && lastResults[1] == false then LeftBehindText else WithUserText;
      instantStates := instantStates + [resultText == WithUserText];
    }

    /** `sampleOnce`: one strict-majority sample of the recorded states, which are then
        cleared. */
    method SampleOnce()
      modifies this`samples, this`instantStates
      ensures samples == old(samples) + [Majority(old(instantStates))]
      ensures instantStates == []
    {
      var presentCount := CountTrue(instantStates);
      var absentCount := |instantStates| - presentCount;
      var sampleIsPresent := presentCount > absentCount;
      samples := samples + [sampleIsPresent];
      instantStates := [];
    }

    /** `startSampling`: clear the samples and the verdict and restart the timers. */
    method StartSampling()
      requires Valid()
      modifies this`samples, this`finalText, this`schedule
      ensures Valid()
      ensures samples == [] && finalText == ""
      ensures schedule == Restart(old(schedule)) && schedule.oneShot == {old(schedule).next}
    {
      ScheduleSteps(schedule, 0);
      samples := [];
      finalText := "";
      schedule := Restart(schedule);
    }

    /** The `asyncAfter` closure, 5 s after `startSampling`: the first sample, then a new
        repeating 20 s timer. */
    method FirstSampleFires()
      requires Valid() && schedule.pendingFirst > 0
      modifies this`samples, this`instantStates, this`schedule
      ensures Valid()
      ensures samples == old(samples) + [Majority(old(instantStates))] && instantStates == []
      ensures schedule == FirstSampleRan(old(schedule))
    {
      ScheduleSteps(schedule, 0);
      SampleOnce();
      schedule := FirstSampleRan(schedule);
    }

    /** A live 20 s timer fires. */
    method SamplingTimerFires(id: nat)
      requires Valid() && id in schedule.repeating
      modifies this`samples, this`instantStates
      ensures Valid()
      ensures samples == old(samples) + [Majority(old(instantStates))] && instantStates == []
    {
      SampleOnce();
    }

    /** The 180 s timer fires: stop sampling, show the strict-majority verdict and record it
        once. */
    method AttendanceTimerFires(id: nat)
      requires Valid() && id in schedule.oneShot
      modifies this`schedule, this`finalText, this`recorded
      ensures Valid()
      ensures finalText == Verdict(samples)
      ensures recorded == old(recorded) + [finalText]
      ensures schedule == AttendanceRan(old(schedule), id) && schedule.oneShot == {}
    {
      ScheduleSteps(schedule, id);
      schedule := AttendanceRan(schedule, id);
      var presentCount := CountTrue(samples);
      var absentCount := |samples| - presentCount;
      var result := if presentCount > absentCount then ConfirmedText else AbsentText;
      finalText := result;
      recorded := recorded + [result];
    }

    /** The scanner's `noncePublisher` delivers a fresh nonce at time `now`. */
    method OnNonce(nonce: Nonce, now: real)
      modifies this`lastBeaconTime, this`lastSentNonce, this`proofResult, this`proofRequests
      ensures lastBeaconTime == now
      ensures ProofGate(resultText, old(lastSentNonce), nonce) ==>
        lastSentNonce == Some(nonce) && proofResult == GeneratingProofText &&
        proofRequests == old(proofRequests) + [nonce]
      ensures !ProofGate(resultText, old(lastSentNonce), nonce) ==>
        lastSentNonce == old(lastSentNonce) && proofResult == old(proofResult) &&
        proofRequests == old(proofRequests)
    {
      lastBeaconTime := now;
      if !(resultText == WithUserText && Some(nonce) != lastSentNonce) {
        return;
      }
      lastSentNonce := Some(nonce);
      proofResult := GeneratingProofText;
      proofRequests := proofRequests + [nonce];
    }

    /** The 1 s range timer fires at time `now`. */
    method RangeTick(now: real)
      modifies this`outOfRange
      ensures outOfRange == OutOfRange(now - lastBeaconTime)
      ensures outOfRange <==> now - lastBeaconTime > 35.0
    {
      var elapsed := now - lastBeaconTime;
      outOfRange := elapsed > RangeThreshold;
    }

    /** The "Start Capture & Scan" button, pressed at time `now`. */
    method PressStart(now: real)
      requires Valid()
      modifies this`capturing, this`buffer, this`sampleCount, this`lastResults, this`resultText,
        this`instantStates, this`ingested, this`lastBeaconTime, this`samples, this`finalText,
        this`schedule
      ensures Valid()
      ensures buffer == [] && sampleCount == 0 && lastResults == [true, true] && instantStates == []
      ensures capturing == motionAvailable
      ensures resultText == if motionAvailable then CapturingText else MotionUnavailableText
      ensures lastBeaconTime == now
      ensures samples == [] && finalText == "" && schedule == Restart(old(schedule))
    {
      StartContinuousCapture();
      lastBeaconTime := now;
      assert Valid();
      StartSampling();
    }
  }
}
