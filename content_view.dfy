/** The earlier prover screen (ios/DataLogger/ProverApp/ContentView.swift): the same
    presence pipeline as `AttendanceView` except that nothing records the per-window states,
    plus the nonce hex encoding sent to `/prove` and the mapping of the `/prove` and
    `/verify` replies to the text it shows. */
module ProverScreen {
  import opened Common
  import opened Presence
  import Hex
  import Verifier

  // ---------------------------------------------------------------------------
  // Nonce hand-off

  /** `nonce.map { String(format: "%02x", $0) }.joined()`. */
  function NonceHex(n: Nonce): (s: string)
    ensures |s| == 16
    ensures forall i | 0 <= i < 16 :: Hex.IsLowerHexDigit(s[i])
    ensures Hex.DecodePairs(s) == Some(n)
  {
    Hex.EncodeDigits(n, false);
    Hex.DecodeEncode(n, false);
    Hex.Encode(n, false)
  }

  /** Byte `i` of the nonce is characters `2i` and `2i+1`, high nibble first. */
  lemma NonceHexGroups(n: Nonce, i: nat)
    requires i < 8
    ensures NonceHex(n)[2 * i..2 * i + 2] == [Hex.Digit(n[i] / 16, false), Hex.Digit(n[i] % 16, false)]
  {
    Hex.EncodeAt(n, false, i);
  }

  /** A hex string that `BigInt` reads as an ordinary hex literal. */
  lemma HexBigIntOfDigits(h: string)
    requires h != [] && Hex.AllHex(h)
    ensures Verifier.HexBigInt(h) == Some(Hex.Value(h))
  {
    assert !Verifier.IsJsWhiteSpace(h[|h| - 1]);
  }

  /** `/prove` on a 16-character string whose halves are plain hex digits. */
  lemma ProveOfDigits(s: string)
    requires |s| == 16 && Hex.AllHex(s[..8]) && Hex.AllHex(s[8..])
    ensures Verifier.Prove(Verifier.JsString(s)) ==
      Verifier.CircuitInput([Verifier.DecimalString(Hex.Value(s[..8])), Verifier.DecimalString(Hex.Value(s[8..]))])
  {
    var (hex0, hex1) := Verifier.Halves(s);
    assert hex0 == s[..8] && hex1 == s[8..];
    HexBigIntOfDigits(hex0);
    HexBigIntOfDigits(hex1);
  }

  /** Composed with `/prove`: the Swift encoding always passes validation, and the two
      circuit inputs are the big-endian values of nonce bytes 0..3 and 4..7. */
  lemma NonceHexCircuitInput(n: Nonce)
    ensures Verifier.Prove(Verifier.JsString(NonceHex(n))) ==
      Verifier.CircuitInput([Verifier.DecimalString(Hex.BigEndian(n[..4])),
                             Verifier.DecimalString(Hex.BigEndian(n[4..]))])
    ensures Hex.BigEndian(n[..4]) < 0x1_0000_0000 && Hex.BigEndian(n[4..]) < 0x1_0000_0000
  {
    var s := NonceHex(n);
    var lo, hi := n[..4], n[4..];
    assert n == lo + hi;
    Hex.EncodeAppend(lo, hi, false);
    assert s[..8] == Hex.Encode(lo, false) && s[8..] == Hex.Encode(hi, false);
    Hex.ValueEncode(lo, false);
    Hex.ValueEncode(hi, false);
    ProveOfDigits(s);
    Hex.BigEndianBound(lo);
    Hex.BigEndianBound(hi);
    assert Hex.Pow256(4) == 0x1_0000_0000;
  }

  // ---------------------------------------------------------------------------
  // Replies

  const ProveHttpErrorPrefix := "❌ Prove HTTP error: "
  const NoProveDataText := "❌ No data from /prove"
  const DecodeProveErrorPrefix := "❌ Decode /prove error: "
  const VerifyErrorPrefix := "❌ Verify error: "
  const InvalidProofText := "❌ Invalid proof"
  const BadVerifyResponseText := "❌ Bad verify response"

  /** A `/prove` response body: the proof and public signals, an `{ error }` object, or
      anything else. The proof's JSON is kept as opaque text. */
  datatype ProveBody = ProofBody(proof: string, publicSignals: seq<string>) | ErrorBody(error: string) | OtherBody

  /** What the `/prove` data task delivers: a transport error with its description, no
      data, or a body together with the description Foundation gives if decoding it as a
      `ProveResponse` fails. */
  datatype ProveReply =
    | ProveTransportError(description: string)
    | ProveNoData
    | ProveData(body: ProveBody, decodeError: string)

  /** What happens after `/prove`: a message is shown, or `/verify` is called with the
      decoded proof. */
  datatype ProveStep = Show(text: string) | SendVerify(proof: string, publicSignals: seq<string>)

  function AfterProve(reply: ProveReply): (step: ProveStep)
    ensures step.SendVerify? <==> reply.ProveData? && reply.body.ProofBody?
    ensures step.SendVerify? ==> step.proof == reply.body.proof && step.publicSignals == reply.body.publicSignals
    ensures reply.ProveTransportError? ==> step == Show(ProveHttpErrorPrefix + reply.description)
    ensures reply.ProveNoData? ==> step == Show(NoProveDataText)
    ensures reply.ProveData? && !reply.body.ProofBody? ==> step == Show(DecodeProveErrorPrefix + reply.decodeError)
  {
    match reply
    case ProveTransportError(description) => Show(ProveHttpErrorPrefix + description)
    case ProveNoData => Show(NoProveDataText)
    case ProveData(body, decodeError) =>
      if body.ProofBody? then SendVerify(body.proof, body.publicSignals)
      else Show(DecodeProveErrorPrefix + decodeError)
  }

  /** What the `/verify` data task delivers: a transport error, no data, or data that
      decodes as `[String: Bool]` (`Some`) or does not (`None`). */
  datatype VerifyReply =
    | VerifyTransportError(description: string)
    | VerifyNoData
    | VerifyData(json: Option<map<string, bool>>)

  function VerifyMessage(reply: VerifyReply): (text: string)
    ensures reply.VerifyTransportError? ==> text == VerifyErrorPrefix + reply.description
    ensures text == ConfirmedText <==>
      reply.VerifyData? && reply.json.Some? && "verified" in reply.json.value && reply.json.value["verified"]
    ensures text == InvalidProofText <==>
      reply.VerifyData? && reply.json.Some? && "verified" in reply.json.value && !reply.json.value["verified"]
    ensures text == BadVerifyResponseText <==>
      reply.VerifyNoData? || (reply.VerifyData? && (reply.json.None? || "verified" !in reply.json.value))
  {
    match reply
    case VerifyTransportError(description) =>
      var t := VerifyErrorPrefix + description;
      assert t[0] == '❌' && t[2] == 'V';
      t
    case VerifyNoData => BadVerifyResponseText
    case VerifyData(json) =>
      if json.Some? && "verified" in json.value then
        (if json.value["verified"] then ConfirmedText else InvalidProofText)
      else BadVerifyResponseText
  }

  /** `/verify`'s `{ verified: ok }` body as the app decodes it. */
  function ServerVerifyReply(r: Verifier.VerifyResponse): VerifyReply {
    VerifyData(Some(map["verified" := r.verified]))
  }

  /** A reply from `/verify` is never a "bad verify response": the app shows the
      confirmation exactly when `groth16.verify` resolved to true, and "Invalid proof"
      otherwise, thrown errors included. */
  lemma ServerVerifyOutcome(outcome: Option<bool>)
    ensures VerifyMessage(ServerVerifyReply(Verifier.Verify(outcome))) != BadVerifyResponseText
    ensures VerifyMessage(ServerVerifyReply(Verifier.Verify(outcome))) == ConfirmedText <==> outcome == Some(true)
    ensures VerifyMessage(ServerVerifyReply(Verifier.Verify(outcome))) == InvalidProofText <==> outcome != Some(true)
  {
  }

  // ---------------------------------------------------------------------------
  // The view

  class ContentView {
    const motionAvailable: bool
    const gate: seq<Row> -> bool
    const rf: seq<Row> -> Option<bool>

    var capturing: bool
    var buffer: seq<Row>
    var sampleCount: nat
    var resultText: string
    var lastResults: seq<bool>
    var instantStates: seq<bool>
    ghost var ingested: seq<Row>

    var proofResult: string
    var lastSentNonce: Option<Nonce>
    /** The `nonceHex` bodies sent to `/prove`. */
    var proveRequests: seq<string>
    /** The proofs sent to `/verify`. */
    var verifyRequests: seq<(string, seq<string>)>
    var lastBeaconTime: real
    var outOfRange: bool
    var scannerStarted: bool

    var samples: seq<bool>
    var finalAttendance: string
    var schedule: Schedule

    /** As for `AttendanceView`, and in addition: no per-window state is ever recorded, so
        every sample taken is "absent". */
    ghost predicate Valid()
      reads this
    {
      |lastResults| == 2 &&
      buffer == Recent(ingested) && sampleCount == |ingested| &&
      (capturing ==> motionAvailable) &&
      ScheduleOk(schedule) &&
      NothingRecorded()
    }

    /** No per-window state is recorded, so every sample is "absent". */
    ghost predicate NothingRecorded()
      reads this`instantStates, this`samples
    {
      instantStates == [] &&
      (forall i | 0 <= i < |samples| :: !samples[i])
    }

    /** The effect of one `classifyWindow`: as in `AttendanceView`, without recording. */
    ghost predicate Classified(h0: seq<bool>, w: seq<Row>)
      requires |h0| == 2
      reads this
    {
      match Classify(gate, rf, w)
      case ClassifierError => resultText == ErrorText && lastResults == h0
      case Label(isWith) => lastResults == Push(h0, isWith) && resultText == StateText(lastResults)
    }

    constructor (motionAvailable: bool, gate: seq<Row> -> bool, rf: seq<Row> -> Option<bool>, now: real)
      ensures Valid()
      ensures this.motionAvailable == motionAvailable && this.gate == gate && this.rf == rf
      ensures !capturing && buffer == [] && sampleCount == 0 && resultText == IdleText
      ensures lastResults == [true, true] && instantStates == []
      ensures proofResult == "" && lastSentNonce == None && proveRequests == [] && verifyRequests == []
      ensures lastBeaconTime == now && !outOfRange && !scannerStarted
      ensures samples == [] && finalAttendance == "" && schedule == NoTimers
    {
      this.motionAvailable, this.gate, this.rf := motionAvailable, gate, rf;
      capturing, buffer, sampleCount, resultText := false, [], 0, IdleText;
      lastResults, instantStates, ingested := [true, true], [], [];
      proofResult, lastSentNonce, proveRequests, verifyRequests := "", None, [], [];
      lastBeaconTime, outOfRange, scannerStarted := now, false, false;
      samples, finalAttendance, schedule := [], "", NoTimers;
    }

    /** `startContinuousCapture`: unlike `AttendanceView`, it leaves `instantStates` alone. */
    method StartContinuousCapture()
      requires Valid()
      modifies this`capturing, this`buffer, this`sampleCount, this`lastResults, this`resultText,
        this`ingested
      ensures Valid()
      ensures buffer == [] && sampleCount == 0 && lastResults == [true, true] && ingested == []
      ensures capturing == motionAvailable
      ensures resultText == if motionAvailable then CapturingText else MotionUnavailableText
    {
      buffer := [];
      ingested := [];
      sampleCount := 0;
      lastResults := [true, true];
      resultText := CapturingText;
      if !motionAvailable {
        resultText := MotionUnavailableText;
        return;
      }
      capturing := true;
    }

    /** The motion handler: the same buffer trim and hop trigger as `AttendanceView`. */
    method MotionUpdate(data: Option<Row>)
      requires Valid()
      modifies this`buffer, this`sampleCount, this`ingested, this`lastResults, this`resultText
      ensures Valid()
      ensures !capturing || data.None? ==> unchanged(this)
      ensures !motionAvailable ==> unchanged(this)
      ensures capturing && data.Some? ==>
        ingested == old(ingested) + [data.value] && sampleCount == old(sampleCount) + 1 &&
        |buffer| <= WindowSize && buffer == Slide(old(buffer), data.value)
      ensures capturing && data.Some? && ClassifyDue(sampleCount, |buffer|) ==>
        Classified(old(lastResults), buffer)
      ensures capturing && data.Some? && !ClassifyDue(sampleCount, |buffer|) ==>
        lastResults == old(lastResults) && resultText == old(resultText)
    {
      if !capturing || data.None? {
        return;
      }
      var row := data.value;
      SlideRecent(ingested, row);
      ingested := ingested + [row];
      buffer := buffer + [row];
      sampleCount := sampleCount + 1;
      if |buffer| > WindowSize {
        buffer := buffer[|buffer| - WindowSize..];
      }
      assert buffer == Recent(ingested) && NothingRecorded();
      if sampleCount % HopSize == 0 && |buffer| == WindowSize {
        ClassifyWindow();
      }
    }

    method ClassifyWindow()
      requires |lastResults| == 2
      modifies this`lastResults, this`resultText
      ensures |lastResults| == 2
      ensures Classified(old(lastResults), buffer)
    {
      if !gate(buffer) {
        PushResult(false);
        return;
      }
      var out := rf(buffer);
      match out
      case Some(isWith) =>
        PushResult(isWith);
      case None =>
        resultText := ErrorText;
    }

    /** `pushResult`: the same hysteresis, and no recording. */
    method PushResult(isWith: bool)
      requires |lastResults| == 2
      modifies this`lastResults, this`resultText
      ensures lastResults == Push(old(lastResults), isWith)
      ensures resultText == StateText(lastResults)
    {
      lastResults := lastResults[1..];
      lastResults := lastResults + [isWith];
      resultText := if lastResults[0] == false && lastResults[1] == false then LeftBehindText else WithUserText;
    }

    /** `sampleOnce` over the always-empty `instantStates`: every sample is "absent". */
    method SampleOnce()
      requires Valid()
      modifies this`samples, this`instantStates
      ensures Valid()
      ensures samples == old(samples) + [false] && instantStates == []
    {
      var presentCount := CountTrue(instantStates);
      var absentCount := |instantStates| - presentCount;
      var sampleIsPresent := presentCount > absentCount;
      samples := samples + [sampleIsPresent];
      instantStates := [];
    }

    method StartSampling()
      requires Valid()
      modifies this`samples, this`finalAttendance, this`schedule
      ensures Valid()
      ensures samples == [] && finalAttendance == ""
      ensures schedule == Restart(old(schedule)) && schedule.oneShot == {old(schedule).next}
    {
      ScheduleSteps(schedule, 0);
      samples := [];
      finalAttendance := "";
      schedule := Restart(schedule);
    }

    method FirstSampleFires()
      requires Valid() && schedule.pendingFirst > 0
      modifies this`samples, this`instantStates, this`schedule
      ensures Valid()
      ensures samples == old(samples) + [false]
      ensures schedule == FirstSampleRan(old(schedule))
    {
      ScheduleSteps(schedule, 0);
      SampleOnce();
      schedule := FirstSampleRan(schedule);
    }

    method SamplingTimerFires(id: nat)
      requires Valid() && id in schedule.repeating
      modifies this`samples, this`instantStates
      ensures Valid()
      ensures samples == old(samples) + [false]
    {
      SampleOnce();
    }

    /** The 180 s timer: the verdict is always "❌ Attendance absent", and nothing is
        recorded. */
    method AttendanceTimerFires(id: nat)
      requires Valid() && id in schedule.oneShot
      modifies this`schedule, this`finalAttendance
      ensures Valid()
      ensures finalAttendance == Verdict(samples) == AbsentText
      ensures schedule == AttendanceRan(old(schedule), id) && schedule.oneShot == {}
    {
      ScheduleSteps(schedule, id);
      AllAbsentVerdict(samples);
      schedule := AttendanceRan(schedule, id);
      var presentCount := CountTrue(samples);
      var absentCount := |samples| - presentCount;
      finalAttendance := if presentCount > absentCount then ConfirmedText else AbsentText;
    }

    /** A fresh nonce from the scanner: through the gate, its lower-case hex goes to
        `/prove`. */
    method OnNonce(nonce: Nonce, now: real)
      modifies this`lastBeaconTime, this`lastSentNonce, this`proofResult, this`proveRequests
      ensures lastBeaconTime == now
      ensures ProofGate(resultText, old(lastSentNonce), nonce) ==>
        lastSentNonce == Some(nonce) && proofResult == GeneratingProofText &&
        proveRequests == old(proveRequests) + [NonceHex(nonce)]
      ensures !ProofGate(resultText, old(lastSentNonce), nonce) ==>
        lastSentNonce == old(lastSentNonce) && proofResult == old(proofResult) &&
        proveRequests == old(proveRequests)
    {
      lastBeaconTime := now;
      if !(resultText == WithUserText && Some(nonce) != lastSentNonce) {
        return;
      }
      lastSentNonce := Some(nonce);
      proofResult := GeneratingProofText;
      var nonceHex := NonceHex(nonce);
      proveRequests := proveRequests + [nonceHex];
    }

    /** The `/prove` completion handler. */
    method OnProveReply(reply: ProveReply)
      requires Valid()
      modifies this`proofResult, this`verifyRequests
      ensures Valid()
      ensures AfterProve(reply).Show? ==>
        proofResult == AfterProve(reply).text && verifyRequests == old(verifyRequests)
      ensures AfterProve(reply).SendVerify? ==>
        proofResult == old(proofResult) &&
        verifyRequests == old(verifyRequests) + [(AfterProve(reply).proof, AfterProve(reply).publicSignals)]
    {
      var step := AfterProve(reply);
      match step
      case Show(text) =>
        proofResult := text;
      case SendVerify(proof, publicSignals) =>
        verifyRequests := verifyRequests + [(proof, publicSignals)];
    }

    /** The `/verify` completion handler. */
    method OnVerifyReply(reply: VerifyReply)
      modifies this`proofResult
      ensures proofResult == VerifyMessage(reply)
    {
      match reply
      case VerifyTransportError(description) =>
        proofResult := VerifyErrorPrefix + description;
      case VerifyNoData =>
        proofResult := BadVerifyResponseText;
      case VerifyData(json) =>
        if json.Some? && "verified" in json.value {
          var ok := json.value["verified"];
          proofResult := if ok then ConfirmedText else InvalidProofText;
        } else {
          proofResult := BadVerifyResponseText;
        }
    }

    method RangeTick(now: real)
      modifies this`outOfRange
      ensures outOfRange == OutOfRange(now - lastBeaconTime)
      ensures outOfRange <==> now - lastBeaconTime > 35.0
    {
      var elapsed := now - lastBeaconTime;
      outOfRange := elapsed > RangeThreshold;
    }

    /** The "Start Capture & Scan" button: it also starts the scanner. */
    method PressStart(now: real)
      requires Valid()
      modifies this`capturing, this`buffer, this`sampleCount, this`lastResults, this`resultText,
        this`ingested, this`scannerStarted, this`lastBeaconTime, this`samples, this`finalAttendance,
        this`schedule
      ensures Valid()
      ensures buffer == [] && sampleCount == 0 && lastResults == [true, true]
      ensures capturing == motionAvailable && scannerStarted
      ensures resultText == if motionAvailable then CapturingText else MotionUnavailableText
      ensures lastBeaconTime == now
      ensures samples == [] && finalAttendance == "" && schedule == Restart(old(schedule))
    {
      ghost var s0 := schedule;
      StartContinuousCapture();
      scannerStarted := true;
      lastBeaconTime := now;
      assert Valid();
      StartSampling();
      assert schedule == Restart(s0);
    }
  }
}
