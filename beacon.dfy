/** The beacon side (ios/BeaconBroadcaster): a 16-byte service UUID made of a fixed
    8-byte base and a fresh 8-byte nonce, advertised under a fixed local name and
    rotated every 30 seconds. */
module Beacon {
  import opened Common
  import Hex
  import Uuid

  /** The local name that both the broadcaster and the scanner use. */
  const BeaconName := "ZK-Attendance"

  /** The base UUID text; its first 8 bytes are fixed, its last 8 are replaced by the nonce. */
  const BaseUuidString := "D4F56A24-9CDE-4B12-ABCD-000000000000"

  /** The bytes the base UUID text stands for. */
  const BaseBytes: seq<Byte> := [0xD4, 0xF5, 0x6A, 0x24, 0x9C, 0xDE, 0x4B, 0x12,
                                 0xAB, 0xCD, 0x00, 0x00, 0x00, 0x00, 0x00, 0x00]

  /** What a peripheral advertises, as a scanner sees it: the local name entry and the
      service UUID list entry, each possibly absent; a UUID is carried as its text. */
  datatype Advertisement = Advertisement(localName: Option<string>, serviceUuids: Option<seq<string>>)

  /** The base text is the upper-case text form of the base bytes, so the force-unwrapped
      parse in the broadcaster cannot fail and gives exactly those bytes. */
  lemma BaseParses()
    ensures Uuid.Parse(BaseUuidString) == Some(BaseBytes)
  {
    BaseText(BaseBytes);
    Uuid.ParseFormat(BaseBytes);
  }

  /** The base text is the upper-case text form of the base bytes, checked character by
      character in six slices (a variable stands for the literal bytes so that each
      check evaluates one character). */
  lemma BaseText(b: seq<Byte>)
    requires b == BaseBytes
    ensures Uuid.Format(b) == BaseUuidString
  {
    BaseTextSlice0(b);
    BaseTextSlice1(b);
    BaseTextSlice2(b);
    BaseTextSlice3(b);
    BaseTextSlice4(b);
    BaseTextSlice5(b);
    assert forall i | 0 <= i < 36 :: Uuid.Format(b)[i] == BaseUuidString[i];
  }

  lemma BaseTextSlice0(b: seq<Byte>)
    requires b == BaseBytes
    ensures forall i | 0 <= i < 6 :: Uuid.Format(b)[i] == BaseUuidString[i]
  {
  }

  lemma BaseTextSlice1(b: seq<Byte>)
    requires b == BaseBytes
    ensures forall i | 6 <= i < 12 :: Uuid.Format(b)[i] == BaseUuidString[i]
  {
  }

  lemma BaseTextSlice2(b: seq<Byte>)
    requires b == BaseBytes
    ensures forall i | 12 <= i < 18 :: Uuid.Format(b)[i] == BaseUuidString[i]
  {
  }

  lemma BaseTextSlice3(b: seq<Byte>)
    requires b == BaseBytes
    ensures forall i | 18 <= i < 24 :: Uuid.Format(b)[i] == BaseUuidString[i]
  {
  }

  lemma BaseTextSlice4(b: seq<Byte>)
    requires b == BaseBytes
    ensures forall i | 24 <= i < 30 :: Uuid.Format(b)[i] == BaseUuidString[i]
  {
  }

  lemma BaseTextSlice5(b: seq<Byte>)
    requires b == BaseBytes
    ensures forall i | 30 <= i < 36 :: Uuid.Format(b)[i] == BaseUuidString[i]
  {
  }

  /** The 16 bytes of the dynamic UUID: the base's first 8 bytes, then the nonce. */
  function DynamicBytes(nonce: Nonce): seq<Byte> {
    BaseBytes[..8] + nonce
  }

  /** What `advertise()` hands to the peripheral manager for a given nonce. */
  function BeaconAdvertisement(nonce: Nonce): (adv: Advertisement)
    ensures adv.localName == Some(BeaconName)
    ensures adv.serviceUuids.Some? && |adv.serviceUuids.value| == 1
    ensures Uuid.Parse(adv.serviceUuids.value[0]) == Some(DynamicBytes(nonce))
  {
    Uuid.ParseFormat(DynamicBytes(nonce));
    Advertisement(Some(BeaconName), Some([Uuid.Format(DynamicBytes(nonce))]))
  }

  /** `UUID(uuidString: baseUuidString)!`: the force unwrap cannot fail. */
  method ParseBase() returns (base: seq<Byte>)
    ensures |base| == 16 && base == BaseBytes
  {
    BaseParses();
    base := Uuid.Parse(BaseUuidString).value;
  }

  /** Builds the dynamic UUID as the broadcaster does: parse the base text into a
      16-byte buffer, then overwrite bytes 8..15 with the nonce. */
  method BuildDynamicUuid(nonce: Nonce) returns (uuid: seq<Byte>)
    ensures |uuid| == 16
    ensures uuid[..8] == BaseBytes[..8]
    ensures uuid[8..] == nonce
  {
    var uuidBytes := new Byte[16](_ => 0);
    var base := ParseBase();
    for i := 0 to 16
      invariant forall k | 0 <= k < i :: uuidBytes[k] == base[k]
    {
      uuidBytes[i] := base[i];
    }
    for i := 0 to 8
      invariant forall k | 0 <= k < 8 :: uuidBytes[k] == base[k]
      invariant forall k | 0 <= k < i :: uuidBytes[8 + k] == nonce[k]
    {
      uuidBytes[8 + i] := nonce[i];
    }
    uuid := uuidBytes[..];
  }

  /** The dynamic bytes are 16 long for every nonce, keep the base prefix (which is the
      scanner's), and none of the base's own trailing bytes `AB CD 00 ...` survive. */
  lemma DynamicBytesLayout(nonce: Nonce)
    ensures |DynamicBytes(nonce)| == 16
    ensures DynamicBytes(nonce)[..8] == BaseBytes[..8]
    ensures DynamicBytes(nonce)[8..] == nonce
    ensures forall i | 8 <= i < 16 :: DynamicBytes(nonce)[i] == nonce[i - 8]
  {
  }

  /** The radio's power state, as CoreBluetooth reports it. */
  datatype ManagerState = Unknown | Resetting | Unsupported | Unauthorized | PoweredOff | PoweredOn

  /** A request to the peripheral manager. */
  datatype RadioCommand = StopAdvertising | StartAdvertising(data: Advertisement)

  /** `BeaconBroadcaster`: the peripheral manager is modelled as the log of commands it
      received; the random source as the nonce passed to each call. */
  class BeaconBroadcaster {
    var commands: seq<RadioCommand>
    /** Repeating 30-second timers scheduled so far (one per power-on callback). */
    var repeatTimers: nat
    /** The nonces advertised so far, one per rotation. */
    ghost var nonces: seq<Nonce>

    /** Every rotation stops the previous advertisement before starting the new one, and
        every started advertisement is a beacon advertisement for that rotation's nonce. */
    ghost predicate Valid()
      reads this
    {
      |commands| == 2 * |nonces| &&
      forall i | 0 <= i < |nonces| ::
        commands[2 * i] == StopAdvertising &&
        commands[2 * i + 1] == StartAdvertising(BeaconAdvertisement(nonces[i]))
    }

    /** The advertisement currently on the air, if any. */
    function Advertising(): Option<Advertisement>
      reads this
    {
      if commands != [] && commands[|commands| - 1].StartAdvertising?
      then Some(commands[|commands| - 1].data) else None
    }

    constructor ()
      ensures Valid() && commands == [] && nonces == [] && repeatTimers == 0
      ensures Advertising() == None
    {
      commands, nonces, repeatTimers := [], [], 0;
    }

    /** `advertise()`: one rotation with the nonce the random source produced. */
    method Advertise(nonce: Nonce)
      requires Valid()
      modifies this
      ensures Valid()
      ensures nonces == old(nonces) + [nonce]
      ensures commands == old(commands) + [StopAdvertising, StartAdvertising(BeaconAdvertisement(nonce))]
      ensures repeatTimers == old(repeatTimers)
      ensures Advertising() == Some(BeaconAdvertisement(nonce))
    {
      var uuid := BuildDynamicUuid(nonce);
      assert uuid == DynamicBytes(nonce);
      var adv := Advertisement(Some(BeaconName), Some([Uuid.Format(uuid)]));
      commands := commands + [StopAdvertising];
      commands := commands + [StartAdvertising(adv)];
      nonces := nonces + [nonce];
    }

    /** `peripheralManagerDidUpdateState`: nothing unless powered on; on power-on one
        rotation and one more repeating timer. */
    method DidUpdateState(state: ManagerState, nonce: Nonce)
      requires Valid()
      modifies this
      ensures Valid()
      ensures state != PoweredOn ==>
        commands == old(commands) && nonces == old(nonces) && repeatTimers == old(repeatTimers)
      ensures state == PoweredOn ==>
        nonces == old(nonces) + [nonce] && repeatTimers == old(repeatTimers) + 1 &&
        commands == old(commands) + [StopAdvertising, StartAdvertising(BeaconAdvertisement(nonce))]
    {
      if state == PoweredOn {
        Advertise(nonce);
        repeatTimers := repeatTimers + 1;
      }
    }

    /** A firing of one of the repeating timers: one more rotation. */
    method RepeatTimerFires(nonce: Nonce)
      requires Valid() && repeatTimers > 0
      modifies this
      ensures Valid()
      ensures nonces == old(nonces) + [nonce] && repeatTimers == old(repeatTimers)
      ensures commands == old(commands) + [StopAdvertising, StartAdvertising(BeaconAdvertisement(nonce))]
    {
      Advertise(nonce);
    }
  }
}
