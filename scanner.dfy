/** The scanning side (ios/DataLogger/ProverApp/BLEScanner.swift): filter advertisements by
    local name and UUID prefix, extract the nonce from bytes 8..15 of the first service UUID,
    and publish it only when it differs from the last one published. */
module Scanner {
  import opened Common
  import Uuid
  import opened Beacon

  /** The fixed first 8 bytes of every beacon service UUID. */
  const BasePrefix: seq<Byte> := [0xD4, 0xF5, 0x6A, 0x24, 0x9C, 0xDE, 0x4B, 0x12]

  /** Filtering and extraction: the nonce an advertisement carries, or `None` when the
      scanner drops it. */
  function ExtractNonce(adv: Advertisement): (r: Option<Nonce>)
    ensures r.Some? ==>
      adv.localName == Some(BeaconName) && adv.serviceUuids.Some? && adv.serviceUuids.value != [] &&
      Uuid.Parse(adv.serviceUuids.value[0]) == Some(BasePrefix + r.value)
  {
    if adv.localName != Some(BeaconName) then None
    else if adv.serviceUuids.None? || adv.serviceUuids.value == [] then None
    else match Uuid.Parse(adv.serviceUuids.value[0])
      case None => None
      case Some(raw) =>
        if raw[..8] != BasePrefix then None
        else assert raw == raw[..8] + raw[8..16]; Some(raw[8..16])
  }

  /** The converse of `ExtractNonce`'s postcondition: an advertisement with the beacon name
      whose first service UUID is the prefix followed by `n` yields exactly `n`. */
  lemma ExtractNonceComplete(adv: Advertisement, n: Nonce)
    requires adv.localName == Some(BeaconName) && adv.serviceUuids.Some? && adv.serviceUuids.value != []
    requires Uuid.Parse(adv.serviceUuids.value[0]) == Some(BasePrefix + n)
    ensures ExtractNonce(adv) == Some(n)
  {
    var raw := BasePrefix + n;
    assert raw[..8] == BasePrefix && raw[8..16] == n;
  }

  /** Only the first service UUID is examined: anything after it never changes the outcome. */
  lemma OnlyFirstUuid(name: Option<string>, first: string, rest: seq<string>)
    ensures ExtractNonce(Advertisement(name, Some([first] + rest))) == ExtractNonce(Advertisement(name, Some([first])))
  {
  }

  /** The broadcaster's base bytes start with the scanner's prefix. */
  lemma BasePrefixAgrees()
    ensures BaseBytes[..8] == BasePrefix
  {
  }

  /** End-to-end round trip: the scanner accepts every beacon advertisement and extracts
      exactly the nonce that was broadcast. */
  lemma BroadcastAccepted(n: Nonce)
    ensures ExtractNonce(BeaconAdvertisement(n)) == Some(n)
  {
    var bytes := DynamicBytes(n);
    Uuid.ParseFormat(bytes);
    assert bytes == BasePrefix + n;
    ExtractNonceComplete(BeaconAdvertisement(n), n);
  }

  /** Deduplication: the event one discovery produces, given the last published nonce. */
  function Observe(last: Option<Nonce>, adv: Advertisement): (event: Option<Nonce>)
    ensures event.Some? ==> ExtractNonce(adv) == event && last != event
    ensures event.None? ==> ExtractNonce(adv).None? || ExtractNonce(adv) == last
  {
    match ExtractNonce(adv)
    case None => None
    case Some(n) => if Some(n) == last then None else Some(n)
  }

  /** The last published nonce after one discovery. */
  function NextLast(last: Option<Nonce>, adv: Advertisement): Option<Nonce> {
    if Observe(last, adv).Some? then Observe(last, adv) else last
  }

  /** The same advertisement seen twice in a row is published at most once. */
  lemma RepeatSuppressed(last: Option<Nonce>, adv: Advertisement)
    ensures Observe(NextLast(last, adv), adv) == None
  {
  }

  /** Deduplication remembers only the last published nonce, so A, B, A publishes three events. */
  lemma AlternationPublishesEach(a: Nonce, b: Nonce)
    requires a != b
    ensures Observe(None, BeaconAdvertisement(a)) == Some(a)
    ensures Observe(Some(a), BeaconAdvertisement(b)) == Some(b)
    ensures Observe(Some(b), BeaconAdvertisement(a)) == Some(a)
  {
    BroadcastAccepted(a);
    BroadcastAccepted(b);
  }

  /** `BLEScanner`: the central manager is left out; each discovery callback is a call of
      `DidDiscover`, and the `noncePublisher` subject is the log `published`. */
  class BLEScanner {
    var lastSeenNonce: Option<Nonce>
    var published: seq<Nonce>
    var scanning: bool

    /** `lastSeenNonce` is the last published nonce and no nonce is published twice in a row. */
    ghost predicate Valid()
      reads this
    {
      (published == [] ==> lastSeenNonce == None) &&
      (published != [] ==> lastSeenNonce == Some(published[|published| - 1])) &&
      forall i | 0 < i < |published| :: published[i - 1] != published[i]
    }

    constructor ()
      ensures Valid() && lastSeenNonce == None && published == [] && !scanning
    {
      lastSeenNonce, published, scanning := None, [], false;
    }

    /** `start()`: scanning with duplicates allowed (every advertisement is reported). */
    method Start()
      modifies this`scanning
      ensures scanning
    {
      scanning := true;
    }

    /** `centralManagerDidUpdateState`: start scanning once the radio is powered on. */
    method DidUpdateState(state: ManagerState)
      modifies this`scanning
      ensures scanning == (old(scanning) || state == PoweredOn)
    {
      if state == PoweredOn {
        Start();
      }
    }

    /** `centralManager(_:didDiscover:advertisementData:rssi:)`. */
    method DidDiscover(adv: Advertisement) returns (event: Option<Nonce>)
      requires Valid()
      modifies this`lastSeenNonce, this`published
      ensures Valid()
      ensures event == Observe(old(lastSeenNonce), adv)
      ensures lastSeenNonce == NextLast(old(lastSeenNonce), adv)
      ensures published == old(published) + (if event.Some? then [event.value] else [])
    {
      if adv.localName != Some(BeaconName) {
        return None;
      }
      if adv.serviceUuids.None? || adv.serviceUuids.value == [] {
        return None;
      }
      var dynUuid := Uuid.Parse(adv.serviceUuids.value[0]);
      if dynUuid.None? {
        return None;
      }
      var raw := new Byte[16](_ => 0);
      for i := 0 to 16
        invariant forall k | 0 <= k < i :: raw[k] == dynUuid.value[k]
        invariant lastSeenNonce == old(lastSeenNonce) && published == old(published)
      {
        raw[i] := dynUuid.value[i];
      }
      assert raw[..] == dynUuid.value;
      if raw[..8] != BasePrefix {
        return None;
      }
      var nonceData: Nonce := raw[8..16];
      if Some(nonceData) == lastSeenNonce {
        return None;
      }
      lastSeenNonce := Some(nonceData);
      published := published + [nonceData];
      event := Some(nonceData);
    }
  }
}
