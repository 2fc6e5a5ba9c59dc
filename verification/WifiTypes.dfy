/** Configured networks and scan results, and when a scan result belongs to a configured network. */
module WifiTypes {

  type Int8 = x: int | -128 <= x <= 127

  /** A six-byte address read as one number; zero stands for "not set". */
  type Bssid = b: int | 0 <= b < 0x1_0000_0000_0000

  const MIN_PRIORITY: Int8 := -128

  datatype Ap = Ap(
    ssid: string,
    password: string,
    bssid: Bssid,
    channel: nat,
    priority: Int8,
    hidden: bool)
  {
    predicate HasBssid() { bssid != 0 }

    predicate HasChannel() { channel != 0 }
  }

  /** The parameters used when no network is selected. */
  const EMPTY_AP := Ap("", "", 0, 0, 0, false)

  datatype ScanResult = ScanResult(
    bssid: Bssid,
    ssid: string,
    channel: nat,
    rssi: Int8,
    withAuth: bool,
    isHidden: bool,
    priority: Int8,
    matches: bool)

  /** True if `r` may be used to connect to the network configured as `c`. */
  predicate Belongs(r: ScanResult, c: Ap) {
    && (if c.hidden then r.isHidden else c.ssid == "" || r.ssid == c.ssid)
    && (c.HasBssid() ==> c.bssid == r.bssid)
    && (c.password == "" <==> !r.withAuth)
    && (c.HasChannel() ==> c.channel == r.channel)
  }

  /** Index of the first configured network `r` belongs to, or |sta| when there is none. */
  function FirstOwner(r: ScanResult, sta: seq<Ap>): (i: nat)
    ensures i <= |sta|
  {
    if sta == [] || Belongs(r, sta[0]) then 0 else 1 + FirstOwner(r, sta[1..])
  }

  lemma {:induction false} FirstOwnerIsFirst(r: ScanResult, sta: seq<Ap>)
    ensures FirstOwner(r, sta) < |sta| ==> Belongs(r, sta[FirstOwner(r, sta)])
    ensures forall k :: 0 <= k < FirstOwner(r, sta) ==> !Belongs(r, sta[k])
  {
    if sta != [] && !Belongs(r, sta[0]) {
      FirstOwnerIsFirst(r, sta[1..]);
      forall k | 0 <= k < FirstOwner(r, sta) ensures !Belongs(r, sta[k]) {
        if k > 0 { assert sta[k] == sta[1..][k - 1]; }
      }
    }
  }
}
