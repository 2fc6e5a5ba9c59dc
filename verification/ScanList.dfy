/** Which entries of a scan the portal shows: one per network name. */
module ScanList {
  import opened WifiTypes

  /** The entry at `i` is outdone by the one at `j`: stronger, or as strong and earlier. */
  predicate Outdone(results: seq<ScanResult>, i: nat, j: nat)
    requires i < |results| && j < |results|
  {
    results[j].rssi > results[i].rssi || (results[j].rssi == results[i].rssi && j < i)
  }

  /** Both entries belong to the same visible network. */
  predicate SameNetwork(results: seq<ScanResult>, i: nat, j: nat)
    requires i < |results| && j < |results|
  {
    !results[i].isHidden && !results[j].isHidden && results[i].ssid == results[j].ssid
  }

  predicate Shown(results: seq<ScanResult>, i: nat)
    requires i < |results|
  {
    !results[i].isHidden && forall j :: 0 <= j < |results| && SameNetwork(results, i, j) ==> !Outdone(results, i, j)
  }

  method ShouldShowScanEntry(results: seq<ScanResult>, i: nat) returns (show: bool, withAuth: bool)
    requires i < |results|
    ensures show <==> Shown(results, i)
    ensures show ==>
              (withAuth <==> exists j :: 0 <= j < |results| && SameNetwork(results, i, j) && results[j].withAuth)
  {
    if results[i].isHidden { return false, false; }
    withAuth := false;
    for k := 0 to |results|
      invariant forall j :: 0 <= j < k && SameNetwork(results, i, j) ==> !Outdone(results, i, j)
      invariant withAuth <==> exists j :: 0 <= j < k && SameNetwork(results, i, j) && results[j].withAuth
    {
      if results[k].isHidden || results[k].ssid != results[i].ssid { continue; }
      if results[k].rssi > results[i].rssi || (results[k].rssi == results[i].rssi && k < i) {
        assert SameNetwork(results, i, k) && Outdone(results, i, k);
        return false, withAuth;
      }
      withAuth := withAuth || results[k].withAuth;
    }
    show := true;
  }

  /** Every visible network is shown once: by its strongest entry. */
  lemma {:induction false} OneEntryPerNetwork(results: seq<ScanResult>, i: nat) returns (shown: nat)
    requires i < |results| && !results[i].isHidden
    ensures shown < |results| && SameNetwork(results, i, shown) && Shown(results, shown)
    ensures forall j :: 0 <= j < |results| && SameNetwork(results, i, j) && Shown(results, j) ==> j == shown
    ensures forall j :: 0 <= j < |results| && SameNetwork(results, i, j) ==> results[j].rssi <= results[shown].rssi
    decreases 127 - results[i].rssi, i
  {
    if j :| 0 <= j < |results| && SameNetwork(results, i, j) && Outdone(results, i, j) {
      shown := OneEntryPerNetwork(results, j);
    } else {
      shown := i;
    }
    forall j | 0 <= j < |results| && SameNetwork(results, i, j) && Shown(results, j) ensures j == shown {
      assert SameNetwork(results, shown, j) && SameNetwork(results, j, shown);
    }
  }
}
