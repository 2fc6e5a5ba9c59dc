/** Storing the records of a finished scan: all of them, or only the strongest when the driver filtered the scan. */
module ScanStore {
  import opened Bags
  import opened Basics
  import opened ScanSort
  import opened WifiTypes

  /** Bound on the entries kept of a scan that the driver already filtered to one network. */
  const SCAN_RESULT_BOUND: nat := 12

  datatype Record = Record(bssid: Bssid, ssid: string, primary: nat, rssi: Int8, open: bool)

  function Fresh(r: Record): ScanResult {
    ScanResult(r.bssid, r.ssid, r.primary, r.rssi, !r.open, r.ssid == "", 0, false)
  }

  /** An entry is stored as the record came: with a key unless it is open, hidden if it names no network. */
  predicate CopyOf(e: ScanResult, r: Record) {
    && e.bssid == r.bssid && e.ssid == r.ssid && e.channel == r.primary && e.rssi == r.rssi
    && (e.withAuth <==> !r.open) && (e.isHidden <==> r.ssid == "") && !e.matches && e.priority == 0
  }

  /** Some network that is not hidden is configured with this SSID, or without one and with this BSSID. */
  predicate Configured(sta: seq<Ap>, ssid: string, bssid: Bssid) {
    exists k :: 0 <= k < |sta| && !sta[k].hidden &&
      ((sta[k].ssid != "" && sta[k].ssid == ssid) || (sta[k].ssid == "" && sta[k].bssid != 0 && sta[k].bssid == bssid))
  }

  /** A record is of interest to a network that is not hidden, by SSID or else by BSSID. */
  predicate MatchesConfigured(sta: seq<Ap>, r: Record) {
    r.ssid != "" &&
    exists c :: c in sta && !c.hidden &&
      (if c.ssid == "" then c.HasBssid() && c.bssid == r.bssid else c.ssid == r.ssid)
  }

  /** The entries a scan offers for storing, in the order the driver delivers them. */
  function Accepted(records: seq<Record>, sta: seq<Ap>, needsFull: bool): seq<ScanResult> {
    if records == [] then []
    else
      var n := |records| - 1;
      Accepted(records[..n], sta, needsFull) +
      (if needsFull || MatchesConfigured(sta, records[n]) then [Fresh(records[n])] else [])
  }

  function Wanted(number: nat, filtered: bool): nat {
    if filtered then Min(number, SCAN_RESULT_BOUND) else number
  }

  /** How many entries are at least as strong as `level`. */
  function CountAtLeast(s: seq<ScanResult>, level: int): (c: nat)
    ensures c <= |s|
  {
    if s == [] then 0
    else CountAtLeast(s[..|s| - 1], level) + (if s[|s| - 1].rssi >= level then 1 else 0)
  }

  /** `kept` and `dropped` share out `all`: `k` entries are kept (or all of them), none weaker than a dropped one. */
  ghost predicate Strongest(kept: seq<ScanResult>, dropped: seq<ScanResult>, all: seq<ScanResult>, k: nat) {
    && |kept| == Min(k, |all|)
    && multiset(kept + dropped) == multiset(all)
    && NoneStronger(dropped, kept)
  }

  /** As above, and in the order of arrival as long as nothing was dropped. */
  ghost predicate Filled(kept: seq<ScanResult>, dropped: seq<ScanResult>, all: seq<ScanResult>, k: nat) {
    Strongest(kept, dropped, all, k) && (dropped == [] ==> kept == all)
  }

  ghost predicate NoneStronger(weak: seq<ScanResult>, strong: seq<ScanResult>) {
    forall i, j :: 0 <= i < |weak| && 0 <= j < |strong| ==> weak[i].rssi <= strong[j].rssi
  }

  lemma {:induction false} CountSplits(a: seq<ScanResult>, b: seq<ScanResult>, level: int)
    ensures CountAtLeast(a + b, level) == CountAtLeast(a, level) + CountAtLeast(b, level)
  {
    if b == [] {
      assert a + b == a;
    } else {
      assert (a + b)[..|a + b| - 1] == a + b[..|b| - 1];
      CountSplits(a, b[..|b| - 1], level);
    }
  }

  lemma {:induction false} CountAll(s: seq<ScanResult>, level: int)
    requires forall i :: 0 <= i < |s| ==> s[i].rssi >= level
    ensures CountAtLeast(s, level) == |s|
  {
    if s != [] { CountAll(s[..|s| - 1], level); }
  }

  lemma {:induction false} CountNone(s: seq<ScanResult>, level: int)
    requires forall i :: 0 <= i < |s| ==> s[i].rssi < level
    ensures CountAtLeast(s, level) == 0
  {
    if s != [] { CountNone(s[..|s| - 1], level); }
  }

  lemma CountWithout(s: seq<ScanResult>, i: nat, level: int)
    requires i < |s|
    ensures CountAtLeast(s, level) == CountAtLeast(Without(s, i), level) + (if s[i].rssi >= level then 1 else 0)
  {
    CountSplits(s[..i], s[i + 1..], level);
    CountSplits(s[..i + 1], s[i + 1..], level);
    assert s[..i + 1][..i] == s[..i] && s[..i + 1] + s[i + 1..] == s;
  }

  lemma {:induction false} CountByMembers(s: seq<ScanResult>, t: seq<ScanResult>, level: int)
    requires multiset(s) == multiset(t)
    ensures CountAtLeast(s, level) == CountAtLeast(t, level)
    decreases |s|
  {
    SameSize(s, t);
    if s != [] {
      var j := Locate(s, 0, t);
      CountByMembers(Without(s, 0), Without(t, j), level);
      CountWithout(s, 0, level);
      CountWithout(t, j, level);
    }
  }

  /**
   * Keeping the strongest fixes how many entries are kept at every signal level,
   * so it fixes the kept signal strengths whatever the order of arrival.
   */
  lemma StrongestFixesSignals(kept: seq<ScanResult>, dropped: seq<ScanResult>, all: seq<ScanResult>, k: nat, level: int)
    requires Strongest(kept, dropped, all, k)
    ensures CountAtLeast(kept, level) == Min(k, CountAtLeast(all, level))
  {
    CountByMembers(kept + dropped, all, level);
    CountSplits(kept, dropped, level);
    SameSize(kept + dropped, all);
    if i :| 0 <= i < |dropped| && dropped[i].rssi >= level {
      CountAll(kept, level);
    } else {
      CountNone(dropped, level);
    }
  }

  /** The bounded store keeps the same signal strengths as sorting everything and taking the first k. */
  lemma AgreesWithSortAndTake(kept: seq<ScanResult>, dropped: seq<ScanResult>, records: seq<Record>, sta: seq<Ap>,
                              needsFull: bool, k: nat, level: int)
    requires Strongest(kept, dropped, Accepted(records, sta, needsFull), k)
    ensures
      var all := Accepted(records, sta, needsFull);
      CountAtLeast(kept, level) == CountAtLeast(InsertionSort(all)[..Min(k, |all|)], level)
  {
    var all := Accepted(records, sta, needsFull);
    AcceptedIsUnmatched(records, sta, needsFull);
    SortedPrefixIsStrongest(all, k);
    var sorted := InsertionSort(all);
    StrongestFixesSignals(sorted[..Min(k, |all|)], sorted[Min(k, |all|)..], all, k, level);
    StrongestFixesSignals(kept, dropped, all, k, level);
  }

  lemma SortedIsUnmatched(all: seq<ScanResult>)
    requires forall i :: 0 <= i < |all| ==> !all[i].matches
    ensures forall i :: 0 <= i < |InsertionSort(all)| ==> !InsertionSort(all)[i].matches
  {
    var sorted := InsertionSort(all);
    SortIsStablePermutation(all);
    forall i | 0 <= i < |sorted| ensures !sorted[i].matches {
      UnmatchedAt(sorted, all, i);
    }
  }

  lemma Parts<T>(s: seq<T>, n: nat)
    requires n <= |s|
    ensures s[..n] + s[n..] == s
  {
  }

  lemma SortedPrefixIsStrongest(all: seq<ScanResult>, k: nat)
    requires forall i :: 0 <= i < |all| ==> !all[i].matches
    ensures Strongest(InsertionSort(all)[..Min(k, |all|)], InsertionSort(all)[Min(k, |all|)..], all, k)
  {
    var sorted := InsertionSort(all);
    SortIsStablePermutation(all);
    SameSize(sorted, all);
    SortedIsUnmatched(all);
    PrefixIsStronger(sorted, Min(k, |all|));
    Parts(sorted, Min(k, |all|));
  }

  lemma PrefixIsStronger(sorted: seq<ScanResult>, n: nat)
    requires Ordered(sorted) && n <= |sorted|
    requires forall i :: 0 <= i < |sorted| ==> !sorted[i].matches
    ensures NoneStronger(sorted[n..], sorted[..n])
  {
    forall i, j | n <= i < |sorted| && 0 <= j < n ensures sorted[i].rssi <= sorted[j].rssi {
      assert !Better(sorted[i], sorted[j]);
    }
  }

  lemma UnmatchedAt(s: seq<ScanResult>, all: seq<ScanResult>, i: nat)
    requires multiset(s) == multiset(all) && i < |s|
    requires forall k :: 0 <= k < |all| ==> !all[k].matches
    ensures !s[i].matches
  {
    var j := Locate(s, i, all);
  }

  lemma {:induction false} AcceptedIsUnmatched(records: seq<Record>, sta: seq<Ap>, needsFull: bool)
    ensures forall i :: 0 <= i < |Accepted(records, sta, needsFull)| ==>
              !Accepted(records, sta, needsFull)[i].matches && Accepted(records, sta, needsFull)[i].priority == 0
  {
    if records != [] {
      AcceptedIsUnmatched(records[..|records| - 1], sta, needsFull);
    }
  }

  /** What the store holds is as the driver handler made it: not marked, without a priority. */
  lemma StoredIsUnmarked(kept: seq<ScanResult>, dropped: seq<ScanResult>, records: seq<Record>, sta: seq<Ap>,
                         needsFull: bool, k: nat)
    requires Strongest(kept, dropped, Accepted(records, sta, needsFull), k)
    ensures forall i :: 0 <= i < |kept| ==> !kept[i].matches && kept[i].priority == 0
  {
    AcceptedIsUnmatched(records, sta, needsFull);
    forall i | 0 <= i < |kept| ensures !kept[i].matches && kept[i].priority == 0 {
      assert (kept + dropped)[i] == kept[i];
      var j := Locate(kept + dropped, i, Accepted(records, sta, needsFull));
    }
  }

  lemma {:induction false} AcceptedIsCopied(records: seq<Record>, sta: seq<Ap>, needsFull: bool, i: nat)
    requires i < |Accepted(records, sta, needsFull)|
    ensures
      var e := Accepted(records, sta, needsFull)[i];
      && (exists k :: 0 <= k < |records| && CopyOf(e, records[k]))
      && (needsFull || (e.ssid != "" && Configured(sta, e.ssid, e.bssid)))
  {
    var n := |records| - 1;
    if i < |Accepted(records[..n], sta, needsFull)| {
      AcceptedIsCopied(records[..n], sta, needsFull, i);
      var k :| 0 <= k < n && CopyOf(Accepted(records[..n], sta, needsFull)[i], records[..n][k]);
      assert records[k] == records[..n][k];
    } else {
      assert CopyOf(Fresh(records[n]), records[n]);
    }
  }

  lemma {:induction false} CopyIsAccepted(records: seq<Record>, sta: seq<Ap>, needsFull: bool, k: nat) returns (i: nat)
    requires k < |records|
    requires needsFull || (records[k].ssid != "" && Configured(sta, records[k].ssid, records[k].bssid))
    ensures i < |Accepted(records, sta, needsFull)| && CopyOf(Accepted(records, sta, needsFull)[i], records[k])
  {
    var n := |records| - 1;
    if k < n {
      i := CopyIsAccepted(records[..n], sta, needsFull, k);
    } else {
      i := |Accepted(records[..n], sta, needsFull)|;
    }
  }

  /** All that is stored was delivered, and is of interest unless everything is asked for. */
  ghost predicate OnlyDelivered(stored: seq<ScanResult>, records: seq<Record>, sta: seq<Ap>, needsFull: bool) {
    forall i :: 0 <= i < |stored| ==>
      && (exists k :: 0 <= k < |records| && CopyOf(stored[i], records[k]))
      && (needsFull || (stored[i].ssid != "" && Configured(sta, stored[i].ssid, stored[i].bssid)))
  }

  /** All that is of interest was stored. */
  ghost predicate AllStored(stored: seq<ScanResult>, records: seq<Record>, sta: seq<Ap>, needsFull: bool) {
    forall k :: 0 <= k < |records| &&
                (needsFull || (records[k].ssid != "" && Configured(sta, records[k].ssid, records[k].bssid))) ==>
      exists i :: 0 <= i < |stored| && CopyOf(stored[i], records[k])
  }

  /**
   * What a scan leaves in the store: the strongest records of interest; of a scan that the driver filtered at most a
   * dozen; all of interest if it did not filter, or if they are no more than a dozen; and nothing else.
   */
  ghost predicate Stores(stored: seq<ScanResult>, dropped: seq<ScanResult>, number: nat, records: seq<Record>,
                         sta: seq<Ap>, needsFull: bool, filtered: bool)
  {
    && Strongest(stored, dropped, Accepted(records, sta, needsFull), Wanted(number, filtered))
    && OnlyDelivered(stored, records, sta, needsFull) && (filtered ==> |stored| <= 12)
    && (!filtered || |Accepted(records, sta, needsFull)| <= 12 ==> AllStored(stored, records, sta, needsFull))
  }

  lemma StoredIsDelivered(kept: seq<ScanResult>, dropped: seq<ScanResult>, records: seq<Record>, sta: seq<Ap>,
                          needsFull: bool, k: nat)
    requires Strongest(kept, dropped, Accepted(records, sta, needsFull), k)
    ensures OnlyDelivered(kept, records, sta, needsFull)
  {
    var all := Accepted(records, sta, needsFull);
    forall i | 0 <= i < |kept|
      ensures (exists k :: 0 <= k < |records| && CopyOf(kept[i], records[k]))
      ensures needsFull || (kept[i].ssid != "" && Configured(sta, kept[i].ssid, kept[i].bssid))
    {
      assert (kept + dropped)[i] == kept[i];
      var j := Locate(kept + dropped, i, all);
      AcceptedIsCopied(records, sta, needsFull, j);
    }
  }

  lemma DeliveredIsStored(records: seq<Record>, sta: seq<Ap>, needsFull: bool)
    ensures AllStored(Accepted(records, sta, needsFull), records, sta, needsFull)
  {
    forall k | 0 <= k < |records| &&
               (needsFull || (records[k].ssid != "" && Configured(sta, records[k].ssid, records[k].bssid)))
      ensures exists i :: 0 <= i < |Accepted(records, sta, needsFull)| &&
                          CopyOf(Accepted(records, sta, needsFull)[i], records[k])
    {
      var i := CopyIsAccepted(records, sta, needsFull, k);
    }
  }

  /** Belonging to a visible network that names an SSID or a BSSID is enough to be of interest. */
  lemma BelongingIsConfigured(r: Record, sta: seq<Ap>, k: nat)
    requires k < |sta| && !sta[k].hidden && (sta[k].ssid != "" || sta[k].bssid != 0) && Belongs(Fresh(r), sta[k])
    ensures Configured(sta, r.ssid, r.bssid)
  {
  }

  lemma AppendKeepsFilled(kept: seq<ScanResult>, dropped: seq<ScanResult>, all: seq<ScanResult>, k: nat, x: ScanResult)
    requires Filled(kept, dropped, all, k) && |kept| < k
    ensures Filled(kept + [x], dropped, all + [x], k) && dropped == []
  {
    SameSize(kept + dropped, all);
    assert kept + dropped == kept && (kept + [x]) + dropped == kept + [x];
    assert dropped == [];
  }

  /** Replacing the weakest of a full store by a stronger newcomer keeps the strongest. */
  lemma ReplaceKeepsFilled(kept: seq<ScanResult>, dropped: seq<ScanResult>, all: seq<ScanResult>, k: nat, w: nat,
                              x: ScanResult)
    requires Filled(kept, dropped, all, k) && |kept| == k
    requires w < |kept| && forall j :: 0 <= j < |kept| ==> kept[w].rssi <= kept[j].rssi
    requires x.rssi > kept[w].rssi
    ensures Filled(kept[w := x], dropped + [kept[w]], all + [x], k)
  {
    var swapped := kept[w := x];
    var out := dropped + [kept[w]];
    assert multiset(swapped) == multiset(kept) - multiset{kept[w]} + multiset{x};
    assert multiset(swapped + out) == multiset(swapped) + multiset(dropped) + multiset{kept[w]};
    assert multiset(kept + dropped) == multiset(kept) + multiset(dropped);
    assert multiset(all + [x]) == multiset(all) + multiset{x};
    FullStoreFits(kept, dropped, all, k);
    forall i, j | 0 <= i < |out| && 0 <= j < |swapped| ensures out[i].rssi <= swapped[j].rssi {
      assert i < |dropped| ==> dropped[i].rssi <= kept[w].rssi;
    }
  }

  /** A newcomer no stronger than the weakest of a full store is dropped. */
  lemma DropKeepsFilled(kept: seq<ScanResult>, dropped: seq<ScanResult>, all: seq<ScanResult>, k: nat, w: nat,
                           x: ScanResult)
    requires Filled(kept, dropped, all, k) && |kept| == k
    requires w < |kept| && forall j :: 0 <= j < |kept| ==> kept[w].rssi <= kept[j].rssi
    requires x.rssi <= kept[w].rssi
    ensures Filled(kept, dropped + [x], all + [x], k)
  {
    assert kept + (dropped + [x]) == (kept + dropped) + [x];
    assert multiset((kept + dropped) + [x]) == multiset(kept + dropped) + multiset{x};
    assert multiset(all + [x]) == multiset(all) + multiset{x};
    FullStoreFits(kept, dropped, all, k);
    var out := dropped + [x];
    forall i, j | 0 <= i < |out| && 0 <= j < |kept| ensures out[i].rssi <= kept[j].rssi {
      assert i < |dropped| ==> out[i] == dropped[i];
    }
  }

  lemma FullStoreFits(kept: seq<ScanResult>, dropped: seq<ScanResult>, all: seq<ScanResult>, k: nat)
    requires Filled(kept, dropped, all, k) && |kept| == k
    ensures k <= |all|
  {
  }

  /** Entry `w` is no stronger than any other, and weaker than all before it. */
  predicate FirstWeakest(stored: seq<ScanResult>, w: nat)
    requires w < |stored|
  {
    && (forall j :: 0 <= j < |stored| ==> stored[w].rssi <= stored[j].rssi)
    && (forall j :: 0 <= j < w ==> stored[w].rssi < stored[j].rssi)
  }

  /** Position of the first entry no stronger than any other. */
  method FindWeakest(stored: seq<ScanResult>) returns (weakest: nat)
    requires stored != []
    ensures weakest < |stored| && FirstWeakest(stored, weakest)
  {
    weakest := 0;
    for k := 0 to |stored|
      invariant weakest < |stored| && weakest <= k
      invariant forall j :: 0 <= j < k ==> stored[weakest].rssi <= stored[j].rssi
      invariant forall j :: 0 <= j < weakest ==> stored[weakest].rssi < stored[j].rssi
    {
      if stored[k].rssi < stored[weakest].rssi {
        weakest := k;
      }
    }
  }

  /**
   * Puts one accepted entry into the store. A full store replaces its first weakest entry by a stronger newcomer.
   */
  method Keep(stored: seq<ScanResult>, ghost dropped: seq<ScanResult>, ghost all: seq<ScanResult>, wanted: nat,
              entry: ScanResult) returns (stored': seq<ScanResult>, ghost dropped': seq<ScanResult>)
    requires wanted > 0 && Filled(stored, dropped, all, wanted)
    ensures Filled(stored', dropped', all + [entry], wanted)
    ensures |stored| < wanted ==> stored' == stored + [entry]
    ensures |stored| == wanted ==>
              if forall j :: 0 <= j < |stored| ==> entry.rssi <= stored[j].rssi then stored' == stored
              else exists w :: 0 <= w < |stored| && FirstWeakest(stored, w) && stored' == stored[w := entry]
  {
    if |stored| < wanted {
      AppendKeepsFilled(stored, dropped, all, wanted, entry);
      return stored + [entry], dropped;
    }
    var weakest := FindWeakest(stored);
    if entry.rssi <= stored[weakest].rssi {
      DropKeepsFilled(stored, dropped, all, wanted, weakest, entry);
      return stored, dropped + [entry];
    }
    ReplaceKeepsFilled(stored, dropped, all, wanted, weakest, entry);
    return stored[weakest := entry], dropped + [stored[weakest]];
  }

  /** Walks the delivered records (fewer than `number` when the driver fails on one) and fills the store. */
  method StoreScan(number: nat, records: seq<Record>, sta: seq<Ap>, needsFull: bool, filtered: bool)
    returns (stored: seq<ScanResult>, ghost dropped: seq<ScanResult>)
    requires |records| <= number
    ensures Stores(stored, dropped, number, records, sta, needsFull, filtered)
    ensures !filtered ==> stored == Accepted(records, sta, needsFull)
  {
    var wanted := Wanted(number, filtered);
    stored, dropped := [], [];
    ghost var all: seq<ScanResult> := [];
    for i := 0 to |records|
      invariant all == AcceptedOf(records, i, sta, needsFull)
      invariant Filled(stored, dropped, all, wanted)
    {
      AcceptOne(records, i, sta, needsFull);
      if needsFull || MatchesConfigured(sta, records[i]) {
        stored, dropped := Keep(stored, dropped, all, wanted, Fresh(records[i]));
        all := all + [Fresh(records[i])];
      }
    }
    AcceptedFits(records, sta, needsFull);
    SameSize(stored + dropped, all);
    StoredIsDelivered(stored, dropped, records, sta, needsFull, wanted);
    DeliveredIsStored(records, sta, needsFull);
  }

  ghost function AcceptedOf(records: seq<Record>, i: nat, sta: seq<Ap>, needsFull: bool): seq<ScanResult>
    requires i <= |records|
  {
    Accepted(records[..i], sta, needsFull)
  }

  lemma AcceptOne(records: seq<Record>, i: nat, sta: seq<Ap>, needsFull: bool)
    requires i < |records|
    ensures AcceptedOf(records, i + 1, sta, needsFull) == AcceptedOf(records, i, sta, needsFull) +
            (if needsFull || MatchesConfigured(sta, records[i]) then [Fresh(records[i])] else [])
  {
    assert records[..i + 1][..i] == records[..i];
  }

  lemma {:induction false} AcceptedFits(records: seq<Record>, sta: seq<Ap>, needsFull: bool)
    ensures |Accepted(records, sta, needsFull)| <= |records|
    ensures AcceptedOf(records, |records|, sta, needsFull) == Accepted(records, sta, needsFull)
  {
    assert records[..|records|] == records;
    if records != [] {
      AcceptedFits(records[..|records| - 1], sta, needsFull);
    }
  }
}
