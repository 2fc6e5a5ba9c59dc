# Verified model of Marsrelay

Marsrelay keeps a Marstek battery talking to its owner: it runs a WiFi access point next to a station connection,
an MQTT broker, a TLS front end that answers the battery's cloud uploads, a UDP proxy to the power meter and a
captive DNS server. This project models the parts of that firmware where a mistake would show only after hours,
and proves what they promise over whole runs. It covers the ESP32-S3 build: no exclusive access point, scan results
not kept after use, a fixed list of 1 to 127 networks.

Each part comes as functions on values that say what happens, and, where the firmware updates fields, loops over
arrays or edits a buffer, as a class or method with the same fields and branches that is proved equal to those
functions. Where a theorem rests on an invariant of every run, that invariant is `Valid()` of the class, and the methods
called from outside keep it.

- `WifiTypes`, `ScanSort`, `ScanStore`, `ScanList`: scan results, the stable in-place sort, the bounded store of the
  strongest entries, and the one entry per network name that the portal shows.
- `RetrySpec`: the reconnect machine. `RetryBound`: every cycle of failures ends. `RetryPhases`, `RetryCoverage`,
  `RetryUnstarted`: no network is forgotten. `RetryFairness`: no access point starves. `RetrySync`: which scan results
  are read, and that attempts use matching index and scan result. `Penalties`: who loses a point. `ScanOutcome`: from
  the records of the driver to the attempt that a scan leads to.
- `Roaming`: post-connect roaming together with the reconnect machine. `ActionClock`: how long cooldowns, scans and
  attempts are given, in true time. `Credentials`: whose password is sent.
  `WifiComponents`: both machines in place, as a class.
- `RadioMode`: the mode of the radio, and how long the access point stays up.
- `Topics`, `IdMapping`, `TopicTranslation`: the two id translators and the validator that makes them invertible.
- `BrokerSupervisor`: the main loop and the broker task, interleaved step by step.
- `RequestReader`, `RequestRoundTrip`, `HeldConnections`, `Handoff`, `HttpFraming`, `QueryStrings`: the TLS front end
  and its framing.
- `UdpSessions`: the proxy's session table as a refinement of the history of activity.
- `Dns`, `DnsResponder`: a decoder after RFC 1035, and the responder that edits one buffer in place.
- `Millis`, `Text`, `Bags`, `Basics`: the wrapping clock, searching in text, members of sequences, optional values.

Driver calls, clocks, random numbers and the peer are parameters that may take any value at every call. `millis()`
is a true time taken modulo 2^32; where a comparison of readings is only right for bounded gaps, the bound is a
premise.

Checking: `dafny verify dfyconfig.toml`.

## What the code does other than it seems to

- The comments on the retry counts and on the penalty (`components/wifi/wifi_component.cpp:366`, `:2158`) say only
  SCAN_CONNECTING lowers a priority. The code also lowers the priority of a BSSID that is configured for the selected
  network, at every failure of every other phase except RESTARTING_ADAPTER. `Penalties.PenalisedExactly` says exactly
  who is charged, `Penalties.HiddenNetworkIsCharged` shows a run from boot in which a BSSID loses a point before any
  scan. The coverage and fairness theorems say where no BSSID may be configured.
- The comment on the penalty calls it one for a failed connection (`components/wifi/wifi_component.cpp:2144`). A BSSID
  can be charged without an attempt: a scan that does not start or runs out of time while results of an earlier one
  are at hand costs their first BSSID a point at its second failure, and a start's first scan that fails costs the
  BSSID configured for whatever network is selected one. In every run, unless a stray scan replaces results under an
  attempt, these are the only such charges, and nothing at all has been tried then
  (`Penalties.ChargedForAttemptsExactly`). `Penalties.UntriedBestIsCharged` is a run from boot
  in which it happens, `RetryUnstarted.MatchAtHandPaysUntried` the family of cycles in which it must.
- With every configured priority at -128 the table is dropped before the penalty is taken, which then counts from 0:
  the first access point to fail outranks all others for 127 cycles (`RetryFairness.OneBssidTakesAll`). With a single
  priority above -128 the shares are fair (`RetryFairness.FairShare`).
- The comment at `components/wifi/wifi_component.cpp:2057` takes the selected network to be in step with scan results
  that are at hand. Results left over when a connection or the last fast-connect attempt is lost are used as they are,
  unsorted and unmarked, so the password of one network can be sent with the name of another. In every run this is the
  only way: outside it every attempt at a scan result is properly paired, and after it an attempt is exactly when
  the first result happens to belong to the selected network (`RetrySync.OnlyLeftoversMismatch`; per state
  `RetrySync.LeftoversArePairedExactly`). A connection lost during a roaming scan is a run from boot in which it
  happens (`RetrySync.LossDuringRoamScanMixesNetworks`).
- The mode the driver is set to keeps naming the access point exactly if the radio was started
  (`RadioMode.ModeKeptIffStarted`); after a failed first start the next use of the station drops it
  (`RadioMode.FailedStartDropsMode`). What is on the air is not affected.
- `disable()` does not reset `ap_setup_`: an access point that is down comes back in some run exactly if it does not
  count as set up (`RadioMode.ComesBackExactly`), so disabling loses it for good exactly if it counts as set up and
  either the driver obeys or it was down already (`RadioMode.DisablingLosesAp`).
- The DNS reply copies NSCOUNT and ARCOUNT but not the records, so it can be decoded exactly when the request has
  neither (`DnsResponder.ReplyDecodesExactly`). A request with an OPT record gets a reply that ends too early.
- The header limit is only looked at between reads, so a block that ends up to one read beyond it is taken or refused
  depending on how it arrives (`RequestReader.LongHeaderDependsOnCuts`).
- The search for a header field also looks at the request line. A method that looks like a field, such as
  `Content-Length:1`, is taken for one (`RequestRoundTrip.FramingExactly`), and such a request is read to its end only
  if that length is 0 (`RequestRoundTrip.MethodLikeFieldIsMisread`, `RequestRoundTrip.SuchAMethod`). It has a colon, so
  it is no method by section 9.1 of RFC 9110.
- A hold time above 2^31 ms closes connections in the next sweep (`HeldConnections.LongHoldsEndAtOnce`); the schema
  allows such a value.

## Model

| member | source | states |
|---|---|---|
| WifiTypes.FirstOwnerIsFirst | components/wifi/wifi_component.cpp:1655-1664 | the network a result is given to is the first configured one it matches |
| ScanSort.BetterIsStrictWeakOrder | components/wifi/wifi_component.cpp:1499-1514 | the comparator compares one number, in which a match counts most, then the priority, then the signal, for matching and other results alike; so it is irreflexive, asymmetric and transitive, and so is being tied |
| ScanSort.SortIsStablePermutation | components/wifi/wifi_component.cpp:1539-1576 | sorting keeps every entry exactly once, orders them, and keeps the order of tied entries |
| ScanSort.StableOrderIsUnique | components/wifi/wifi_component.cpp:1516-1519 | a stable order of given entries is unique, so the three properties above determine the result |
| ScanSort.BestComesFirst | components/wifi/wifi_component.cpp:1650-1654 | entry 0 of the sorted results is a member of the scan; it matches if any does, has the highest priority among matches, and the strongest signal among matches of that priority, or among all if none matches |
| ScanSort.EarlierOutranksLater | components/wifi/wifi_component.cpp:1499-1514 | the same holds between any two of the sorted results |
| ScanSort.InsertInPlace | components/wifi/wifi_component.cpp:1560-1574 | the inner loop shifts worse entries right and drops the key into the gap: the sorted prefix grows by one |
| ScanSort.SortScanResults | components/wifi/wifi_component.cpp:1539-1576 | the in-place loops leave exactly the insertion sort of the array |
| ScanStore.FindWeakest | components/wifi/wifi_component_esp_idf.cpp:983-987 | finds the first entry no stronger than any other |
| ScanStore.Keep | components/wifi/wifi_component_esp_idf.cpp:973-995 | one more record is appended, dropped, or replaces the first weakest entry, and the store still holds the strongest |
| ScanStore.StoreScan | components/wifi/wifi_component_esp_idf.cpp:933-996 | for every record sequence the store holds min(wanted, accepted) entries, at most 12 of a filtered scan, none weaker than a dropped one; each is a delivered record field by field, with a key exactly if not open and hidden exactly if it names no network; unless full results are wanted a visible network configures its SSID or, naming none, its BSSID; and every such record is stored if the driver did not filter or no more than 12 are of interest |
| ScanStore.StoredIsDelivered | components/wifi/wifi_component.cpp:516-531 | nothing is stored that was not delivered, or that no visible network configures unless everything is wanted |
| ScanStore.DeliveredIsStored | components/wifi/wifi_component.cpp:516-531 | every delivered record that a visible network configures is accepted |
| ScanStore.StrongestFixesSignals | components/wifi/wifi_component_esp_idf.cpp:980-995 | keeping the strongest fixes, at every level, how many stored entries are at least that strong |
| ScanStore.AgreesWithSortAndTake | components/wifi/wifi_component_esp_idf.cpp:980-995 | the stream store keeps the same signal strengths as sorting all accepted records and taking the first ones |
| ScanList.ShouldShowScanEntry | components/wifi/scan_list.h:11-26 | shows an entry iff it is visible and no entry of its SSID outdoes it; the key flag is set iff any of them needs a key |
| ScanList.OneEntryPerNetwork | components/wifi/scan_list.h:6-9 | every visible SSID is shown by exactly one entry, its strongest, the earliest on ties |
| RetrySpec.HiddenPrefixIsMaximal | components/wifi/wifi_component.cpp:354-364 | the hidden prefix is hidden throughout and the network after it is not |
| RetrySpec.NextCandidateIsFirst | components/wifi/wifi_component.cpp:562-606 | the next hidden candidate is a candidate and every network skipped before it is not |
| RetryBound.MoveOnBurnsFuel | components/wifi/wifi_component.cpp:1874-2109 | from every reachable state each choice of next phase, with its set-up, lowers the measure and keeps the invariant |
| RetryBound.RetryBurnsFuel | components/wifi/wifi_component.cpp:2278-2327 | each failure uses up fuel; leaving the adapter restart begins a cycle below the bound |
| RetryBound.ScanFinishedKeepsFuel | components/wifi/wifi_component.cpp:1602-1687 | a finished scan with results, matched or not, never adds fuel |
| RetryBound.FollowKeepsBudget | components/wifi/wifi_component.cpp:800-892 | for any event, failures so far plus fuel left stay within the bound, taken once more for every scan that ended unasked |
| RetryBound.StartUpIsSound | components/wifi/wifi_component.cpp:689-770 | a start from any state, after boot or after disabling with stale results, flags, index and penalties, satisfies the invariant within the bound |
| RetryBound.EveryCycleEnds | components/wifi/wifi_component.cpp:1874-2327 | for every configuration and event sequence, with starts, losses, disabling and stray scans wherever they fall: at most 2n+4 failures (3n+4 with fast connect) between starts, connections and adapter restarts, and as many again per stray scan; the index stays in -1..n-1 and the retry counter at most 1 |
| RetrySync.AttemptsStayInStep | components/wifi/wifi_component.cpp:1650-1687 | in every run, from a matching scan until SCAN_CONNECTING is left or a stray scan ends, each attempt uses the best scan result with a configuration that it matches |
| RetrySync.MatchPutsInStep | components/wifi/wifi_component.cpp:1621-1687 | a matching scan puts the best result first, selects its network and connects with both |
| RetrySync.ResultsAreTheLatest | components/wifi/wifi_component.cpp:1459-1464 | in every run a finished scan is read with the results of the last scan that ended, or with none, never with earlier ones |
| RetrySync.StartedScanIsAwaited | components/wifi/wifi_component_esp_idf.cpp:1068-1111 | once a scan has started, no results are read until one ends, whatever else happens |
| RetrySync.LeftoversArePairedExactly | components/wifi/wifi_component.cpp:2051-2060 | a failure that enters SCAN_CONNECTING makes an attempt at once iff results are left over and a network is selected; it is properly paired iff the first result belongs to that network |
| RetrySync.OnlyLeftoversMismatch | components/wifi/wifi_component.cpp:2051-2060 | in every run every attempt at a scan result uses a network that it belongs to, except after a failure that met leftover results, where it does so iff they happen to belong together |
| RetrySync.WithoutLeftoversAllPair | components/wifi/wifi_component.cpp:2051-2060 | if no failure of a run finds leftover results, no attempt sends one network's password under another's name |
| RetrySync.LossDuringRoamScanMixesNetworks | components/wifi/wifi_component.cpp:2618-2634 | a run from boot in which results left by a roaming scan are paired with another network's password |
| ScanOutcome.StrongestOfTopIsTried | components/wifi/wifi_component.cpp:1621-1687 | a scan with any result of a configured network, read in INITIAL_CONNECT or SCAN_CONNECTING, is followed at once by an attempt at the strongest access point among those of the highest priority, for the first network it belongs to |
| ScanOutcome.EveryMatchIsTried | components/wifi/wifi_component.cpp:1602-1687 | in every run each finished scan with such a result leads there |
| ScanOutcome.NothingOwnedNothingTried | components/wifi/wifi_component.cpp:1668-1687 | a scan without one leads to RETRY_HIDDEN and to no attempt at a scan result |
| ScanOutcome.DeliveredIsTried | components/wifi/wifi_component_esp_idf.cpp:933-996 | if the driver delivered a record with an SSID that belongs to a visible network naming an SSID or BSSID, and all records of interest were stored, the scan ends in such an attempt |
| Penalties.PenalisedExactly | components/wifi/wifi_component.cpp:2162-2209 | from every state and phase, a BSSID above the minimum loses its point iff the failure is charged to it, and then exactly one: a second failure in SCAN_CONNECTING is charged to the first result at hand, tried or not; one without results, or in another phase than RESTARTING_ADAPTER, to the BSSID configured for the selected network |
| Penalties.ChargedForAttemptsExactly | components/wifi/wifi_component.cpp:2162-2209 | in every run a BSSID that is charged answers for the latest attempt, made since the last start or entry into SCAN_CONNECTING, iff neither results of an earlier scan are at hand without a selected network nor a start waits for its first scan; in those two cases no attempt has been made since; results replaced under an attempt are left aside |
| Penalties.UntriedBestIsCharged | components/wifi/wifi_component.cpp:2162-2209 | a run from boot in which a scan that does not start runs out of time twice and the best BSSID of the scan before loses a point with no attempt in between |
| RetryUnstarted.MatchAtHandPaysUntried | components/wifi/wifi_component.cpp:1921-1943 | whenever the adapter restarts with a matching result at hand and the driver starts no scan, the failing cycle takes a point off that BSSID and tries no scan result |
| Penalties.RestartChargesNobody | components/wifi/wifi_component.cpp:2187-2200 | the end of a restart's cooldown lowers no priority |
| Penalties.HiddenNetworkIsCharged | components/wifi/wifi_component.cpp:366 | a run from boot in which a BSSID loses a point outside SCAN_CONNECTING, against the comment |
| RetryPhases.HiddenPhase | components/wifi/wifi_component.cpp:2235-2265 | RETRY_HIDDEN, blind or after a scan, tries exactly the candidates after the current one, in order, once each, then restarts |
| RetryPhases.ScanAttemptsFail | components/wifi/wifi_component.cpp:1921-1943 | the best result is tried once more, then the hidden candidates; two failures cost its BSSID one point |
| RetryPhases.ExplicitPhase | components/wifi/wifi_component.cpp:1892-1912 | EXPLICIT_HIDDEN tries the rest of the hidden prefix in order, then scans, or restarts if all networks are hidden |
| RetryCoverage.FastPhase | components/wifi/wifi_component.cpp:1876-1891 | fast connect tries every network after the selected one in order, once each, and then the search begins, whether its scan starts or not |
| RetryCoverage.LeftoversFail | components/wifi/wifi_component.cpp:2051-2060 | with leftover results the cycle tries the first of them, again if it was marked, and then the hidden candidates they leave; no scan is asked for |
| RetryCoverage.CycleCoverage | components/wifi/wifi_component.cpp:1874-1958 | a failing cycle after an adapter restart, a lost connection or a failed first attempt tries exactly: with fast connect the later networks; the maximal hidden prefix in order once each; if the scan starts the best result twice and every later unseen or hidden-configured network in order once each; if it does not, the later networks that what is at hand does not show; under provisioning all networks blindly, and leftover results in place of a scan; and leaves exactly the stated priority table |
| RetryCoverage.StartCoverage | components/wifi/wifi_component.cpp:739-762 | the same for the first cycle of every start, its scan started or not: saved network or first network and then such a cycle, or the hidden prefix, or the scan |
| RetryCoverage.HiddenAttemptsCover | components/wifi/wifi_component.cpp:585-602 | network k is tried in RETRY_HIDDEN iff it lies after the prefix and the search is blind or its SSID is configured hidden or was not in the scan |
| RetryCoverage.HiddenAttemptsComeLater | components/wifi/wifi_component.cpp:2241-2256 | those attempts come in configuration order, none twice |
| RetryCoverage.OnlyOutrankedGoUntried | components/wifi/wifi_component.cpp:2063-2078 | a network goes untried in such a cycle only if the scan, or what was at hand in its place, showed its SSID, it is not configured hidden, and the best result was given to another network, to none, or not tried as no scan started |
| RetryCoverage.OnlyOutrankedGoUntriedAtStart | components/wifi/wifi_component.cpp:689-770 | the same for the first cycle of every start |
| RetryUnstarted.UnstartedCoverage | components/wifi/wifi_component.cpp:2063-2073 | while the driver starts no scan, a failing cycle after an adapter restart or a lost connection tries exactly, after the saved networks of fast connect, the hidden prefix and then all other networks blindly, in order, once each, and leaves exactly the table in which a matching result at hand has lost a point |
| RetryUnstarted.UnstartedForgetsNone | components/wifi/wifi_component.cpp:2063-2073 | no network goes untried in such a cycle |
| RetryFairness.BestHasTopPriority | components/wifi/wifi_component.cpp:1621-1641 | after a scan of the known BSSIDs the table holds all of them and the first result has the highest priority |
| RetryFairness.TwoAttemptsOnePenalty | components/wifi/wifi_component.cpp:2162-2209 | a failing cycle whose scan runs, after an adapter restart, a lost connection, a failed first attempt or at a start, tries its best BSSID exactly twice, the other networks exactly as CycleCoverage says, and takes one point off it, dropping a table of minima |
| RetryFairness.FairShare | components/wifi/wifi_component.cpp:2120-2209 | from an empty table, as after a clear, a connection or boot, to the next clear every BSSID is penalised exactly p+128 times, the table is cleared neither earlier nor later, and equal priorities never drift more than one penalty apart, whatever the scans' order and signals |
| RetryFairness.NoBudgetIffAllMin | components/wifi/wifi_component.cpp:2120-2142 | no points are left at the start iff every configured priority is -128 |
| RetryFairness.OneBssidTakesAll | components/wifi/wifi_component.cpp:2120-2142 | if every configured priority is -128, from any such beginning one BSSID alone is tried and penalised for 127 cycles |
| RetryFairness.BootBeginsAnew | components/wifi/wifi_component.cpp:689-770 | every way to boot is such a beginning, with its scan still ahead |
| RetryFairness.LossBeginsAnew | components/wifi/wifi_component.cpp:1800-1812 | in every run a connection that is lost without leftover results is such a beginning |
| Roaming.BestOtherIsFirstStrongest | components/wifi/wifi_component.cpp:2639-2654 | the roam candidate is the first strongest entry with the same SSID and another BSSID |
| Roaming.RoamsExactlyForGain | components/wifi/wifi_component.cpp:2656-2681 | for signals up to 0 dBm a target is chosen iff some other access point is at least 10 dB stronger |
| Roaming.PassScansExactly | components/wifi/wifi_component.cpp:880-892 | a pass over an idle connection starts a roaming scan iff roaming is enabled and not suppressed, 300000 ms have passed since the last check, fewer than 3 attempts are counted, the selected network is visible, the signal is at most -49 dBm and the driver starts the scan |
| Roaming.PassCountsExactly | components/wifi/wifi_component.cpp:2590-2611 | it counts a check iff one is due, also when the signal is good, and for a hidden network ends all checks |
| Roaming.ForcedScansExactly | components/wifi/wifi_component.cpp:2579-2611 | a forced check starts a scan iff the station is connected and idle, roaming not suppressed, the network visible, the signal at most -49 dBm and the driver starts it, whatever was counted before |
| Roaming.CheckIsTimely | components/wifi/wifi_component.h:915 | the interval between checks is never shorter in true time, and exact below 2^32 ms |
| Roaming.ReadRoamsExactly | components/wifi/wifi_component.cpp:2618-2682 | a finished roaming scan leads to an attempt iff some other access point of the network is at least 10 dB stronger; its results are released either way |
| Roaming.RoamsToStrongest | components/wifi/wifi_component.cpp:2639-2682 | that attempt is at a strongest other access point, with the configuration of the selected network |
| Roaming.NoSignalNoRoam | components/wifi/wifi_component.cpp:2627-2634 | at -127 dBm, which says the station is not connected, no attempt is made and the results are released |
| Roaming.FailureKeepsAttemptsExactly | components/wifi/wifi_component.cpp:2278-2302 | a failure keeps the counted attempts iff a roam, a roaming scan or the reconnection after one was under way, or a scan ended less than 30000 ms before; otherwise roaming starts afresh |
| Roaming.ConnectionKeepsAttemptsExactly | components/wifi/wifi_component.cpp:1770-1803 | a connection keeps them iff it comes after a failed roam and not to its target |
| Roaming.ProceedCounts | components/wifi/wifi_component.cpp:2278-2302 | no event lowers the attempts unless it resets them, every scan started is counted, a roaming scan starts only while connected |
| Roaming.NoPingPong | components/wifi/wifi_component.cpp:880-892 | in every run the attempts stay at most 3 and at most three roaming scans start between two resetting events, whatever the mix of failed roams, lost scans, late disconnects, disabling and new credentials |
| Roaming.ReconnectRunsInside | components/wifi/wifi_component.cpp:800-900 | with roaming around it the reconnect machine still makes one of its runs, so its index and counters stay in range |
| ActionClock.PassIsInTime | components/wifi/wifi_component.cpp:830-847 | no pass leaves a cooldown before more than 500 ms are over, 30000 ms with portal or provisioning, gives up a scan before 31000 ms or an attempt before 46000 ms, in true time whatever the clock wraps; once that time is over, below 2^32 ms, it does |
| ActionClock.LinkChangesWithAction | components/wifi/wifi_component.cpp:1327-1343 | every step that enters a cooldown, a scan or an attempt begins an action, so the time counts from there, except a lost connection with nothing to try |
| ActionClock.MoveOnBegins | components/wifi/wifi_component.cpp:2304-2327 | a failure begins one of the three unless there is nothing to try, and then leaves the link as it is |
| Credentials.AttemptsAreConfigured | components/wifi/wifi_component.cpp:1327-1343 | in every run, roaming and restarts of the component included, each attempt is made for a configured network with the password of that network; hidden networks are probed without BSSID and channel, fast connect uses the configuration as it is, and none is made while the adapter restarts |
| WifiComponents.WifiComponent.constructor | components/wifi/wifi_component.h:900-990 | a new object stands for the state before start: nothing tried, nothing known, no roaming; it is valid |
| WifiComponents.WifiComponent.HasStaPriority | components/wifi/wifi_component.h:543-549 | the search over the list agrees with membership in the table the list stands for |
| WifiComponents.WifiComponent.GetStaPriority | components/wifi/wifi_component.h:550-556 | the search over the list agrees with the table, 0 for unknown BSSIDs |
| WifiComponents.WifiComponent.SetStaPriority | components/wifi/wifi_component.cpp:536-547 | the list never gets two entries for a BSSID, and its table changes in this one entry |
| WifiComponents.WifiComponent.ClearPrioritiesIfAllMin | components/wifi/wifi_component.cpp:2120-2142 | drops the list iff all entries are at the minimum |
| WifiComponents.WifiComponent.AdjustPriorityForFailedConnect | components/wifi/wifi_component.cpp:2162-2209 | refines Penalise, the step FairShare counts: one point off the BSSID that is charged, on the last attempt the phase allows, nothing else touched |
| WifiComponents.WifiComponent.FindFirstNonHiddenIndex | components/wifi/wifi_component.cpp:354-364 | finds the end of the maximal hidden prefix, -1 if all networks are hidden |
| WifiComponents.WifiComponent.SsidWasSeenInScan | components/wifi/wifi_component.cpp:462-479 | an SSID counts as seen iff it is in the scan and not configured hidden |
| WifiComponents.WifiComponent.FindNextHiddenSta | components/wifi/wifi_component.cpp:562-606 | the loop with its skips finds the first candidate after the index, the order CycleCoverage is about |
| WifiComponents.WifiComponent.BuildParamsForCurrentPhase | components/wifi/wifi_component.cpp:1158-1199 | the parameters carry the password of the selected network and reach exactly: in hidden phases every access point of its name, BSSID and channel left open; in SCAN_CONNECTING only the best result; else those of the configuration |
| WifiComponents.WifiComponent.DetermineNextPhase | components/wifi/wifi_component.cpp:1874-2002 | returns the choice that MoveOnBurnsFuel shows to lower the measure, and changes nothing |
| WifiComponents.WifiComponent.TransitionToPhase | components/wifi/wifi_component.cpp:2013-2109 | refines the phase set-up on every field, tells the caller to wait exactly when a scan or a cooldown began, and then notes the time |
| WifiComponents.WifiComponent.AdvanceToNextTargetOrIncrementRetry | components/wifi/wifi_component.cpp:2221-2276 | refines the move within a phase: next network of the phase, or one more try of the same |
| WifiComponents.WifiComponent.MarkScanResults | components/wifi/wifi_component.cpp:1621-1640 | marks the matching results, enters unknown BSSIDs and copies priorities, in order |
| WifiComponents.WifiComponent.RetryConnect | components/wifi/wifi_component.cpp:2278-2327 | refines the failure step of EveryCycleEnds and the roaming step of NoPingPong at once, and notes the time exactly if a cooldown, scan or attempt began |
| WifiComponents.WifiComponent.CheckScanningFinished | components/wifi/wifi_component.cpp:1602-1687 | refines the four outcomes of a scan: timeout, nothing found, a match (StrongestOfTopIsTried), no match; roaming changes only with a failure; the time is noted exactly if something began |
| WifiComponents.WifiComponent.CheckConnectingFinished | components/wifi/wifi_component.cpp:1725-1865 | refines the outcomes of an attempt for every driver status; success forgets penalties and settles roaming, failure does not |
| WifiComponents.WifiComponent.CheckRoaming | components/wifi/wifi_component.cpp:2590-2616 | a check keeps the class valid, does what PassScansExactly and ForcedScansExactly say, never lowers the attempts, counts every scan it starts and never goes beyond three |
| WifiComponents.WifiComponent.ProcessRoamingScan | components/wifi/wifi_component.cpp:2618-2682 | refines reading a roaming scan: results released, target remembered and connected to only for a real gain |
| WifiComponents.WifiComponent.ForceRoamCheck | components/wifi/wifi_component.cpp:2579-2588 | a forced check keeps the class valid and is the forced event of ForcedScansExactly |
| WifiComponents.WifiComponent.HandleDriverRoam | components/wifi/wifi_component.cpp:2510-2525 | a roam by the driver keeps the class valid and clears attempts and penalties |
| WifiComponents.WifiComponent.OnScanDone | components/wifi/wifi_component_esp_idf.cpp:910-1001 | a finished scan, asked for or stray, leaves the strongest accepted records, copies of delivered ones and all of interest within the bound, as one event of the machine, and keeps the class valid |
| WifiComponents.WifiComponent.OnPortalStarted | components/wifi/wifi_component.cpp:941-946 | the start of the portal is an event of the machine and keeps the class valid |
| WifiComponents.WifiComponent.OnCredentialsSet | components/wifi/wifi_component.cpp:1143-1156 | new credentials keep the class valid and clear the roaming state, as the reset of NoPingPong |
| WifiComponents.WifiComponent.Loop | components/wifi/wifi_component.cpp:800-900 | one pass of the main loop is one pass of the joint machine of NoPingPong and ReconnectRunsInside; keeps the class valid; in true time it gives up no cooldown, scan or attempt before its figures in PassIsInTime, counted from the pass or start that began it, and gives it up after them |
| WifiComponents.WifiComponent.Enable | components/wifi/wifi_component.cpp:689-770 | every way to start, with whatever earlier runs left in the fields, is a start of EveryCycleEnds, keeps the class valid and notes the time; a component that runs is left alone |
| WifiComponents.WifiComponent.Disable | components/wifi/wifi_component.cpp:1449-1457 | disabling in any state keeps the class valid and only drops the link |
| RadioMode.RadioControl.WifiMode | components/wifi/wifi_component_esp_idf.cpp:242-309 | whatever the driver calls do, what is on the air becomes what was asked for or stays as it was, and the result says which |
| RadioMode.RadioControl.SetupAp | components/wifi/wifi_component.cpp:1030-1070 | an access point that is up stays up, and none counts as set up without being on the air |
| RadioMode.RadioControl.FallbackAp | components/wifi/wifi_component.cpp:912-950 | the loop's part keeps an access point up, keeps the flag true to the air, and never brings back a lost one |
| RadioMode.ChangeIsAtomic | components/wifi/wifi_component_esp_idf.cpp:242-309 | under every driver failure a change either has the asked effect on the air or none |
| RadioMode.ApGoesDownExactly | components/wifi/wifi_component.cpp:789-798 | an access point that is up goes down iff it is disabled or provisioning closes and the driver obeys |
| RadioMode.ApStaysUp | components/wifi/wifi_component.cpp:912-950 | in every run without those two actions it stays up through scans, connects, losses and adapter restarts, and is up whenever it counts as set up |
| RadioMode.DownForGood | components/wifi/wifi_component.cpp:921-939 | down while counting as set up, it never comes back, whatever actions follow |
| RadioMode.ComesBackExactly | components/wifi/wifi_component.cpp:912-939 | an access point that is down comes back in some run without disabling or closed provisioning iff it does not count as set up; otherwise no run at all brings it back |
| RadioMode.DisablingLosesAp | components/wifi/wifi_component.cpp:1435-1457 | disabling leads to an access point that cannot come back iff it counts as set up and either was down already or the driver stops the radio |
| RadioMode.ModeKeptIffStarted | components/wifi/wifi_component_esp_idf.cpp:242-309 | a driver mode that names the access point survives every run of harmless actions iff the radio was started |
| RadioMode.FailedStartDropsMode | components/wifi/wifi_component_esp_idf.cpp:292-305 | a first start that fails leads to a mode that does not survive |
| Topics.JoinSplit | components/mosquitto_broker/mosquitto_broker.cpp:414-486 | joining the segments of a topic gives the topic |
| Topics.SplitJoin | components/mosquitto_broker/mosquitto_broker.cpp:414-486 | splitting joined slash-free segments gives the segments |
| Topics.ContainsIffInner | components/mosquitto_broker/mosquitto_broker.cpp:521-534 | a topic contains "/w/" iff w is a segment with one on either side |
| IdMapping.ValidateIdMappings | components/mosquitto_broker/__init__.py:79-120 | accepts exactly the unambiguous lists, and otherwise names the first mapping that makes the list ambiguous |
| IdMapping.IdsAreValid | components/mosquitto_broker/__init__.py:44-77 | every id of digits or hexadecimal digits passes the check of a single id |
| TopicTranslation.TranslateExternalToDevice | components/mosquitto_broker/mosquitto_broker.cpp:414-450 | the index walk equals split, replace each segment, join |
| TopicTranslation.TranslateDeviceToExternal | components/mosquitto_broker/mosquitto_broker.cpp:452-486 | the same for the other direction, with the form the topic asks for |
| TopicTranslation.TopicUsesEncryptedExternal | components/mosquitto_broker/mosquitto_broker.cpp:383-410 | true iff the first segment is marstek_energy and the second names a family with derived ids |
| TopicTranslation.TranslateBySegments | components/mosquitto_broker/mosquitto_broker.cpp:414-486 | no segment is added, lost, moved, split or merged |
| TopicTranslation.ReservedSegmentsStay | components/mosquitto_broker/__init__.py:31-33 | segments hame_energy, marstek_energy, App, device and ctrl stay in place and none appears |
| TopicTranslation.FiltersSeeTheSame | components/mosquitto_broker/mosquitto_broker.cpp:521-534 | "/device/" and "/App/" are neither created nor lost |
| TopicTranslation.BridgeFiltersSeeTheSame | components/mosquitto_broker/mosquitto_broker.cpp:521-534 | in particular the filters on /device/ and /App/ |
| TopicTranslation.FamiliesExactly | components/mosquitto_broker/mosquitto_broker.cpp:383-397 | derived ids are for the families HMA, HMF, HMK and HMJ, in any letter case, whatever follows the first dash |
| TopicTranslation.TranslateIgnoresOrder | components/mosquitto_broker/__init__.py:79-120 | for an accepted list the order of the mappings does not matter |
| TopicTranslation.RoundTrip | components/mosquitto_broker/mosquitto_broker.cpp:414-486 | for every accepted list, outward then inward gives the topic back iff no segment is an external form of a mapping other than that mapping's own device id |
| TopicTranslation.InboundTopicsRoundTrip | components/mosquitto_broker/mosquitto_broker.cpp:414-486 | every topic that came in goes out and comes back the same |
| BrokerSupervisor.Supervisor.Supervise | components/mosquitto_broker/mosquitto_broker.cpp:212-254 | each atomic section of the loop keeps one live task at most and the count of exits exact; it records a pending exit or brings that closer; a new task finds no other one and no unrecorded exit; its comparison of clock readings is that of CreatedInTime |
| BrokerSupervisor.Supervisor.RunTask | components/mosquitto_broker/mosquitto_broker.cpp:488-500 | each section of a task keeps the same, and an exit becomes pending exactly with the announcement |
| BrokerSupervisor.OneBrokerEveryExitCounted | components/mosquitto_broker/mosquitto_broker.cpp:212-254 | on every interleaving at most one task runs the broker, tasks equal recorded exits plus the pending or live one, and the delay is that of DelayDoubles, in 1000..60000 ms |
| BrokerSupervisor.CreatedAlone | components/mosquitto_broker/mosquitto_broker.cpp:229-240 | a task is created only when none is left and no exit is unrecorded, and truly later than the delay after the last recorded exit, failed creation or setup |
| BrokerSupervisor.CreatedInTime | components/mosquitto_broker/mosquitto_broker.cpp:229-240 | once the delay is over, below 2^32 ms, the next decision is to create a task |
| BrokerSupervisor.QuickExitsCounted | components/mosquitto_broker/mosquitto_broker.cpp:212-254 | exits count as in a row until the publish client is connected again |
| BrokerSupervisor.DelayDoubles | components/mosquitto_broker/mosquitto_broker.cpp:222 | after k exits in a row the delay is min(1000 * 2^k, 60000) ms |
| BrokerSupervisor.ExitIsRecorded | components/mosquitto_broker/mosquitto_broker.cpp:488-500 | an exit is recorded within five steps of the loop, however the tasks interleave |
| RequestReader.HeaderValue | components/marstack/marstack_https.cpp:41-67 | the search loop finds the first line with the name, ignoring case |
| RequestReader.ReadRequest | components/marstack/marstack_https.cpp:266-355 | the reader does, for every sequence of reads, waits, closes and timeouts, what the specification says, which RequestReadsBack and the lemmas after it are about |
| RequestReader.FragmentationIndependent | components/marstack/marstack_https.cpp:266-355 | a fitting header block with exactly the announced body is read the same however it is cut |
| RequestReader.BodyIsAnnounced | components/marstack/marstack_https.cpp:324-353 | the body is the first min(Content-Length, max_body) bytes and complete iff nothing was cut |
| RequestReader.LongHeaderIsRefused | components/marstack/marstack_https.cpp:270-292 | a header block that does not end within the limit plus one chunk is refused however it is cut |
| RequestReader.LongHeaderDependsOnCuts | components/marstack/marstack_https.cpp:270-292 | for every header block in between, the same bytes are read in full chunks and refused when one byte comes first |
| RequestRoundTrip.RequestReadsBack | components/marstack/marstack_https.cpp:295-355 | every written request with a header block of at most 2045 bytes is read back however it is cut: the method, the target up to its first question mark, and the body up to max_body, complete iff not cut, for a Content-Length in decimal in any letter case; with a transfer coding and no length an empty, incomplete body; with neither an empty one |
| RequestRoundTrip.FramingExactly | components/marstack/marstack_https.cpp:312-322 | for every method, what frames the body is the first line with the name, the request line included |
| RequestRoundTrip.MethodLikeFieldIsMisread | components/marstack/marstack_https.cpp:41-67 | with a method that looks like a length and no body the request is read iff that length is 0 |
| RequestRoundTrip.SuchAMethod | components/marstack/marstack_https.cpp:41-67 | the input: a method that is taken for a length of 1 |
| RequestRoundTrip.HeaderOfLines | components/marstack/marstack_https.cpp:41-67 | the search over the header block finds the value of the first line that starts with the name and a colon, and nothing inside a line |
| RequestRoundTrip.LengthReadsBack | components/marstack/marstack_https.cpp:313-314 | a decimal size is read as the number it stands for, and as 2^32 - 1 if it does not fit into 32 bits |
| RequestRoundTrip.SignIsRead | components/marstack/marstack_https.cpp:313-314 | a plus sign changes nothing and a minus sign takes the size modulo 2^32 |
| RequestRoundTrip.NoNumberIsZero | components/marstack/marstack_https.cpp:313-314 | a value without a number is a size of 0 |
| HeldConnections.Connections.Accept | components/marstack/marstack_https.cpp:167-176 | a new connection is one more place of EveryConnectionAccounted |
| HeldConnections.Connections.SweepHeld | components/marstack/marstack_https.cpp:403-413 | erasing while walking keeps exactly what is not due and closes the rest |
| HeldConnections.Connections.ReapHeld | components/marstack/marstack_https.cpp:403-413 | after a sweep in time no connection is held past its deadline and none was closed before it, in true time |
| HeldConnections.Connections.EvictOldest | components/marstack/marstack_https.cpp:181-188 | with the budget reached the oldest held connection is closed, and there is room for the new one |
| HeldConnections.Connections.HoldOrClose | components/marstack/marstack_https.cpp:378-384 | an answered connection is held with its deadline, any other closed |
| HeldConnections.EveryConnectionAccounted | components/marstack/marstack_https.cpp:167-264 | on every run each accepted connection is in exactly one place: held, being served, or closed once |
| HeldConnections.HeldToTheDeadline | components/marstack/marstack_https.cpp:378-413 | at most max_connections held and one more open; none closed before its deadline unless evicted; none held past it after a sweep, across clock wrap |
| HeldConnections.EvictsTheOldest | components/marstack/marstack_https.cpp:181-188 | only the oldest is evicted, and only with the budget used up |
| HeldConnections.LongHoldsEndAtOnce | components/marstack/marstack_https.cpp:403-413 | a connection looks due right after its answer iff the hold time is 0 or above 2^31 ms, so the bound of HeldToTheDeadline is exact |
| Handoff.Handoffs.ServeConnection | components/marstack/marstack_https.cpp:231-245 | each section of the TLS task keeps at most one request under way and every pointer to a live frame; the task resumes with its own response, and no frame dies before it is answered |
| Handoff.Handoffs.Loop | components/marstack/marstack_https.cpp:94-103 | each section of the main loop keeps the same; it follows pointers to live frames only and writes each its own response |
| Handoff.OwnResponseAndNoDeadFrames | components/marstack/marstack_https.cpp:231-245 | on every interleaving at most one request is under way, every pointer is to a live frame, and the task resumes only with the response to its own request |
| Handoff.NeverStuck | components/marstack/marstack_https.cpp:238-245 | no send ever blocks and every step of the main loop brings the awaited response closer |
| Handoff.ThreeStepsSuffice | components/marstack/marstack_https.cpp:94-103 | a waiting task can go on after three steps of the main loop |
| HttpFraming.BuildRawResponse | components/marstack/marstack.cpp:649-718 | the appends write status line, fields in order, and the payload of the shape |
| HttpFraming.NumeralReadsBack | components/marstack/marstack.cpp:712-714 | printed decimal and hexadecimal sizes read back |
| HttpFraming.ChunksReadBack | components/marstack/marstack.cpp:706-717 | a chunked-coding parser recovers the body and consumes everything, empty body included |
| HttpFraming.FramingRoundTrip | components/marstack/marstack.cpp:649-718 | a parser after RFC 9112 recovers exactly the body from all three shapes, with nothing after it, for any body bytes and header values without CRLF |
| HttpFraming.HeaderAsCaptured | components/marstack/marstack.cpp:667-702 | a parser reads from each of the shapes exactly the captured header fields, in the captured order |
| HttpFraming.StatusAsCaptured | components/marstack/marstack.cpp:158-168 | and the status lines 200 OK and 404 Not Found |
| QueryStrings.UrlDecode | components/marstack/marstack.cpp:179-199 | the loop decodes as specified, malformed escapes included |
| QueryStrings.QueryParam | components/marstack/marstack.cpp:202-222 | the loop finds the parameter of the specification |
| QueryStrings.DecodeUndoesEncode | components/marstack/marstack.cpp:179-199 | decoding undoes percent-encoding of any bytes |
| QueryStrings.ParamRoundTrip | components/marstack/marstack.cpp:202-222 | in an encoded parameter list a name is found with the value of its first pair, or not at all |
| UdpSessions.KeyIsInjective | components/udp_proxy/udp_proxy.cpp:330 | the packed key differs for different clients |
| UdpSessions.UdpProxy.ProcessRequest | components/udp_proxy/udp_proxy.cpp:314-330 | a client of the right side is in the table from its request on, and the table still refines the history of activity |
| UdpSessions.UdpProxy.ProcessResponse | components/udp_proxy/udp_proxy.cpp:427-459 | an answer renews exactly the clients it reached, and the table still refines the history |
| UdpSessions.UdpProxy.CleanupExpiredSessions | components/udp_proxy/udp_proxy.cpp:464-478 | erasing while walking leaves exactly the unexpired sessions |
| UdpSessions.UdpProxy.EndPass | components/udp_proxy/udp_proxy.cpp:215-219 | after a due cleanup the table is exactly the recent history, in true time |
| UdpSessions.UdpProxy.RetryStart | components/udp_proxy/udp_proxy.cpp:259-273 | with k failures in a row before it, an attempt is truly at least min(5000 * 2^k, 60000) ms after the last, across clock wrap, and is made once that time is over; k is counted on or reset |
| UdpSessions.CleanTableIsRecentHistory | components/udp_proxy/udp_proxy.cpp:464-478 | after every cleanup the table holds exactly the clients whose last request or last delivered answer is at most the timeout old, across clock wrap |
| UdpSessions.TableBetweenCleanups | components/udp_proxy/udp_proxy.cpp:215-219 | at any time no recent client is missing and none is kept that was too old at the last cleanup |
| UdpSessions.DelayDoubles | components/udp_proxy/udp_proxy.cpp:259-273 | after k failures in a row the delay is min(5000 * 2^k, 60000) ms |
| DnsResponder.DnsServer.ProcessNextRequest | components/capture_dns/dns_server_esp32_idf.cpp:85-202 | the parse and the in-place edit send what the specification says, a function of the received bytes alone, at most 192 bytes |
| DnsResponder.DnsServer.SkipName | components/capture_dns/dns_server_esp32_idf.cpp:127-147 | the walk finds the end of a pointer-free name or gives up |
| DnsResponder.DnsServer.BuildReply | components/capture_dns/dns_server_esp32_idf.cpp:165-192 | the edits turn the request in the buffer into the reply |
| DnsResponder.ReplyDecodes | components/capture_dns/dns_server_esp32_idf.cpp:165-192 | a reply to a request without further records decodes as the same id and question plus one address record for the question's name |
| DnsResponder.ReplyDecodesExactly | components/capture_dns/dns_server_esp32_idf.cpp:165-167 | a reply can be decoded iff NSCOUNT and ARCOUNT of the request are zero |
| DnsResponder.AnswersExactlyShortNames | components/capture_dns/dns_server_esp32_idf.cpp:111-177 | every encoded address query, whatever follows it, is answered iff its name takes at most 160 bytes |
| Millis.ElapsedIsTrue | components/udp_proxy/udp_proxy.cpp:469 | the unsigned difference of readings is the true time between them below 2^32 ms |
| Millis.SignedIsTrue | components/marstack/marstack_https.cpp:406 | the signed difference of readings is the true one for times less than 2^31 ms apart |

## Left out

- Configuration changes during a run (`set_sta`, `clear_sta`) and the flag that skips a cooldown after them; a start with loaded credentials is modelled for a configuration that already holds them.
- Enterprise authentication, manual addresses, the exclusive access point and the files for other chips.
- Kept scan results and their listeners; the needs-full-results test is a parameter of the scan handler.
- Loading and saving of fast-connect settings: the stored network is a parameter of the start.
- The cached connected flag: a pass of the model reads the driver status itself.
- Several calls of `millis()` within one pass read the same time.
- A scan that fails for lack of memory arrives as a scan without results.
- RetryBound.EveryCycleEnds: counts failures, not time; without a match and a candidate, progress comes from the scan timeout, which is an event.
- RetryCoverage.CycleCoverage: for cycles in which the scans that are asked for either all start and bring the same results, or none starts. Scans that end after their timeout are not among the events of a cycle; EveryCycleEnds has them.
- RetryCoverage.StartCoverage: not for a start without fast connect and a hidden first network that finds a scan which ended before it unread and whose own scan does not start.
- Penalties.ChargedForAttemptsExactly: leaves aside results that a stray scan replaced while an attempt at the earlier ones was under way.
- RetryFairness.FairShare: for failing cycles whose scans start, complete and find the same matching BSSIDs, no network configuring one; the points that scans which do not start take are in RetryUnstarted and Penalties.
- Roaming.NoPingPong: new credentials reset roaming there, but the network list they bring is not modelled, as the configuration is fixed.
- HeldConnections.HeldToTheDeadline: for sweeps less than 2^31 ms apart and hold times up to 2^31 ms.
- UdpSessions.CleanTableIsRecentHistory: for cleanups whose distance plus the timeout stays below 2^32 ms; stopping the proxy is not modelled.
- RequestReader.FragmentationIndependent: for header blocks within the limit; the two lemmas after it in the table cover all longer ones.
- HttpFraming.FramingRoundTrip: sizes are unbounded numbers; the chunk size is printed from 32 bits, which a body on the device cannot exceed.
- BrokerSupervisor.ExitIsRecorded: says when an exit is recorded; CreatedInTime says when the next task is asked for, which then depends on memory for it.
- The publish client, the resending of the battery's own poll, counters, sensors and liveness triggers.
- The endpoint table, JSON bodies, telemetry decoding, certificates, and the Shelly emulator.
- Encryption of external ids: the derived id is a field of the mapping, empty or a valid segment.
- The TLS handshake and writing of the response: their outcome is the `answered` flag of a finished exchange.
