/** Rewriting the ids in a topic, segment by segment, and what undoes what. */
module TopicTranslation {
  import opened Bags
  import opened Topics
  import opened IdMapping
  import opened Text

  /** Towards the device, or towards the external side in one of its two forms. */
  datatype Direction = Inward | Outward(encrypted: bool)

  predicate Applies(m: Mapping, dir: Direction, s: string) {
    if dir == Inward then IsForm(m, s) else s == m.device
  }

  function Target(m: Mapping, dir: Direction): string {
    if dir == Inward then m.device
    else if dir.encrypted && m.encrypted != "" then m.encrypted
    else m.external
  }

  /** The first mapping that applies decides. */
  function Replace(ms: seq<Mapping>, dir: Direction, s: string): string {
    if ms == [] then s
    else if Applies(ms[0], dir, s) then Target(ms[0], dir)
    else Replace(ms[1..], dir, s)
  }

  function ReplaceAll(ms: seq<Mapping>, dir: Direction, segs: seq<string>): (r: seq<string>)
    ensures |r| == |segs|
  {
    if segs == [] then [] else [Replace(ms, dir, segs[0])] + ReplaceAll(ms, dir, segs[1..])
  }

  function Translate(ms: seq<Mapping>, dir: Direction, t: string): string {
    Join(ReplaceAll(ms, dir, Split(t)))
  }

  // ---- Which form the external side uses ----

  function Upper(c: char): char { if 'a' <= c <= 'z' then 'A' + (c - 'a') else c }

  function UpperAll(s: string): string { if s == "" then "" else [Upper(s[0])] + UpperAll(s[1..]) }

  /** The part of a segment before its first dash. */
  function Base(s: string): string { if s == "" || s[0] == '-' then "" else [s[0]] + Base(s[1..]) }

  predicate IsB2500Type(s: string) {
    var base := UpperAll(Base(s));
    base == "HMA" || base == "HMF" || base == "HMK" || base == "HMJ"
  }

  lemma {:induction false} BaseIsFound(s: string)
    ensures Base(s) == s[..Find(s, "-", 0)]
  {
    if s != "" && s[0] != '-' {
      BaseIsFound(s[1..]);
      FindInSuffix(s, "-", 1, 0);
      assert !At(s, "-", 0) by {
        if |s| >= 1 { assert s[0..1][0] == s[0]; }
      }
      assert s[..1 + Find(s[1..], "-", 0)] == [s[0]] + s[1..][..Find(s[1..], "-", 0)];
    } else if s != "" {
      assert s[0..1] == "-";
    }
  }

  lemma {:induction false} UpperAt(s: string, i: nat)
    requires i < |s|
    ensures |UpperAll(s)| == |s| && UpperAll(s)[i] == Upper(s[i])
  {
    if i > 0 {
      UpperAt(s[1..], i - 1);
    } else if |s| > 1 {
      UpperAt(s[1..], 0);
    }
  }

  /** A word in capitals is met in any letter case. */
  lemma UpperMatches(s: string, w: string)
    requires forall i :: 0 <= i < |w| ==> 'A' <= w[i] <= 'Z'
    ensures UpperAll(s) == w <==> SameIgnoringCase(s, w)
  {
    if s != "" { UpperAt(s, 0); }
    forall i | 0 <= i < |s| ensures UpperAll(s)[i] == Upper(s[i]) {
      UpperAt(s, i);
    }
    if SameIgnoringCase(s, w) {
      assert forall i :: 0 <= i < |s| ==> Lower(s[i]) == Lower(w[i]);
    } else if |s| == |w| {
      var i :| 0 <= i < |s| && Lower(s[i]) != Lower(w[i]);
      assert Upper(s[i]) != w[i];
    }
  }

  /** The families with derived ids: what comes before the first dash is one of four names, in any letter case. */
  lemma FamiliesExactly(s: string)
    ensures
      var base := s[..Find(s, "-", 0)];
      IsB2500Type(s) <==> SameIgnoringCase(base, "HMA") || SameIgnoringCase(base, "HMF") ||
                          SameIgnoringCase(base, "HMK") || SameIgnoringCase(base, "HMJ")
  {
    BaseIsFound(s);
    UpperMatches(Base(s), "HMA");
    UpperMatches(Base(s), "HMF");
    UpperMatches(Base(s), "HMK");
    UpperMatches(Base(s), "HMJ");
  }

  /** The second segment of a `marstek_energy` topic names a device family that uses derived ids. */
  predicate UsesEncrypted(t: string) {
    var segs := Split(t);
    |segs| >= 2 && segs[0] == "marstek_energy" && IsB2500Type(segs[1])
  }

  function ToExternal(ms: seq<Mapping>, t: string): string { Translate(ms, Outward(UsesEncrypted(t)), t) }

  function ToDevice(ms: seq<Mapping>, t: string): string { Translate(ms, Inward, t) }

  // ---- The two loops ----

  lemma {:induction false} ReplaceByFirst(ms: seq<Mapping>, dir: Direction, s: string, i: nat)
    requires i <= |ms| && forall k :: 0 <= k < i ==> !Applies(ms[k], dir, s)
    requires i < |ms| ==> Applies(ms[i], dir, s)
    ensures Replace(ms, dir, s) == if i < |ms| then Target(ms[i], dir) else s
  {
    if i > 0 {
      ReplaceByFirst(ms[1..], dir, s, i - 1);
    }
  }

  /** What is left to do from `pos` on. */
  function Rest(ms: seq<Mapping>, dir: Direction, t: string, pos: nat): string
    requires pos <= |t|
  {
    Translate(ms, dir, t[pos..])
  }

  lemma CutFrom(t: string, pos: nat, end: nat)
    requires pos <= end < |t| && t[end] == '/'
    ensures t[pos..] == t[pos..end] + "/" + t[end + 1..]
  {
  }

  /** The first segment from `pos` on, and those after it. */
  lemma SplitFrom(t: string, pos: nat)
    requires pos <= |t|
    ensures
      var end := SlashFrom(t, pos);
      Split(t[pos..]) == [t[pos..end]] + (if end < |t| then Split(t[end + 1..]) else [])
  {
    var end := SlashFrom(t, pos);
    SlashFromFinds(t, pos);
    var s := t[pos..end];
    if end < |t| {
      SplitHead(s, t[end + 1..]);
      CutFrom(t, pos, end);
    } else {
      SplitHead(s, "");
      assert t[pos..] == s;
    }
  }

  lemma Regroup(a: string, b: string, c: string)
    ensures a + b + c == a + (b + c)
  {
  }

  lemma ReplaceHead(ms: seq<Mapping>, dir: Direction, s: string, segs: seq<string>)
    ensures ReplaceAll(ms, dir, [s] + segs) == [Replace(ms, dir, s)] + ReplaceAll(ms, dir, segs)
  {
    assert ([s] + segs)[1..] == segs;
  }

  lemma JoinHead(s: string, segs: seq<string>)
    requires segs != []
    ensures Join([s] + segs) == s + ("/" + Join(segs))
  {
    assert ([s] + segs)[1..] == segs;
    Regroup(s, "/", Join(segs));
  }

  lemma SplitNext(t: string, pos: nat)
    requires pos <= |t| && SlashFrom(t, pos) < |t|
    ensures Split(t[pos..]) == [t[pos..SlashFrom(t, pos)]] + Split(t[SlashFrom(t, pos) + 1..])
  {
    SplitFrom(t, pos);
  }

  lemma TranslateHead(ms: seq<Mapping>, dir: Direction, u: string, first: string, v: string)
    requires Split(u) == [first] + Split(v)
    ensures Translate(ms, dir, u) == Replace(ms, dir, first) + ("/" + Translate(ms, dir, v))
  {
    ReplaceHead(ms, dir, first, Split(v));
    JoinHead(Replace(ms, dir, first), ReplaceAll(ms, dir, Split(v)));
  }

  /** One segment done, the rest follows. */
  lemma NextSegment(ms: seq<Mapping>, dir: Direction, t: string, pos: nat)
    requires pos <= |t| && SlashFrom(t, pos) < |t|
    ensures
      var end := SlashFrom(t, pos);
      Rest(ms, dir, t, pos) == Replace(ms, dir, t[pos..end]) + ("/" + Rest(ms, dir, t, end + 1))
  {
    var end := SlashFrom(t, pos);
    SplitNext(t, pos);
    TranslateHead(ms, dir, t[pos..], t[pos..end], t[end + 1..]);
  }

  lemma LastSegment(ms: seq<Mapping>, dir: Direction, t: string, pos: nat)
    requires pos <= |t| && SlashFrom(t, pos) == |t|
    ensures Rest(ms, dir, t, pos) == Replace(ms, dir, t[pos..|t|])
  {
    SplitFrom(t, pos);
  }

  /** With `done` written, what is left from `pos` on completes the translation. */
  predicate Completes(ms: seq<Mapping>, dir: Direction, t: string, pos: nat, done: string) {
    pos <= |t| && done + Rest(ms, dir, t, pos) == Translate(ms, dir, t)
  }

  lemma NothingDone(ms: seq<Mapping>, dir: Direction, t: string)
    ensures Completes(ms, dir, t, 0, "")
  {
    assert t[0..] == t;
    assert "" + Translate(ms, dir, t) == Translate(ms, dir, t);
  }

  lemma AppendPiece(done: string, piece: string, rest: string, left: string, whole: string)
    requires done + left == whole && left == piece + ("/" + rest)
    ensures ((done + piece) + "/") + rest == whole
  {
    Regroup(done + piece, "/", rest);
    Regroup(done, piece, "/" + rest);
  }

  lemma AppendNext(ms: seq<Mapping>, dir: Direction, t: string, pos: nat, done: string)
    requires Completes(ms, dir, t, pos, done) && SlashFrom(t, pos) < |t|
    ensures
      var end := SlashFrom(t, pos);
      Completes(ms, dir, t, end + 1, done + Replace(ms, dir, t[pos..end]) + "/")
  {
    var end := SlashFrom(t, pos);
    NextSegment(ms, dir, t, pos);
    AppendPiece(done, Replace(ms, dir, t[pos..end]), Rest(ms, dir, t, end + 1), Rest(ms, dir, t, pos),
                Translate(ms, dir, t));
  }

  lemma AppendLast(ms: seq<Mapping>, dir: Direction, t: string, pos: nat, done: string)
    requires Completes(ms, dir, t, pos, done) && SlashFrom(t, pos) == |t|
    ensures done + Replace(ms, dir, t[pos..|t|]) == Translate(ms, dir, t)
  {
    LastSegment(ms, dir, t, pos);
  }

  lemma {:induction false} NothingToReplace(dir: Direction, segs: seq<string>)
    ensures ReplaceAll([], dir, segs) == segs
  {
    if segs != [] {
      NothingToReplace(dir, segs[1..]);
    }
  }

  lemma NoMappings(dir: Direction, t: string)
    ensures Translate([], dir, t) == t
  {
    NothingToReplace(dir, Split(t));
    JoinSplit(t);
  }

  method FindSlash(t: string, pos: nat) returns (next: nat)
    requires pos <= |t|
    ensures next == SlashFrom(t, pos)
  {
    next := pos;
    while next < |t| && t[next] != '/'
      invariant pos <= next <= |t| && SlashFrom(t, pos) == SlashFrom(t, next)
    {
      next := next + 1;
    }
  }

  method ReplaceExternal(ms: seq<Mapping>, segment: string) returns (r: string)
    ensures r == Replace(ms, Inward, segment)
  {
    var i := 0;
    while i < |ms| && !IsForm(ms[i], segment)
      invariant i <= |ms| && forall k :: 0 <= k < i ==> !Applies(ms[k], Inward, segment)
    {
      i := i + 1;
    }
    ReplaceByFirst(ms, Inward, segment, i);
    return if i < |ms| then ms[i].device else segment;
  }

  method ReplaceDevice(ms: seq<Mapping>, useEncrypted: bool, segment: string) returns (r: string)
    ensures r == Replace(ms, Outward(useEncrypted), segment)
  {
    var i := 0;
    while i < |ms| && segment != ms[i].device
      invariant i <= |ms| && forall k :: 0 <= k < i ==> !Applies(ms[k], Outward(useEncrypted), segment)
    {
      i := i + 1;
    }
    ReplaceByFirst(ms, Outward(useEncrypted), segment, i);
    return
      if i == |ms| then segment
      else if useEncrypted && ms[i].encrypted != "" then ms[i].encrypted
      else ms[i].external;
  }

  method TranslateExternalToDevice(ms: seq<Mapping>, topic: string) returns (result: string)
    ensures result == ToDevice(ms, topic)
  {
    if ms == [] {
      NoMappings(Inward, topic);
      return topic;
    }
    result := "";
    NothingDone(ms, Inward, topic);
    var pos := 0;
    while true
      invariant Completes(ms, Inward, topic, pos, result)
      decreases |topic| - pos
    {
      var next := FindSlash(topic, pos);
      if next < |topic| { AppendNext(ms, Inward, topic, pos, result); } else { AppendLast(ms, Inward, topic, pos, result); }
      var segment := ReplaceExternal(ms, topic[pos..next]);
      result := result + segment;
      if next == |topic| { break; }
      result := result + "/";
      pos := next + 1;
    }
  }

  method TranslateDeviceToExternal(ms: seq<Mapping>, topic: string) returns (result: string)
    ensures result == ToExternal(ms, topic)
  {
    var useEncrypted := TopicUsesEncryptedExternal(topic);
    result := TranslateOutward(ms, useEncrypted, topic);
  }

  method TranslateOutward(ms: seq<Mapping>, useEncrypted: bool, topic: string) returns (result: string)
    ensures result == Translate(ms, Outward(useEncrypted), topic)
  {
    ghost var dir := Outward(useEncrypted);
    if ms == [] {
      NoMappings(dir, topic);
      return topic;
    }
    result := "";
    NothingDone(ms, dir, topic);
    var pos := 0;
    while true
      invariant Completes(ms, dir, topic, pos, result)
      decreases |topic| - pos
    {
      var next := FindSlash(topic, pos);
      if next < |topic| { AppendNext(ms, dir, topic, pos, result); } else { AppendLast(ms, dir, topic, pos, result); }
      var segment := ReplaceDevice(ms, useEncrypted, topic[pos..next]);
      result := result + segment;
      if next == |topic| { break; }
      result := result + "/";
      pos := next + 1;
    }
  }

  method TopicUsesEncryptedExternal(topic: string) returns (uses: bool)
    ensures uses <==> UsesEncrypted(topic)
  {
    var first := FindSlash(topic, 0);
    SplitFrom(topic, 0);
    assert topic[0..] == topic;
    if first == |topic| { return false; }
    if topic[0..first] != "marstek_energy" { return false; }
    var second := FindSlash(topic, first + 1);
    SplitFrom(topic, first + 1);
    uses := IsB2500Type(topic[first + 1..second]);
  }

  // ---- Segments ----

  predicate ValidMapping(m: Mapping) {
    ValidSegment(m.device) && ValidSegment(m.external) && (m.encrypted != "" ==> ValidSegment(m.encrypted))
  }

  predicate ValidMappings(ms: seq<Mapping>) { forall i :: 0 <= i < |ms| ==> ValidMapping(ms[i]) }

  lemma {:induction false} ReplaceIsTargetOrSame(ms: seq<Mapping>, dir: Direction, s: string)
    ensures (Replace(ms, dir, s) == s && forall i :: 0 <= i < |ms| ==> !Applies(ms[i], dir, s)) ||
            exists i :: 0 <= i < |ms| && Applies(ms[i], dir, s) && Replace(ms, dir, s) == Target(ms[i], dir)
  {
    if ms != [] {
      if Applies(ms[0], dir, s) {
        assert Replace(ms, dir, s) == Target(ms[0], dir);
      } else {
        ReplaceIsTargetOrSame(ms[1..], dir, s);
        if i :| 0 <= i < |ms| - 1 && Applies(ms[1..][i], dir, s) && Replace(ms[1..], dir, s) == Target(ms[1..][i], dir) {
          assert ms[i + 1] == ms[1..][i];
        } else {
          forall i | 0 <= i < |ms| ensures !Applies(ms[i], dir, s) {
            if i > 0 { assert ms[i] == ms[1..][i - 1]; }
          }
        }
      }
    }
  }

  /** Replaced ids are ids again: never reserved, never with a slash. */
  lemma ReplaceKeepsShape(ms: seq<Mapping>, dir: Direction, s: string)
    requires ValidMappings(ms)
    ensures SlashFree(s) ==> SlashFree(Replace(ms, dir, s))
    ensures Reserved(s) ==> Replace(ms, dir, s) == s
    ensures Reserved(Replace(ms, dir, s)) ==> Replace(ms, dir, s) == s
  {
    ReplaceIsTargetOrSame(ms, dir, s);
    if i :| 0 <= i < |ms| && Applies(ms[i], dir, s) && Replace(ms, dir, s) == Target(ms[i], dir) {
      assert ValidMapping(ms[i]);
    }
  }

  lemma {:induction false} ReplaceAllAt(ms: seq<Mapping>, dir: Direction, segs: seq<string>)
    ensures forall i :: 0 <= i < |segs| ==> ReplaceAll(ms, dir, segs)[i] == Replace(ms, dir, segs[i])
  {
    if segs != [] {
      ReplaceAllAt(ms, dir, segs[1..]);
      forall i | 0 <= i < |segs| ensures ReplaceAll(ms, dir, segs)[i] == Replace(ms, dir, segs[i]) {
        if i > 0 { assert segs[i] == segs[1..][i - 1]; }
      }
    }
  }

  /** Translation works segment by segment: none is added, lost, moved, split or merged. */
  lemma TranslateBySegments(ms: seq<Mapping>, dir: Direction, t: string)
    requires ValidMappings(ms)
    ensures Split(Translate(ms, dir, t)) == ReplaceAll(ms, dir, Split(t))
    ensures |Split(Translate(ms, dir, t))| == |Split(t)|
    ensures forall i :: 0 <= i < |Split(t)| ==> Split(Translate(ms, dir, t))[i] == Replace(ms, dir, Split(t)[i])
  {
    var segs := Split(t);
    JoinSplit(t);
    ReplaceAllAt(ms, dir, segs);
    forall i | 0 <= i < |segs| ensures SlashFree(ReplaceAll(ms, dir, segs)[i]) {
      ReplaceKeepsShape(ms, dir, segs[i]);
    }
    SplitJoin(ReplaceAll(ms, dir, segs));
  }

  /** The words that give a topic its structure. */
  predicate IsStructural(s: string) {
    s == "hame_energy" || s == "marstek_energy" || s == "App" || s == "device" || s == "ctrl"
  }

  /** Reserved segments stay where they are, and none appears. */
  lemma ReservedSegmentsStay(ms: seq<Mapping>, dir: Direction, t: string, i: nat)
    requires ValidMappings(ms) && i < |Split(t)|
    ensures
      var u := Translate(ms, dir, t);
      i < |Split(u)| && (IsStructural(Split(t)[i]) || IsStructural(Split(u)[i]) ==> Split(u)[i] == Split(t)[i])
  {
    TranslateBySegments(ms, dir, t);
    ReplaceKeepsShape(ms, dir, Split(t)[i]);
  }

  /** So the filters on "/device/" and "/App/" see the same before and after. */
  lemma FiltersSeeTheSame(ms: seq<Mapping>, dir: Direction, t: string, w: string)
    requires ValidMappings(ms) && IsStructural(w)
    ensures Contains(Translate(ms, dir, t), "/" + w + "/") <==> Contains(t, "/" + w + "/")
  {
    var u := Translate(ms, dir, t);
    TranslateBySegments(ms, dir, t);
    ContainsIffInner(t, w);
    ContainsIffInner(u, w);
    forall i | 0 <= i < |Split(t)| ensures Split(t)[i] == w <==> Split(u)[i] == w {
      ReservedSegmentsStay(ms, dir, t, i);
    }
  }

  /** The two filters of the bridge. */
  lemma BridgeFiltersSeeTheSame(ms: seq<Mapping>, dir: Direction, t: string)
    requires ValidMappings(ms)
    ensures Contains(Translate(ms, dir, t), "/device/") <==> Contains(t, "/device/")
    ensures Contains(Translate(ms, dir, t), "/App/") <==> Contains(t, "/App/")
  {
    FiltersSeeTheSame(ms, dir, t, "device");
    FiltersSeeTheSame(ms, dir, t, "App");
    assert "/" + "device" + "/" == "/device/" && "/" + "App" + "/" == "/App/";
  }

  // ---- Order of the mappings ----

  lemma ApartExcludes(a: Mapping, b: Mapping, dir: Direction, s: string)
    requires Apart(a, b)
    ensures !(Applies(a, dir, s) && Applies(b, dir, s))
  {
  }

  /** At most one mapping applies to a segment. */
  lemma OneApplies(ms: seq<Mapping>, dir: Direction, s: string, i: nat, j: nat)
    requires Unambiguous(ms) && i < |ms| && j < |ms|
    ensures Applies(ms[i], dir, s) && Applies(ms[j], dir, s) ==> i == j
  {
    if i < j {
      ApartExcludes(ms[i], ms[j], dir, s);
    } else if j < i {
      ApartExcludes(ms[j], ms[i], dir, s);
    }
  }

  lemma ReplaceByAny(ms: seq<Mapping>, dir: Direction, s: string, i: nat)
    requires Unambiguous(ms) && i < |ms| && Applies(ms[i], dir, s)
    ensures Replace(ms, dir, s) == Target(ms[i], dir)
  {
    ReplaceIsTargetOrSame(ms, dir, s);
    var j :| 0 <= j < |ms| && Applies(ms[j], dir, s) && Replace(ms, dir, s) == Target(ms[j], dir);
    OneApplies(ms, dir, s, i, j);
  }

  lemma ReplaceIgnoresOrder(ms: seq<Mapping>, ms': seq<Mapping>, dir: Direction, s: string)
    requires Unambiguous(ms) && multiset(ms) == multiset(ms')
    ensures Replace(ms, dir, s) == Replace(ms', dir, s)
  {
    ReplaceIsTargetOrSame(ms', dir, s);
    if j :| 0 <= j < |ms'| && Applies(ms'[j], dir, s) && Replace(ms', dir, s) == Target(ms'[j], dir) {
      var i := Locate(ms', j, ms);
      ReplaceByAny(ms, dir, s, i);
    } else {
      ReplaceIsTargetOrSame(ms, dir, s);
      if i :| 0 <= i < |ms| && Applies(ms[i], dir, s) {
        var j := Locate(ms, i, ms');
        assert false;
      }
    }
  }

  /** The order in which an accepted list names its mappings does not matter. */
  lemma TranslateIgnoresOrder(ms: seq<Mapping>, ms': seq<Mapping>, dir: Direction, t: string)
    requires Unambiguous(ms) && multiset(ms) == multiset(ms')
    ensures Translate(ms, dir, t) == Translate(ms', dir, t)
  {
    var segs := Split(t);
    ReplaceAllAt(ms, dir, segs);
    ReplaceAllAt(ms', dir, segs);
    forall i | 0 <= i < |segs| ensures ReplaceAll(ms, dir, segs)[i] == ReplaceAll(ms', dir, segs)[i] {
      ReplaceIgnoresOrder(ms, ms', dir, segs[i]);
    }
    assert ReplaceAll(ms, dir, segs) == ReplaceAll(ms', dir, segs);
  }

  // ---- Round trips ----

  /** The segment already is an external form of some mapping, and not that mapping's own device id. */
  ghost predicate Foreign(ms: seq<Mapping>, s: string) {
    exists i :: 0 <= i < |ms| && IsForm(ms[i], s) && ms[i].device != s
  }

  lemma TargetIsForm(m: Mapping, encrypted: bool)
    ensures IsForm(m, Target(m, Outward(encrypted)))
  {
  }

  /** A segment comes back from the external side unchanged exactly when it is not foreign. */
  lemma SegmentRoundTrip(ms: seq<Mapping>, encrypted: bool, s: string)
    requires Unambiguous(ms)
    ensures Replace(ms, Inward, Replace(ms, Outward(encrypted), s)) == s <==> !Foreign(ms, s)
  {
    var dir := Outward(encrypted);
    var out := Replace(ms, dir, s);
    ReplaceIsTargetOrSame(ms, dir, s);
    if i :| 0 <= i < |ms| && Applies(ms[i], dir, s) && out == Target(ms[i], dir) {
      TargetIsForm(ms[i], encrypted);
      ReplaceByAny(ms, Inward, out, i);
      DeviceIsNotForeign(ms, i);
    } else {
      ReplaceIsTargetOrSame(ms, Inward, s);
      if j :| 0 <= j < |ms| && Applies(ms[j], Inward, s) {
        ReplaceByAny(ms, Inward, s, j);
        assert !Applies(ms[j], dir, s);
        assert Foreign(ms, s);
      }
    }
  }

  lemma DeviceIsNotForeign(ms: seq<Mapping>, i: nat)
    requires Unambiguous(ms) && i < |ms|
    ensures !Foreign(ms, ms[i].device)
  {
    forall j | 0 <= j < |ms| && IsForm(ms[j], ms[i].device) ensures ms[j].device == ms[i].device {
      assert i < j ==> Apart(ms[i], ms[j]);
      assert j < i ==> Apart(ms[j], ms[i]);
    }
  }

  /**
   * For every list the validator accepts: translating to the external side and back gives the topic back exactly
   * when none of its segments is an external form of a mapping (other than that mapping's own device id).
   */
  lemma RoundTrip(ms: seq<Mapping>, t: string)
    requires ValidMappings(ms) && Unambiguous(ms)
    ensures ToDevice(ms, ToExternal(ms, t)) == t <==> forall i :: 0 <= i < |Split(t)| ==> !Foreign(ms, Split(t)[i])
  {
    var dir := Outward(UsesEncrypted(t));
    var u := ToExternal(ms, t);
    var back := ToDevice(ms, u);
    TranslateBySegments(ms, dir, t);
    TranslateBySegments(ms, Inward, u);
    forall i | 0 <= i < |Split(t)| ensures Split(back)[i] == Split(t)[i] <==> !Foreign(ms, Split(t)[i]) {
      SegmentRoundTrip(ms, dir.encrypted, Split(t)[i]);
    }
    SameBySegments(back, t);
  }

  lemma SameBySegments(t: string, u: string)
    ensures t == u <==> |Split(t)| == |Split(u)| && forall i :: 0 <= i < |Split(u)| ==> Split(t)[i] == Split(u)[i]
  {
    JoinSplit(t);
    JoinSplit(u);
    if |Split(t)| == |Split(u)| && forall i :: 0 <= i < |Split(u)| ==> Split(t)[i] == Split(u)[i] {
      assert Split(t) == Split(u);
    }
  }

  lemma InwardIsNotForeign(ms: seq<Mapping>, s: string)
    requires Unambiguous(ms)
    ensures !Foreign(ms, Replace(ms, Inward, s))
  {
    ReplaceIsTargetOrSame(ms, Inward, s);
    if i :| 0 <= i < |ms| && Applies(ms[i], Inward, s) && Replace(ms, Inward, s) == Target(ms[i], Inward) {
      DeviceIsNotForeign(ms, i);
    }
  }

  /** Every topic that came in from the external side goes out and comes back the same. */
  lemma InboundTopicsRoundTrip(ms: seq<Mapping>, t: string)
    requires ValidMappings(ms) && Unambiguous(ms)
    ensures ToDevice(ms, ToExternal(ms, ToDevice(ms, t))) == ToDevice(ms, t)
  {
    TranslateBySegments(ms, Inward, t);
    RoundTrip(ms, ToDevice(ms, t));
    forall i | 0 <= i < |Split(t)| ensures !Foreign(ms, Split(ToDevice(ms, t))[i]) {
      InwardIsNotForeign(ms, Split(t)[i]);
    }
  }
}
