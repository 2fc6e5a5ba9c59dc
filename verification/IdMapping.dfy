/**
 * Translation of ids between the device side and the external side of a topic, and the validator that makes it
 * invertible.
 */
module IdMapping {

  /** `encrypted` is the derived variant of `external`, or empty when there is none. */
  datatype Mapping = Mapping(device: string, external: string, encrypted: string)

  predicate Reserved(s: string) {
    s == "hame_energy" || s == "marstek_energy" || s == "App" || s == "device" || s == "ctrl"
  }

  /** What the schema accepts as an id. */
  predicate ValidSegment(s: string) {
    s != "" && (forall i :: 0 <= i < |s| ==> s[i] != '/' && s[i] != '+' && s[i] != '#') && !Reserved(s)
  }

  /** Ids made of digits, as in serial numbers, or of hexadecimal digits, as in addresses, are accepted. */
  lemma IdsAreValid(s: string)
    requires s != "" && forall i :: 0 <= i < |s| ==> '0' <= s[i] <= '9' || 'a' <= s[i] <= 'f' || 'A' <= s[i] <= 'F'
    ensures ValidSegment(s)
  {
    assert "hame_energy"[0] == 'h' && "marstek_energy"[0] == 'm' && "App"[1] == 'p' && "device"[2] == 'v' && "ctrl"[1] == 't';
  }

  /** `s` is how the external side may write this mapping's id. */
  predicate IsForm(m: Mapping, s: string) { s == m.external || (m.encrypted != "" && s == m.encrypted) }

  /** The two mappings share no id, neither on one side nor across. */
  predicate Apart(a: Mapping, b: Mapping) {
    && a.device != b.device
    && !IsForm(b, a.device) && !IsForm(a, b.device)
    && !IsForm(b, a.external) && (a.encrypted != "" ==> !IsForm(b, a.encrypted))
  }

  /** The ids of one mapping differ; only the derived variant may be the device's own id. */
  predicate Sane(m: Mapping) { m.device != m.external && (m.encrypted != "" ==> m.encrypted != m.external) }

  ghost predicate Unambiguous(ms: seq<Mapping>) {
    && (forall i :: 0 <= i < |ms| ==> Sane(ms[i]))
    && (forall i, j :: 0 <= i < j < |ms| ==> Apart(ms[i], ms[j]))
  }

  // ---- The validator ----

  datatype Verdict = Accepted | Refused(index: nat)

  /** Whether the mapping can follow those whose ids are in the two sets. */
  predicate Fits(m: Mapping, devices: set<string>, externals: set<string>) {
    && m.device != m.external
    && m.device !in devices && m.external !in externals
    && m.device !in externals && m.external !in devices
    && (m.encrypted != "" ==>
          m.encrypted !in externals + {m.external} &&
          (m.encrypted in devices + {m.device} ==> m.encrypted == m.device))
  }

  /** The sets hold exactly the ids of the mappings seen so far. */
  ghost predicate Seen(ms: seq<Mapping>, devices: set<string>, externals: set<string>) {
    && (forall s :: s in devices <==> exists i :: 0 <= i < |ms| && ms[i].device == s)
    && (forall s :: s in externals <==> exists i :: 0 <= i < |ms| && IsForm(ms[i], s))
  }

  lemma SharedFormIsNotApart(a: Mapping, m: Mapping)
    requires IsForm(a, m.device) || IsForm(a, m.external) || (m.encrypted != "" && IsForm(a, m.encrypted))
    ensures !Apart(a, m)
  {
  }

  lemma FitsIffApart(ms: seq<Mapping>, m: Mapping, devices: set<string>, externals: set<string>)
    requires Seen(ms, devices, externals)
    ensures Fits(m, devices, externals) <==> Sane(m) && forall i :: 0 <= i < |ms| ==> Apart(ms[i], m)
  {
    if Fits(m, devices, externals) {
      forall i | 0 <= i < |ms| ensures Apart(ms[i], m) {
        assert ms[i].device in devices;
        assert IsForm(ms[i], ms[i].external) && ms[i].external in externals;
        assert ms[i].encrypted != "" ==> IsForm(ms[i], ms[i].encrypted) && ms[i].encrypted in externals;
      }
    } else if Sane(m) {
      if m.device in devices || m.external in devices || (m.encrypted != "" && m.encrypted in devices) {
        var i :| 0 <= i < |ms| && (ms[i].device == m.device || IsForm(m, ms[i].device));
        assert !Apart(ms[i], m);
      } else {
        var i :| 0 <= i < |ms| && (IsForm(ms[i], m.device) || IsForm(ms[i], m.external) ||
                                   (m.encrypted != "" && IsForm(ms[i], m.encrypted)));
        SharedFormIsNotApart(ms[i], m);
      }
    }
  }

  lemma OneMore(ms: seq<Mapping>, i: nat)
    requires i < |ms|
    ensures Unambiguous(ms[..i + 1]) <==>
            Unambiguous(ms[..i]) && Sane(ms[i]) && forall j :: 0 <= j < i ==> Apart(ms[..i][j], ms[i])
  {
    var front, all := ms[..i], ms[..i + 1];
    assert forall j :: 0 <= j < i ==> front[j] == all[j];
    assert all[i] == ms[i];
  }

  lemma SeenOneMore(ms: seq<Mapping>, i: nat, devices: set<string>, externals: set<string>)
    requires i < |ms| && Seen(ms[..i], devices, externals)
    ensures Seen(ms[..i + 1], devices + {ms[i].device},
                 externals + {ms[i].external} + (if ms[i].encrypted != "" then {ms[i].encrypted} else {}))
  {
    var front, all := ms[..i], ms[..i + 1];
    assert all == front + [ms[i]];
    forall s | s in devices ensures exists k :: 0 <= k < |all| && all[k].device == s {
      var k :| 0 <= k < |front| && front[k].device == s;
      assert all[k].device == s;
    }
    forall s | s in externals ensures exists k :: 0 <= k < |all| && IsForm(all[k], s) {
      var k :| 0 <= k < |front| && IsForm(front[k], s);
      assert IsForm(all[k], s);
    }
    assert all[i] == ms[i] && IsForm(all[i], ms[i].external) && (ms[i].encrypted != "" ==> IsForm(all[i], ms[i].encrypted));
    forall k | 0 <= k < |all| ensures all[k].device in devices + {ms[i].device} {
      if k < i { assert front[k].device == all[k].device; }
    }
    forall s, k | 0 <= k < |all| && IsForm(all[k], s)
      ensures s in externals + {ms[i].external} + (if ms[i].encrypted != "" then {ms[i].encrypted} else {})
    {
      if k < i { assert IsForm(front[k], s); }
    }
  }

  /** Accepts exactly the unambiguous lists, and otherwise names the first mapping that makes the list ambiguous. */
  method ValidateIdMappings(ms: seq<Mapping>) returns (verdict: Verdict)
    ensures verdict == Accepted <==> Unambiguous(ms)
    ensures verdict.Refused? ==>
              verdict.index < |ms| && Unambiguous(ms[..verdict.index]) && !Unambiguous(ms[..verdict.index + 1])
  {
    var seenDevices: set<string>, seenExternals: set<string> := {}, {};
    for i := 0 to |ms|
      invariant Unambiguous(ms[..i]) && Seen(ms[..i], seenDevices, seenExternals)
    {
      var m := ms[i];
      OneMore(ms, i);
      FitsIffApart(ms[..i], m, seenDevices, seenExternals);
      SeenOneMore(ms, i, seenDevices, seenExternals);
      PrefixIsUnambiguous(ms, i + 1);
      if m.device == m.external || m.device in seenDevices || m.external in seenExternals
         || m.device in seenExternals || m.external in seenDevices {
        return Refused(i);
      }
      seenDevices := seenDevices + {m.device};
      seenExternals := seenExternals + {m.external};
      if m.encrypted != "" {
        if m.encrypted in seenExternals || (m.encrypted in seenDevices && m.encrypted != m.device) {
          return Refused(i);
        }
        seenExternals := seenExternals + {m.encrypted};
      }
    }
    assert ms[..|ms|] == ms;
    return Accepted;
  }

  lemma PrefixIsUnambiguous(ms: seq<Mapping>, i: nat)
    requires i <= |ms|
    ensures Unambiguous(ms) ==> Unambiguous(ms[..i])
  {
  }
}
