/** The helpers of src/helpers/Utils.ts: the UUID validator, the material
    tagging and registration step, and the `defines` key test. */
module Utils {
  import opened Wrappers
  import JsNum

  // ---------------------------------------------------------------- isUUID

  /** The character class `[0-9a-fA-F]`. */
  predicate IsHexDigit(c: char)
  {
    ('0' <= c <= '9') || ('a' <= c <= 'f') || ('A' <= c <= 'F')
  }

  predicate AllHex(s: string)
  {
    forall i :: 0 <= i < |s| ==> IsHexDigit(s[i])
  }

  /** The hex-run lengths of the pattern, separated by `-`. */
  const Groups: seq<nat> := [8, 4, 4, 4, 12]

  /** The anchored pattern `^H{g0}-H{g1}-...$` read left to right: a run of
      exactly `gs[0]` hex digits, then either the end of the input or a `-`
      and the rest of the pattern. Without the `m` flag, `$` matches only at
      the end of the input. */
  predicate Matches(s: string, gs: seq<nat>)
    requires |gs| >= 1
    decreases |gs|
  {
    if |gs| == 1 then |s| == gs[0] && AllHex(s)
    else
      && |s| > gs[0] && AllHex(s[..gs[0]]) && s[gs[0]] == '-'
      && Matches(s[gs[0] + 1..], gs[1..])
  }

  /** `isUUID`: whether the text matches the 8-4-4-4-12 pattern. */
  predicate IsUUID(s: string)
  {
    Matches(s, Groups)
  }

  /** The length a string matching the groups has. */
  function Width(gs: seq<nat>): nat
    requires |gs| >= 1
    decreases |gs|
  {
    if |gs| == 1 then gs[0] else gs[0] + 1 + Width(gs[1..])
  }

  /** Whether position `i` holds a separator in a string matching the groups. */
  predicate Sep(gs: seq<nat>, i: int)
    requires |gs| >= 1
    decreases |gs|
  {
    |gs| > 1 && (i == gs[0] || (i > gs[0] && Sep(gs[1..], i - gs[0] - 1)))
  }

  /** Position by position: the right length, `-` at the separators and a
      hex digit everywhere else. */
  predicate Laid(s: string, gs: seq<nat>)
    requires |gs| >= 1
  {
    |s| == Width(gs) && forall i :: 0 <= i < |s| ==> if Sep(gs, i) then s[i] == '-' else IsHexDigit(s[i])
  }

  /** The left-to-right reading of the pattern and the positional one agree. */
  lemma {:induction false} MatchesIffLaid(s: string, gs: seq<nat>)
    requires |gs| >= 1
    ensures Matches(s, gs) <==> Laid(s, gs)
    decreases |gs|
  {
    if |gs| > 1 {
      var g := gs[0];
      if |s| > g {
        var rest := s[g + 1..];
        MatchesIffLaid(rest, gs[1..]);
        assert forall i :: g < i < |s| ==> s[i] == rest[i - g - 1];
        if Matches(s, gs) {
          forall i | 0 <= i < |s|
            ensures if Sep(gs, i) then s[i] == '-' else IsHexDigit(s[i])
          {
            if i < g {
              assert s[i] == s[..g][i];
            } else if i > g {
              assert Sep(gs, i) == Sep(gs[1..], i - g - 1);
            }
          }
        }
        if Laid(s, gs) {
          forall i | 0 <= i < g
            ensures IsHexDigit(s[..g][i])
          {
            assert !Sep(gs, i);
          }
          assert Sep(gs, g);
          forall i | 0 <= i < |rest|
            ensures if Sep(gs[1..], i) then rest[i] == '-' else IsHexDigit(rest[i])
          {
            assert Sep(gs, i + g + 1) == Sep(gs[1..], i);
          }
        }
      } else {
        assert !Matches(s, gs);
        assert Width(gs) > g;
      }
    }
  }

  /** The separators of the UUID pattern. */
  predicate DashAt(i: int)
  {
    i == 8 || i == 13 || i == 18 || i == 23
  }

  lemma UuidSeparators(i: int)
    requires 0 <= i < 36
    ensures Sep(Groups, i) <==> DashAt(i)
  {
  }

  /** `isUUID(s)` holds exactly when `s` has length 36, `-` at positions 8,
      13, 18 and 23 and a hex digit at every other position. */
  lemma IsUUIDIffLayout(s: string)
    ensures IsUUID(s) <==>
      && |s| == 36
      && forall i :: 0 <= i < |s| ==> if DashAt(i) then s[i] == '-' else IsHexDigit(s[i])
  {
    MatchesIffLaid(s, Groups);
    var g1 := Groups[1..];
    assert g1 == [4, 4, 4, 12] && g1[1..] == [4, 4, 12] && g1[1..][1..] == [4, 12] && g1[1..][1..][1..] == [12];
    assert Width(Groups) == 36;
    forall i | 0 <= i < 36 {
      UuidSeparators(i);
    }
  }

  /** ASCII upper-casing, the identity on every other character. */
  function Upper(c: char): (u: char)
    ensures 'a' <= c <= 'z' ==> u as int == c as int - 32
    ensures !('a' <= c <= 'z') ==> u == c
  {
    if 'a' <= c <= 'z' then (c as int - 32) as char else c
  }

  function UpperAll(s: string): (u: string)
    ensures |u| == |s| && forall i :: 0 <= i < |s| ==> u[i] == Upper(s[i])
  {
    seq(|s|, i requires 0 <= i < |s| => Upper(s[i]))
  }

  /** The pattern is case-insensitive: upper-casing never changes the verdict. */
  lemma IsUUIDCaseInsensitive(s: string)
    ensures IsUUID(UpperAll(s)) <==> IsUUID(s)
  {
    var u := UpperAll(s);
    IsUUIDIffLayout(s);
    IsUUIDIffLayout(u);
    assert forall i :: 0 <= i < |s| ==> (IsHexDigit(u[i]) <==> IsHexDigit(s[i])) && (u[i] == '-' <==> s[i] == '-');
  }

  // ---------------------------------------------------------------- addMuiPerfID

  /** A JavaScript value as stored in `defines` or in the registry. */
  datatype Value =
    | Str(s: string)
    | Number(n: JsNum.Num)        // None is NaN
    | Bool(b: bool)
    | Null
    | Undefined
    | Object(id: nat)

  /** The values `!v` is true for. */
  predicate Falsy(v: Value)
  {
    || v == Str("") || v == Number(None) || v == Number(Some(0.0))
    || v == Bool(false) || v == Null || v == Undefined
  }

  /** The `defines` key the tag lives under. */
  const MuiKey: string := "muiPerf"

  /** A material: its `uuid`, its `defines` (None when unset) and its
      `needsUpdate` flag. */
  datatype Material = Material(uuid: string, defines: Option<map<string, Value>>, needsUpdate: bool)

  /** A registry slot: the entry `addMuiPerfID` creates (an object, so
      truthy), or whatever other value the caller's object holds. */
  datatype Slot =
    | Entry(meshes: set<string>, material: string)
    | Other(v: Value)

  predicate Registered(reg: map<string, Slot>, id: string)
  {
    id in reg && (reg[id].Entry? || !Falsy(reg[id].v))
  }

  /** A `defines` key read as `defines[k]`: a missing key reads `undefined`. */
  function Read(d: map<string, Value>, k: string): Value
  {
    if k in d then d[k] else Undefined
  }

  datatype Tagged = Tagged(material: Material, registry: map<string, Slot>, id: string)

  /** `addMuiPerfID`: give the material a `defines` map, tag it under
      `muiPerf` with its uuid unless a truthy tag is already there, register
      it under its uuid unless a truthy slot is already there, and return
      the uuid with `needsUpdate` cleared. */
  function AddMuiPerfID(m: Material, reg: map<string, Slot>): (r: Tagged)
    ensures r.id == m.uuid && r.material.uuid == m.uuid && !r.material.needsUpdate
    ensures r.material.defines.Some?
    ensures var d0 := m.defines.GetOr(map[]);
      var d := r.material.defines.value;
      && MuiKey in d
      && (Falsy(Read(d0, MuiKey)) ==> d[MuiKey] == Str(m.uuid))
      && (!Falsy(Read(d0, MuiKey)) ==> d[MuiKey] == d0[MuiKey])
      && (forall k :: k != MuiKey ==> (k in d <==> k in d0))
      && (forall k :: k != MuiKey && k in d ==> d[k] == d0[k])
    ensures Registered(r.registry, m.uuid)
    ensures !Registered(reg, m.uuid) ==> r.registry == reg[m.uuid := Entry({}, m.uuid)]
    ensures Registered(reg, m.uuid) ==> r.registry == reg
  {
    var d0 := if m.defines.None? then map[] else m.defines.value;
    var d := if Falsy(Read(d0, MuiKey)) then d0[MuiKey := Str(m.uuid)] else d0;
    var reg' := if Registered(reg, m.uuid) then reg else reg[m.uuid := Entry({}, m.uuid)];
    Tagged(m.(defines := Some(d), needsUpdate := false), reg', m.uuid)
  }

  /** A second call changes nothing: the tag and the registration are both
      already in place. */
  lemma AddMuiPerfIDIdempotent(m: Material, reg: map<string, Slot>)
    ensures var r := AddMuiPerfID(m, reg);
      AddMuiPerfID(r.material, r.registry) == r
  {
    var r := AddMuiPerfID(m, reg);
    var r2 := AddMuiPerfID(r.material, r.registry);
    var d := r.material.defines.value;
    var d2 := r2.material.defines.value;
    assert d2 == d by {
      assert forall k :: k in d2 <==> k in d;
      assert forall k :: k in d ==> d2[k] == d[k];
    }
  }

  /** `getMUIIndex`: whether a `defines` key is the tag key. */
  function GetMUIIndex(muid: string): (r: bool)
    ensures r <==> muid == "muiPerf"
  {
    muid == MuiKey
  }

  /** The only `defines` key `addMuiPerfID` adds or changes is the one
      `getMUIIndex` recognises. */
  lemma TagKeyIsRecognised(m: Material, reg: map<string, Slot>, k: string)
    ensures var d0 := m.defines.GetOr(map[]);
      var d := AddMuiPerfID(m, reg).material.defines.value;
      k in d && (k !in d0 || d[k] != d0[k]) ==> GetMUIIndex(k)
  {
  }
}
