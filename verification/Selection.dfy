/** Which version and thinking level a chat request uses: tables built from the server's policy, the saved or
    displayed selection, and the chain of fallbacks between the two. A missing string is the empty string. */
module Selection {
  import opened Common

  // ------------------------------------------------------------------ tables

  /** A level as the model list sends it, and as a table holds it. */
  datatype RawLevel = RawLevel(id: string, key: string)
  datatype RawVersion = RawVersion(id: string, defaultLevel: string, levels: seq<RawLevel>)
  datatype RawModel = RawModel(id: string, family: string, defaultVersion: string, chatgpt: bool, modeKeys: set<string>,
                               versions: Option<seq<RawVersion>>)

  datatype LaneState = LaneState(allowed: bool, available: bool, fallback: string)

  datatype Policy = Policy(allowed: set<string>, states: map<string, LaneState>)

  datatype Level = Level(id: string, key: string, state: LaneState)
  datatype Version = Version(id: string, defaultLevel: string, levels: seq<Level>, allowed: bool, available: bool)
  datatype Capability = Capability(modelId: string, family: string, defaultVersion: string, chatgpt: bool,
                                   modeKeys: set<string>, versions: seq<Version>)

  function StateOf(policy: Policy, key: string): LaneState {
    if key in policy.states then policy.states[key]
    else LaneState(key in policy.allowed, key in policy.allowed, "")
  }

  function KeyOf(version: string, level: RawLevel): string {
    if level.key != "" then level.key else version + ":" + level.id
  }

  function BuildLevel(policy: Policy, version: string, level: RawLevel): Level {
    var key := KeyOf(version, level);
    Level(level.id, key, StateOf(policy, key))
  }

  predicate SomeAvailable(levels: seq<Level>) {
    exists l :: l in levels && l.state.available
  }

  predicate SomeAllowed(levels: seq<Level>) {
    exists l :: l in levels && l.state.allowed
  }

  function BuildLevels(policy: Policy, version: string, levels: seq<RawLevel>): (r: seq<Level>)
    ensures |r| == |levels| && forall i :: 0 <= i < |r| ==> r[i] == BuildLevel(policy, version, levels[i])
  {
    seq(|levels|, i requires 0 <= i < |levels| => BuildLevel(policy, version, levels[i]))
  }

  function BuildVersion(policy: Policy, version: RawVersion): Version {
    var levels := BuildLevels(policy, version.id, version.levels);
    Version(version.id, version.defaultLevel, levels, SomeAllowed(levels), SomeAvailable(levels))
  }

  /** Versions without levels are left out. */
  function BuildVersions(policy: Policy, versions: seq<RawVersion>): (r: seq<Version>) {
    if versions == [] then []
    else
      (if versions[0].levels == [] then [] else [BuildVersion(policy, versions[0])])
      + BuildVersions(policy, versions[1..])
  }

  predicate Usable(model: RawModel) {
    && model.id != "" && model.versions.Some?
    && exists i :: 0 <= i < |model.versions.value| && model.versions.value[i].levels != []
  }

  function Build(policy: Policy, model: RawModel): Capability
    requires Usable(model)
  {
    var versions := BuildVersions(policy, model.versions.value);
    BuiltSomething(policy, model.versions.value);
    var default := if exists v :: v in versions && v.id == model.defaultVersion then model.defaultVersion
                   else versions[0].id;
    Capability(model.id, model.family, default, model.chatgpt, model.modeKeys, versions)
  }

  /** Every table offers a version, every version a level, and the default is one of the versions. */
  ghost predicate WellFormed(c: Capability) {
    && c.versions != []
    && (forall v :: v in c.versions ==> v.levels != [])
    && exists v :: v in c.versions && v.id == c.defaultVersion
  }

  lemma {:induction false} BuiltSomething(policy: Policy, versions: seq<RawVersion>)
    ensures BuildVersions(policy, versions) != [] <==> exists i :: 0 <= i < |versions| && versions[i].levels != []
  {
    if versions != [] {
      BuiltSomething(policy, versions[1..]);
      if i :| 0 <= i < |versions[1..]| && versions[1..][i].levels != [] {
        assert versions[i + 1].levels != [];
      }
      if i :| 0 <= i < |versions| && versions[i].levels != [] && versions[0].levels == [] {
        assert versions[1..][i - 1].levels != [];
      }
    }
  }

  lemma {:induction false} BuiltFrom(policy: Policy, versions: seq<RawVersion>, v: Version)
    ensures v in BuildVersions(policy, versions) <==>
              exists i :: 0 <= i < |versions| && versions[i].levels != [] && v == BuildVersion(policy, versions[i])
  {
    if versions != [] {
      BuiltFrom(policy, versions[1..], v);
      if i :| 0 <= i < |versions[1..]| && versions[1..][i].levels != [] && v == BuildVersion(policy, versions[1..][i]) {
        assert versions[i + 1] == versions[1..][i];
      }
      if i :| 1 <= i < |versions| && versions[i].levels != [] && v == BuildVersion(policy, versions[i]) {
        assert versions[1..][i - 1] == versions[i];
      }
    }
  }

  lemma BuildIsWellFormed(policy: Policy, model: RawModel)
    requires Usable(model)
    ensures WellFormed(Build(policy, model))
  {
    var versions := BuildVersions(policy, model.versions.value);
    BuiltSomething(policy, model.versions.value);
    forall v | v in versions ensures v.levels != [] {
      BuiltFrom(policy, model.versions.value, v);
    }
    assert versions[0] in versions;
  }

  // ------------------------------------------------------------------ choosing

  datatype Mode = NoMode | Smart | Legacy

  /** What is saved or displayed; a field that is not a string is None. */
  datatype Request = Request(version: Option<string>, thinking: Option<string>, mode: Mode)

  function FindVersion(versions: seq<Version>, p: Version -> bool): (r: Option<Version>)
    ensures match r
            case Some(v) => v in versions && p(v)
            case None => forall v :: v in versions ==> !p(v)
  {
    if versions == [] then None
    else if p(versions[0]) then Some(versions[0])
    else FindVersion(versions[1..], p)
  }

  function FindLevel(levels: seq<Level>, p: Level -> bool): (r: Option<Level>)
    ensures match r
            case Some(l) => l in levels && p(l)
            case None => forall l :: l in levels ==> !p(l)
  {
    if levels == [] then None
    else if p(levels[0]) then Some(levels[0])
    else FindLevel(levels[1..], p)
  }

  predicate IsAvailable(l: Level) { l.state.available }

  predicate IsAllowed(l: Level) { l.state.allowed }

  predicate Offers(v: Version) { SomeAvailable(v.levels) }

  predicate Permits(v: Version) { SomeAllowed(v.levels) }

  function OrVersion(a: Option<Version>, b: Option<Version>): Option<Version> {
    if a.Some? then a else b
  }

  function OrLevel(a: Option<Level>, b: Option<Level>): Option<Level> {
    if a.Some? then a else b
  }

  function Resolved(c: Capability, version: string, thinking: string, mode: Mode): Request {
    var smart := if version + ":" + thinking in c.modeKeys then Smart else Legacy;
    Request(Some(version), Some(thinking),
            if !c.chatgpt then NoMode else if mode == Legacy && version != "latest" then Legacy else smart)
  }

  /** The first level with an id in the first version with an id. */
  function Lane(c: Capability, s: Request): Option<Level> {
    match FindVersion(c.versions, (v: Version) => Some(v.id) == s.version)
    case None => None
    case Some(v) => FindLevel(v.levels, (l: Level) => Some(l.id) == s.thinking)
  }

  /** The first available level with a key, with its version. */
  function KeyedLane(versions: seq<Version>, key: string): (r: Option<(Version, Level)>)
    ensures match r
            case Some(found) =>
              found.0 in versions && found.1 in found.0.levels && found.1.key == key && IsAvailable(found.1)
            case None => forall v, l :: v in versions && l in v.levels && l.key == key ==> !IsAvailable(l)
  {
    if versions == [] then None
    else
      match FindLevel(versions[0].levels, (l: Level) => l.key == key && l.state.available)
      case Some(l) => Some((versions[0], l))
      case None => KeyedLane(versions[1..], key)
  }

  function ChosenVersion(c: Capability, s: Request): (r: Version)
    requires c.versions != []
    ensures r in c.versions
  {
    var found :=
      OrVersion(FindVersion(c.versions, (v: Version) => Some(v.id) == s.version && Offers(v)),
      OrVersion(FindVersion(c.versions, (v: Version) => v.id == c.defaultVersion && Offers(v)),
      OrVersion(FindVersion(c.versions, Offers),
                FindVersion(c.versions, Permits))));
    if found.Some? then found.value else c.versions[0]
  }

  function ChosenLevel(v: Version, s: Request): (r: Level)
    requires v.levels != []
    ensures r in v.levels
  {
    var found :=
      OrLevel(FindLevel(v.levels, (l: Level) => Some(l.id) == s.thinking && l.state.available),
      OrLevel(FindLevel(v.levels, (l: Level) => l.id == v.defaultLevel && l.state.available),
      OrLevel(FindLevel(v.levels, IsAvailable),
              FindLevel(v.levels, IsAllowed))));
    if found.Some? then found.value else v.levels[0]
  }

  /** The fallback of an unavailable lane, if it names an available one. */
  function FallbackLane(c: Capability, s: Request): Option<(Version, Level)> {
    match Lane(c, s)
    case None => None
    case Some(l) => if l.state.fallback == "" then None else KeyedLane(c.versions, l.state.fallback)
  }

  function ValidSelection(c: Capability, s: Request): Request
    requires WellFormed(c)
  {
    if Lane(c, s).Some? && IsAvailable(Lane(c, s).value) then Resolved(c, s.version.value, s.thinking.value, s.mode)
    else
      match FallbackLane(c, s)
      case Some(found) => Resolved(c, found.0.id, found.1.id, Smart)
      case None =>
        var v := ChosenVersion(c, s);
        Resolved(c, v.id, ChosenLevel(v, s).id, Smart)
  }

  // ------------------------------------------------------------------ what the choice guarantees

  /** No two versions, and within a version no two levels, share an id. */
  ghost predicate UniqueIds(c: Capability) {
    && (forall v, w :: v in c.versions && w in c.versions && v.id == w.id ==> v == w)
    && (forall v, l, m :: v in c.versions && l in v.levels && m in v.levels && l.id == m.id ==> l == m)
  }

  ghost predicate AnyAvailable(c: Capability) {
    exists v, l :: v in c.versions && l in v.levels && IsAvailable(l)
  }

  /** The lane a selection names exists and is available. */
  predicate NamesAvailable(c: Capability, s: Request) {
    Lane(c, s).Some? && IsAvailable(Lane(c, s).value)
  }

  lemma LaneNames(c: Capability, s: Request)
    ensures Lane(c, s).Some? ==> s.thinking == Some(Lane(c, s).value.id)
    ensures Lane(c, s).Some? ==>
              (exists v :: v in c.versions && Lane(c, s).value in v.levels && s.version == Some(v.id))
  {
  }

  /** With unique ids a lane is found under its own ids. */
  lemma LaneOfMember(c: Capability, v: Version, l: Level, mode: Mode)
    requires UniqueIds(c) && v in c.versions && l in v.levels
    ensures Lane(c, Request(Some(v.id), Some(l.id), mode)) == Some(l)
  {
    var s := Request(Some(v.id), Some(l.id), mode);
    var found := FindVersion(c.versions, (x: Version) => Some(x.id) == s.version);
    assert found == Some(v);
  }

  /** The last resort still finds an available lane when there is one. */
  lemma ChosenIsAvailable(c: Capability, s: Request)
    requires WellFormed(c) && AnyAvailable(c)
    ensures ChosenVersion(c, s) in c.versions && ChosenVersion(c, s).levels != []
    ensures IsAvailable(ChosenLevel(ChosenVersion(c, s), s))
  {
    hide FindVersion, FindLevel;
    var v, l :| v in c.versions && l in v.levels && IsAvailable(l);
    assert Offers(v);
    assert Offers(ChosenVersion(c, s));
  }

  /** An available request is kept, version and level. A picker with modes shows it as smart exactly when the
      lane is on its list and legacy mode was not asked for; the latest version has no legacy mode. */
  lemma AvailableIsKept(c: Capability, s: Request)
    requires WellFormed(c) && NamesAvailable(c, s)
    ensures ValidSelection(c, s).version == s.version && ValidSelection(c, s).thinking == s.thinking
    ensures ValidSelection(c, s).mode == Smart <==>
              && c.chatgpt && s.version.value + ":" + s.thinking.value in c.modeKeys
              && (s.mode != Legacy || s.version.value == "latest")
    ensures ValidSelection(c, s).mode == NoMode <==> !c.chatgpt
  {
    LaneNames(c, s);
  }

  /** The result always names a lane of the table. */
  lemma ResultIsALane(c: Capability, s: Request)
    requires WellFormed(c) && UniqueIds(c)
    ensures Lane(c, ValidSelection(c, s)).Some?
  {
    hide ChosenVersion, ChosenLevel, Lane;
    var r := ValidSelection(c, s);
    if NamesAvailable(c, s) {
      LaneNames(c, s);
      var v :| v in c.versions && Lane(c, s).value in v.levels && s.version == Some(v.id);
      LaneOfMember(c, v, Lane(c, s).value, r.mode);
    } else if FallbackLane(c, s).Some? {
      var found := FallbackLane(c, s).value;
      LaneOfMember(c, found.0, found.1, r.mode);
    } else {
      var v := ChosenVersion(c, s);
      LaneOfMember(c, v, ChosenLevel(v, s), r.mode);
    }
  }

  /** Whenever some lane is available, whatever is asked for, the result is an available lane. */
  lemma AvailableWheneverAny(c: Capability, s: Request)
    requires WellFormed(c) && UniqueIds(c)
    ensures NamesAvailable(c, ValidSelection(c, s)) <==> AnyAvailable(c)
  {
    hide ChosenVersion, ChosenLevel, Lane;
    var r := ValidSelection(c, s);
    LaneNames(c, r);
    if AnyAvailable(c) {
      if NamesAvailable(c, s) {
        LaneNames(c, s);
        var v :| v in c.versions && Lane(c, s).value in v.levels && s.version == Some(v.id);
        LaneOfMember(c, v, Lane(c, s).value, r.mode);
      } else if FallbackLane(c, s).Some? {
        var found := FallbackLane(c, s).value;
        LaneOfMember(c, found.0, found.1, r.mode);
      } else {
        var v := ChosenVersion(c, s);
        ChosenIsAvailable(c, s);
        LaneOfMember(c, v, ChosenLevel(v, s), r.mode);
      }
    }
  }

  /** The mode of a result is what resolving it again gives. */
  lemma ResolvedTwice(c: Capability, version: string, thinking: string, mode: Mode)
    ensures var r := Resolved(c, version, thinking, mode); Resolved(c, version, thinking, r.mode) == r
    ensures Resolved(c, version, thinking, mode).mode == Legacy ==> c.chatgpt
    ensures Resolved(c, version, thinking, mode).mode == NoMode <==> !c.chatgpt
  {
  }

  /** With nothing available the choice no longer depends on the request. */
  lemma NothingAvailable(c: Capability, s: Request, t: Request)
    requires WellFormed(c) && !AnyAvailable(c)
    ensures !NamesAvailable(c, s) && FallbackLane(c, s).None?
    ensures ChosenVersion(c, s) == ChosenVersion(c, t)
    ensures ChosenLevel(ChosenVersion(c, s), s) == ChosenLevel(ChosenVersion(c, s), t)
  {
    hide FindVersion, FindLevel, KeyedLane, Lane, Offers;
    LaneNames(c, s);
    forall v | v in c.versions ensures !Offers(v) {
      OfferedIsAvailable(c, v);
    }
    SameLevel(ChosenVersion(c, s), s, t);
  }

  lemma SameLevel(v: Version, s: Request, t: Request)
    requires v.levels != [] && forall l :: l in v.levels ==> !IsAvailable(l)
    ensures ChosenLevel(v, s) == ChosenLevel(v, t)
  {
    hide FindLevel;
  }

  lemma OfferedIsAvailable(c: Capability, v: Version)
    requires v in c.versions
    ensures Offers(v) ==> AnyAvailable(c)
  {
    if Offers(v) {
      var l :| l in v.levels && l.state.available;
      assert IsAvailable(l);
    }
  }

  /** Choosing again changes nothing: version, level and mode are settled after one pass. */
  lemma ValidIsIdempotent(c: Capability, s: Request)
    requires WellFormed(c) && UniqueIds(c)
    ensures ValidSelection(c, ValidSelection(c, s)) == ValidSelection(c, s)
  {
    hide ChosenVersion, ChosenLevel, Lane, FallbackLane;
    var r := ValidSelection(c, s);
    AvailableWheneverAny(c, s);
    if AnyAvailable(c) {
      ResolvedTwice(c, r.version.value, r.thinking.value,
                    if NamesAvailable(c, s) then s.mode else Smart);
    } else {
      NothingAvailable(c, s, r);
      NothingAvailable(c, r, s);
    }
  }

  /** An exhausted lane gives way to the fallback the policy names for it, when that is available. */
  lemma FallbackIsHonoured(c: Capability, s: Request, v: Version, l: Level)
    requires WellFormed(c) && UniqueIds(c) && v in c.versions && l in v.levels && IsAvailable(l)
    requires Lane(c, s).Some? && !IsAvailable(Lane(c, s).value) && Lane(c, s).value.state.fallback == l.key != ""
    ensures NamesAvailable(c, ValidSelection(c, s)) && Lane(c, ValidSelection(c, s)).value.key == l.key
  {
    hide ChosenVersion, ChosenLevel, Lane;
    var found := FallbackLane(c, s).value;
    LaneOfMember(c, found.0, found.1, ValidSelection(c, s).mode);
  }

  lemma VersionById(c: Capability, v: Version, id: Option<string>)
    requires UniqueIds(c) && v in c.versions && id == Some(v.id)
    ensures FindVersion(c.versions, (x: Version) => Some(x.id) == id && Offers(x)) ==
            if Offers(v) then Some(v) else None
    ensures FindVersion(c.versions, (x: Version) => x.id == v.id && Offers(x)) == if Offers(v) then Some(v) else None
  {
    hide Offers;
  }

  /** Without a usable fallback the version asked for is kept while it still offers something; then the default
      version has its turn. */
  lemma VersionOrder(c: Capability, s: Request, asked: Version, default: Version)
    requires WellFormed(c) && UniqueIds(c) && !NamesAvailable(c, s) && FallbackLane(c, s).None?
    requires asked in c.versions && s.version == Some(asked.id)
    requires default in c.versions && default.id == c.defaultVersion
    ensures Offers(asked) ==> ValidSelection(c, s).version == s.version
    ensures !Offers(asked) && Offers(default) ==> ValidSelection(c, s).version == Some(c.defaultVersion)
  {
    hide FindVersion, FindLevel, Lane, FallbackLane, ChosenLevel, Offers;
    VersionById(c, asked, s.version);
    VersionById(c, default, Some(default.id));
  }

  lemma {:induction false} FirstVersion(versions: seq<Version>, p: Version -> bool) returns (i: nat)
    requires FindVersion(versions, p).Some?
    ensures i < |versions| && FindVersion(versions, p) == Some(versions[i]) && p(versions[i])
    ensures forall j :: 0 <= j < i ==> !p(versions[j])
  {
    if p(versions[0]) {
      i := 0;
    } else {
      i := FirstVersion(versions[1..], p);
      i := i + 1;
    }
  }

  /** `v` is the first version in the table's order that has a level with the property, given as a test. */
  ghost predicate IsFirst(versions: seq<Version>, v: Version, test: Level -> bool) {
    exists i :: 0 <= i < |versions| && versions[i] == v && (exists l :: l in v.levels && test(l))
      && forall j, l :: 0 <= j < i && l in versions[j].levels ==> !test(l)
  }

  /** When neither the version asked for nor the default one offers anything, the first one that does is taken; when
      none does, the first with an allowed level; and when there is none of these, the first of all. */
  lemma LaterVersions(c: Capability, s: Request)
    requires WellFormed(c) && !NamesAvailable(c, s) && FallbackLane(c, s).None?
    requires forall v :: v in c.versions && (Some(v.id) == s.version || v.id == c.defaultVersion) ==> !Offers(v)
    ensures var v := ChosenVersion(c, s);
            && ValidSelection(c, s).version == Some(v.id)
            && if AnyAvailable(c) then IsFirst(c.versions, v, IsAvailable)
               else if exists w, l :: w in c.versions && l in w.levels && IsAllowed(l)
               then IsFirst(c.versions, v, IsAllowed)
               else v == c.versions[0]
  {
    hide FindVersion, FindLevel, ChosenLevel, Lane, FallbackLane;
    if FindVersion(c.versions, Offers).Some? {
      var i := FirstVersion(c.versions, Offers);
      FirstOffers(c, i);
    } else {
      forall w | w in c.versions ensures !Offers(w) {
      }
      NoneOffers(c);
      if FindVersion(c.versions, Permits).Some? {
        var i := FirstVersion(c.versions, Permits);
        FirstPermits(c, i);
      } else {
        forall w, l | w in c.versions && l in w.levels ensures !IsAllowed(l) {
          assert !Permits(w);
        }
      }
    }
  }

  lemma FirstOffers(c: Capability, i: nat)
    requires i < |c.versions| && Offers(c.versions[i]) && forall j :: 0 <= j < i ==> !Offers(c.versions[j])
    ensures IsFirst(c.versions, c.versions[i], IsAvailable) && AnyAvailable(c)
  {
    var l :| l in c.versions[i].levels && l.state.available;
    assert IsAvailable(l) && c.versions[i] in c.versions;
    forall j, m | 0 <= j < i && m in c.versions[j].levels ensures !IsAvailable(m) {
      assert !Offers(c.versions[j]);
    }
  }

  lemma FirstPermits(c: Capability, i: nat)
    requires i < |c.versions| && Permits(c.versions[i]) && forall j :: 0 <= j < i ==> !Permits(c.versions[j])
    ensures IsFirst(c.versions, c.versions[i], IsAllowed)
    ensures exists w, l :: w in c.versions && l in w.levels && IsAllowed(l)
  {
    var l :| l in c.versions[i].levels && l.state.allowed;
    assert IsAllowed(l) && c.versions[i] in c.versions;
    forall j, m | 0 <= j < i && m in c.versions[j].levels ensures !IsAllowed(m) {
      assert !Permits(c.versions[j]);
    }
  }

  lemma NoneOffers(c: Capability)
    requires forall w :: w in c.versions ==> !Offers(w)
    ensures !AnyAvailable(c)
  {
    forall v | v in c.versions ensures forall l :: l in v.levels ==> !IsAvailable(l) {
      assert !Offers(v);
    }
  }

  /** A lane that was not asked for, or not available, comes in the picker's own mode: smart exactly when the picker
      lists it, whatever mode was asked for. */
  lemma FallbackMode(c: Capability, s: Request)
    requires WellFormed(c) && !NamesAvailable(c, s)
    ensures var r := ValidSelection(c, s);
            && r.version.Some? && r.thinking.Some?
            && r.mode == if !c.chatgpt then NoMode
                         else if r.version.value + [':'] + r.thinking.value in c.modeKeys then Smart else Legacy
  {
    hide ChosenVersion, ChosenLevel, Lane, FallbackLane;
  }

  /** Within the version, the level asked for comes first, then the version's own default, as far as they are
      available; and what is merely allowed is taken only when nothing is available. */
  lemma LevelOrder(v: Version, s: Request, l: Level)
    requires l in v.levels && forall m :: m in v.levels && m.id == l.id ==> m == l
    ensures IsAvailable(l) && Some(l.id) == s.thinking ==> ChosenLevel(v, s) == l
    ensures IsAvailable(l) && l.id == v.defaultLevel ==>
              ChosenLevel(v, s) == l || Some(ChosenLevel(v, s).id) == s.thinking
    ensures IsAvailable(l) ==> IsAvailable(ChosenLevel(v, s))
    ensures IsAllowed(l) ==> IsAvailable(ChosenLevel(v, s)) || IsAllowed(ChosenLevel(v, s))
  {
    hide FindLevel;
  }

  /** With nothing saved, a new browser starts in the default version when that offers something. */
  lemma FirstUse(c: Capability, default: Version)
    requires WellFormed(c) && UniqueIds(c) && default in c.versions && default.id == c.defaultVersion && Offers(default)
    ensures ValidSelection(c, ReadSelection(c, Nothing)).version == Some(c.defaultVersion)
  {
    hide Offers;
    var s := ReadSelection(c, Nothing);
    LaneNames(c, s);
    VersionOrder(c, s, default, default);
  }

  // ------------------------------------------------------------------ saving and reading

  /** A saved selection: text that does not parse to an object is None. */
  datatype Saved = Nothing | Saved(version: Option<string>, thinking: Option<string>, legacy: bool)

  function Save(s: Request): Saved {
    Saved(s.version, s.thinking, s.mode == Legacy)
  }

  function ReadSelection(c: Capability, saved: Saved): Request {
    var mode := if c.chatgpt then Smart else NoMode;
    match saved
    case Nothing => Request(Some(c.defaultVersion), None, mode)
    case Saved(version, thinking, legacy) =>
      Request(if version.Some? then version else Some(c.defaultVersion), thinking, if legacy then Legacy else mode)
  }

  /** What was chosen and saved is read back as it was, and choosing again keeps it. */
  lemma ChoiceSurvivesReload(c: Capability, s: Request)
    requires WellFormed(c) && UniqueIds(c)
    ensures ReadSelection(c, Save(ValidSelection(c, s))) == ValidSelection(c, s)
    ensures ValidSelection(c, ReadSelection(c, Save(ValidSelection(c, s)))) == ValidSelection(c, s)
  {
    ValidIsIdempotent(c, s);
    ResolvedModes(c, s);
  }

  lemma ResolvedModes(c: Capability, s: Request)
    requires WellFormed(c)
    ensures ValidSelection(c, s).version.Some?
    ensures ValidSelection(c, s).mode == NoMode <==> !c.chatgpt
  {
    hide ChosenVersion, ChosenLevel, Lane, FallbackLane;
  }

  // ------------------------------------------------------------------ from policy to request

  /** A chat request takes the displayed selection when the controls show this model, else the saved one. */
  function RequestSelection(c: Capability, displayed: Option<(Option<string>, Option<string>)>, saved: Saved): Request
    requires WellFormed(c)
  {
    ValidSelection(c, match displayed
                      case Some(shown) => Request(shown.0, shown.1, NoMode)
                      case None => ReadSelection(c, saved))
  }

  ghost predicate RawUnique(model: RawModel)
    requires model.versions.Some?
  {
    var versions := model.versions.value;
    && (forall v, w :: v in versions && w in versions && v.id == w.id ==> v == w)
    && (forall v, l, m :: v in versions && l in v.levels && m in v.levels && l.id == m.id ==> l == m)
  }

  lemma {:induction false} BuiltVersionIsRaw(policy: Policy, versions: seq<RawVersion>, v: Version)
      returns (raw: RawVersion)
    requires v in BuildVersions(policy, versions)
    ensures raw in versions && raw.levels != [] && v == BuildVersion(policy, raw)
  {
    BuiltFrom(policy, versions, v);
    var i :| 0 <= i < |versions| && versions[i].levels != [] && v == BuildVersion(policy, versions[i]);
    raw := versions[i];
  }

  lemma BuiltLevelIsRaw(policy: Policy, raw: RawVersion, l: Level)
    ensures l in BuildVersion(policy, raw).levels <==>
              exists r :: r in raw.levels && l == BuildLevel(policy, raw.id, r)
  {
    var levels := BuildLevels(policy, raw.id, raw.levels);
    if r :| r in raw.levels && l == BuildLevel(policy, raw.id, r) {
      var i :| 0 <= i < |raw.levels| && raw.levels[i] == r;
      assert levels[i] == l;
    }
  }

  lemma BuildIsUnique(policy: Policy, model: RawModel)
    requires Usable(model) && RawUnique(model)
    ensures UniqueIds(Build(policy, model))
  {
    hide BuildVersions, BuildVersion;
    var c := Build(policy, model);
    forall v, w | v in c.versions && w in c.versions && v.id == w.id ensures v == w {
      var x := BuiltVersionIsRaw(policy, model.versions.value, v);
      var y := BuiltVersionIsRaw(policy, model.versions.value, w);
      BuiltKeepsId(policy, x);
      BuiltKeepsId(policy, y);
    }
    forall v, l, m | v in c.versions && l in v.levels && m in v.levels && l.id == m.id ensures l == m {
      var x := BuiltVersionIsRaw(policy, model.versions.value, v);
      BuiltLevelIsRaw(policy, x, l);
      BuiltLevelIsRaw(policy, x, m);
    }
  }

  lemma BuiltKeepsId(policy: Policy, raw: RawVersion)
    ensures BuildVersion(policy, raw).id == raw.id
  {
  }

  /** What the server says of a lane: its quota state, and without one the list of allowed lanes. */
  predicate ServerOffers(policy: Policy, key: string) {
    || (key in policy.states && policy.states[key].available)
    || (key !in policy.states && key in policy.allowed)
  }

  predicate ServerAllows(policy: Policy, key: string) {
    || (key in policy.states && policy.states[key].allowed)
    || (key !in policy.states && key in policy.allowed)
  }

  /** A level without a key of its own goes by version and level. */
  function LaneText(version: string, level: RawLevel): string {
    if level.key == "" then version + ":" + level.id else level.key
  }

  /** The server makes some lane of a model available. */
  ghost predicate PolicyOffers(policy: Policy, model: RawModel)
    requires model.versions.Some?
  {
    exists v, l :: v in model.versions.value && l in v.levels && ServerOffers(policy, LaneText(v.id, l))
  }

  /** A built level carries just what the server says of its lane; only a quota state names a fallback. */
  lemma BuiltLevelSays(policy: Policy, version: string, level: RawLevel)
    ensures var l := BuildLevel(policy, version, level);
            && l.id == level.id && l.key == LaneText(version, level)
            && (IsAvailable(l) <==> ServerOffers(policy, l.key)) && (IsAllowed(l) <==> ServerAllows(policy, l.key))
            && (l.state.fallback != "" ==> l.key in policy.states && l.state.fallback == policy.states[l.key].fallback)
  {
  }

  lemma OffersAreBuilt(policy: Policy, model: RawModel)
    requires Usable(model)
    ensures AnyAvailable(Build(policy, model)) <==> PolicyOffers(policy, model)
  {
    hide BuildVersions, BuildVersion, StateOf, ServerOffers, LaneText;
    var c := Build(policy, model);
    if AnyAvailable(c) {
      var v, l :| v in c.versions && l in v.levels && IsAvailable(l);
      var x := BuiltVersionIsRaw(policy, model.versions.value, v);
      BuiltLevelIsRaw(policy, x, l);
      var raw :| raw in x.levels && l == BuildLevel(policy, x.id, raw);
      BuiltLevelSays(policy, x.id, raw);
    }
    if PolicyOffers(policy, model) {
      var v, l :| v in model.versions.value && l in v.levels && ServerOffers(policy, LaneText(v.id, l));
      var i :| 0 <= i < |model.versions.value| && model.versions.value[i] == v;
      var built := BuildVersion(policy, v);
      BuiltFrom(policy, model.versions.value, built);
      BuiltLevelIsRaw(policy, v, BuildLevel(policy, v.id, l));
      BuiltLevelSays(policy, v.id, l);
    }
  }

  lemma {:induction false} FirstWithLevels(policy: Policy, versions: seq<RawVersion>) returns (i: nat)
    requires BuildVersions(policy, versions) != []
    ensures i < |versions| && versions[i].levels != [] && BuildVersions(policy, versions)[0].id == versions[i].id
    ensures forall j :: 0 <= j < i ==> versions[j].levels == []
  {
    if versions[0].levels != [] {
      i := 0;
    } else {
      i := FirstWithLevels(policy, versions[1..]);
      i := i + 1;
    }
  }

  /** The table's default is the model's own when that version has levels, and else the first version that has. */
  lemma DefaultOfTable(policy: Policy, model: RawModel)
    requires Usable(model)
    ensures var versions, d := model.versions.value, Build(policy, model).defaultVersion;
            if exists v :: v in versions && v.levels != [] && v.id == model.defaultVersion
            then d == model.defaultVersion
            else exists i :: 0 <= i < |versions| && versions[i].levels != [] && d == versions[i].id
                   && forall j :: 0 <= j < i ==> versions[j].levels == []
  {
    hide BuildVersion;
    var versions := model.versions.value;
    BuiltSomething(policy, versions);
    var built := BuildVersions(policy, versions);
    if v :| v in versions && v.levels != [] && v.id == model.defaultVersion {
      BuiltFrom(policy, versions, BuildVersion(policy, v));
      BuiltKeepsId(policy, v);
    } else {
      forall w | w in built ensures w.id != model.defaultVersion {
        var raw := BuiltVersionIsRaw(policy, versions, w);
        BuiltKeepsId(policy, raw);
      }
      var i := FirstWithLevels(policy, versions);
    }
  }

  /** A lane of the table is one of the model list's, under the same ids, with the server's word on it. */
  lemma LaneIsListed(policy: Policy, model: RawModel, s: Request)
    requires Usable(model) && Lane(Build(policy, model), s).Some?
    ensures var lane := Lane(Build(policy, model), s).value;
            exists v, l :: v in model.versions.value && l in v.levels && s.version == Some(v.id)
              && s.thinking == Some(l.id) && (IsAvailable(lane) <==> ServerOffers(policy, LaneText(v.id, l)))
  {
    hide BuildVersions, BuildVersion, BuildLevel, Lane, ServerOffers, LaneText;
    var c := Build(policy, model);
    LaneNames(c, s);
    var lane := Lane(c, s).value;
    var v :| v in c.versions && lane in v.levels && s.version == Some(v.id);
    var x := BuiltVersionIsRaw(policy, model.versions.value, v);
    BuiltKeepsId(policy, x);
    BuiltLevelIsRaw(policy, x, lane);
    var raw :| raw in x.levels && lane == BuildLevel(policy, x.id, raw);
    BuiltLevelSays(policy, x.id, raw);
  }

  /** Whatever is displayed or saved, a request names a version and a level of the model list, and one that the
      server offers exactly when the server offers any. */
  lemma RequestFollowsPolicy(policy: Policy, model: RawModel, displayed: Option<(Option<string>, Option<string>)>,
      saved: Saved)
    requires Usable(model) && RawUnique(model)
    ensures WellFormed(Build(policy, model))
    ensures var r := RequestSelection(Build(policy, model), displayed, saved);
            exists v, l :: v in model.versions.value && l in v.levels && r.version == Some(v.id)
              && r.thinking == Some(l.id)
              && (ServerOffers(policy, LaneText(v.id, l)) <==> PolicyOffers(policy, model))
  {
    hide Build, Lane, ServerOffers, LaneText, ValidSelection, PolicyOffers;
    BuildIsWellFormed(policy, model);
    BuildIsUnique(policy, model);
    OffersAreBuilt(policy, model);
    var c := Build(policy, model);
    var s := match displayed
             case Some(shown) => Request(shown.0, shown.1, NoMode)
             case None => ReadSelection(c, saved);
    ResultIsALane(c, s);
    AvailableWheneverAny(c, s);
    LaneIsListed(policy, model, ValidSelection(c, s));
  }

  // ------------------------------------------------------------------ the tables in place

  const POLICY_FRESH_MS := 30000

  /** Every usable source has its table, built from the policy in force; every table is well formed. */
  ghost predicate Coherent(policy: Policy, sources: map<string, RawModel>, capabilities: map<string, Capability>) {
    && (forall id :: id in sources ==> sources[id].id == id)
    && (forall id :: id in sources && Usable(sources[id]) ==>
          id in capabilities && capabilities[id] == Build(policy, sources[id]))
    && (forall id :: id in capabilities ==> WellFormed(capabilities[id]) && capabilities[id].modelId == id)
  }

  class ModelControls {
    var policy: Policy
    var sources: map<string, RawModel>
    var capabilities: map<string, Capability>
    var policyLoading: bool
    var policyLoaded: bool
    var policyLoadedAt: int

    ghost predicate Valid()
      reads this
    {
      Coherent(policy, sources, capabilities)
    }

    constructor (defaults: set<string>)
      ensures Valid() && policy == Policy(defaults, map[]) && sources == map[] && capabilities == map[]
      ensures !policyLoading && !policyLoaded
    {
      policy, sources, capabilities := Policy(defaults, map[]), map[], map[];
      policyLoading, policyLoaded, policyLoadedAt := false, false, 0;
    }

    /** A model without an id or a list of versions is ignored; one without levels is remembered but gets no table. */
    method RegisterCapability(model: RawModel)
      modifies this`sources, this`capabilities
      ensures sources == if model.id == "" || model.versions.None? then old(sources)
          else old(sources)[model.id := model]
      ensures capabilities == if Usable(model) then old(capabilities)[model.id := Build(policy, model)]
          else old(capabilities)
      ensures old(Valid()) ==> Valid()
    {
      if model.id == "" || model.versions.None? { return; }
      sources := sources[model.id := model];
      var versions := BuildVersions(policy, model.versions.value);
      BuiltSomething(policy, model.versions.value);
      if versions == [] { return; }
      BuildIsWellFormed(policy, model);
      var default := if exists v :: v in versions && v.id == model.defaultVersion then model.defaultVersion
          else versions[0].id;
      capabilities := capabilities[model.id :=
        Capability(model.id, model.family, default, model.chatgpt, model.modeKeys, versions)];
    }

    /** Rebuild every table from its source. */
    method RefreshRegisteredCapabilities()
      requires forall id :: id in sources ==> sources[id].id == id
      requires forall id :: id in capabilities ==> WellFormed(capabilities[id]) && capabilities[id].modelId == id
      modifies this`sources, this`capabilities
      ensures Valid() && sources == old(sources)
      ensures forall id :: id in old(capabilities) && !(id in sources && Usable(sources[id])) ==>
                id in capabilities && capabilities[id] == old(capabilities)[id]
    {
      hide Build, WellFormed, Usable;
      var ids := sources.Keys;
      while ids != {}
        invariant ids <= sources.Keys && sources == old(sources)
        invariant forall id :: id in sources && id !in ids && Usable(sources[id]) ==>
          id in capabilities && capabilities[id] == Build(policy, sources[id])
        invariant forall id :: id in capabilities ==> WellFormed(capabilities[id]) && capabilities[id].modelId == id
        invariant forall id :: id in old(capabilities) && !(id in sources && Usable(sources[id])) ==>
          id in capabilities && capabilities[id] == old(capabilities)[id]
      {
        var id :| id in ids;
        ids := ids - {id};
        RegisterCapability(sources[id]);
        if Usable(sources[id]) { BuiltTable(policy, sources[id]); }
      }
    }

    /** One load at a time, and none while the last is fresh unless forced. */
    method BeginPolicyLoad(force: bool, now: int) returns (fetch: bool)
      modifies this`policyLoading
      ensures fetch <==> !old(policyLoading) && (force || !policyLoaded || now - policyLoadedAt >= 30000)
      ensures policyLoading == (old(policyLoading) || fetch)
    {
      if policyLoading { return false; }
      if !force && policyLoaded && now - policyLoadedAt < POLICY_FRESH_MS { return false; }
      policyLoading := true;
      return true;
    }

    /** The end of a load: a proper answer replaces the policy and rebuilds every table; any other changes nothing. */
    method FinishPolicyLoad(answer: Option<(Policy, RawModel)>, now: int)
      requires Valid() && policyLoading
      modifies this
      ensures Valid() && !policyLoading
      ensures answer.None? ==>
                policy == old(policy) && capabilities == old(capabilities) && sources == old(sources)
                && policyLoaded == old(policyLoaded) && policyLoadedAt == old(policyLoadedAt)
      ensures answer.Some? ==> policy == answer.value.0 && policyLoaded && policyLoadedAt == now
      ensures answer.Some? ==>
                var model := answer.value.1;
                sources == if model.id == "" || model.versions.None? then old(sources)
                  else old(sources)[model.id := model]
    {
      hide Build, WellFormed, Usable;
      if answer.Some? {
        policy := answer.value.0;
        policyLoaded := true;
        policyLoadedAt := now;
        RefreshRegisteredCapabilities();
        RegisterCapability(answer.value.1);
      }
      policyLoading := false;
    }
  }

  lemma BuiltTable(policy: Policy, model: RawModel)
    requires Usable(model)
    ensures WellFormed(Build(policy, model)) && Build(policy, model).modelId == model.id
  {
    BuildIsWellFormed(policy, model);
  }
}
