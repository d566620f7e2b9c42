/**
 Asset classes, their versions and the mints pinned to them. `Registry` is the abstract state, with
 a version's functionalities as a set; the class keeps them as the byte mask the program stores.
 */
module Factory {
  import opened Numbers
  import opened Bitmask

  const FUNCTIONALITIES_BITS_MASK := 8_192
  const FUNCTIONALITIES_BYTES_MASK := FUNCTIONALITIES_BITS_MASK / MASK_CHUNK_BITS

  datatype VersionState = Draft | Finalized

  datatype VersionKey = VersionKey(configId: u64, version: u64)

  datatype AssetClass = AssetClass(owner: Pubkey, latestVersion: u64)

  datatype Version = Version(state: VersionState, functionalities: set<nat>)

  datatype Registry = Registry(
    manager: Pubkey, paused: bool, classes: map<u64, AssetClass>,
    versions: map<VersionKey, Version>, mints: map<Pubkey, VersionKey>)

  datatype Action =
    | CreateAssetClass(signer: Pubkey, configId: u64, owner: Pubkey)
    | SetOwner(configId: u64, owner: Pubkey)
    | SetManager(manager: Pubkey, paused: bool)
    | InitVersion(signer: Pubkey, key: VersionKey)
    | Enable(signer: Pubkey, key: VersionKey, positions: seq<u16>)
    | Disable(signer: Pubkey, key: VersionKey, positions: seq<u16>)
    | Finalize(signer: Pubkey, key: VersionKey)
    | DeployMint(mint: Pubkey, key: VersionKey)

  predicate OwnerCalls(g: Registry, signer: Pubkey, configId: u64) {
    !g.paused && configId in g.classes && g.classes[configId].owner == signer
  }

  predicate EditsDraft(g: Registry, signer: Pubkey, key: VersionKey, positions: seq<u16>) {
    && OwnerCalls(g, signer, key.configId)
    && key in g.versions && g.versions[key].state.Draft?
    && forall i | 0 <= i < |positions| :: positions[i] < FUNCTIONALITIES_BITS_MASK
  }

  predicate Can(g: Registry, a: Action) {
    match a
    case CreateAssetClass(signer, id, _) => !g.paused && signer == g.manager && id !in g.classes
    case SetOwner(id, _) => id in g.classes
    case SetManager(_, _) => true
    case InitVersion(signer, key) =>
      && OwnerCalls(g, signer, key.configId)
      && key.version == g.classes[key.configId].latestVersion + 1
      && key !in g.versions
    case Enable(signer, key, positions) => EditsDraft(g, signer, key, positions)
    case Disable(signer, key, positions) => EditsDraft(g, signer, key, positions)
    case Finalize(signer, key) =>
      && OwnerCalls(g, signer, key.configId)
      && key in g.versions && g.versions[key].state.Draft?
    case DeployMint(mint, key) => mint !in g.mints && key in g.versions && g.versions[key].state.Finalized?
  }

  function Do(g: Registry, a: Action): Registry
    requires Can(g, a)
  {
    match a
    case CreateAssetClass(_, id, owner) => g.(classes := g.classes[id := AssetClass(owner, 0)])
    case SetOwner(id, owner) => g.(classes := g.classes[id := g.classes[id].(owner := owner)])
    case SetManager(manager, paused) => g.(manager := manager, paused := paused)
    case InitVersion(_, key) => g.(versions := g.versions[key := Version(Draft, {})])
    case Enable(_, key, positions) =>
      var v := g.versions[key];
      g.(versions := g.versions[key := v.(functionalities := v.functionalities + Elements(positions))])
    case Disable(_, key, positions) =>
      var v := g.versions[key];
      g.(versions := g.versions[key := v.(functionalities := v.functionalities - Elements(positions))])
    case Finalize(_, key) =>
      var v, c := g.versions[key], g.classes[key.configId];
      g.(versions := g.versions[key := v.(state := Finalized)],
         classes := g.classes[key.configId := c.(latestVersion := key.version)])
    case DeployMint(mint, key) => g.(mints := g.mints[mint := key])
  }

  function Run(g: Registry, steps: seq<Action>): Option<Registry> {
    if |steps| == 0 then Some(g) else
      var before := Run(g, steps[..|steps| - 1]);
      var last := steps[|steps| - 1];
      if before.Some? && Can(before.value, last) then Some(Do(before.value, last)) else None
  }

  // ---------- What every reachable registry satisfies ----------

  function Latest(g: Registry, configId: u64): nat {
    if configId in g.classes then g.classes[configId].latestVersion else 0
  }

  /** Finalized versions of a class are exactly 1..latest, and a draft can only be latest + 1. */
  ghost predicate VersionsOk(g: Registry, key: VersionKey) {
    && (key in g.versions && g.versions[key].state.Finalized? <==> 1 <= key.version <= Latest(g, key.configId))
    && (key in g.versions && g.versions[key].state.Draft? ==>
          key.configId in g.classes && key.version == Latest(g, key.configId) + 1)
    && (key in g.versions ==>
          forall f | f in g.versions[key].functionalities :: f < FUNCTIONALITIES_BITS_MASK)
  }

  ghost predicate Inv(g: Registry) {
    && (forall key :: VersionsOk(g, key))
    && (forall mint | mint in g.mints ::
          g.mints[mint] in g.versions && g.versions[g.mints[mint]].state.Finalized?)
  }

  predicate Initial(g: Registry) { g.classes == map[] && g.versions == map[] && g.mints == map[] }

  lemma StepKeepsVersions(g: Registry, a: Action, key: VersionKey)
    requires Inv(g) && Can(g, a)
    ensures VersionsOk(Do(g, a), key)
  {
    assert VersionsOk(g, key);
    if a.Finalize? { assert VersionsOk(g, a.key); }
    if a.CreateAssetClass? { assert Latest(g, a.configId) == 0; }
  }

  lemma StepKeepsInv(g: Registry, a: Action)
    requires Inv(g) && Can(g, a)
    ensures Inv(Do(g, a))
  {
    forall key ensures VersionsOk(Do(g, a), key) { StepKeepsVersions(g, a, key); }
  }

  /** A finalized version is never written again, and a mint never changes version. */
  ghost predicate Pinned(g: Registry, g': Registry) {
    && (forall key | key in g.versions && g.versions[key].state.Finalized? ::
          key in g'.versions && g'.versions[key] == g.versions[key])
    && (forall mint | mint in g.mints :: mint in g'.mints && g'.mints[mint] == g.mints[mint])
  }

  lemma StepPins(g: Registry, a: Action)
    requires Can(g, a)
    ensures Pinned(g, Do(g, a))
  {
  }

  lemma {:induction false} RunKeepsInv(g: Registry, steps: seq<Action>)
    requires Inv(g) && Run(g, steps).Some?
    ensures Inv(Run(g, steps).value) && Pinned(g, Run(g, steps).value)
  {
    if |steps| > 0 {
      var front := steps[..|steps| - 1];
      RunKeepsInv(g, front);
      StepKeepsInv(Run(g, front).value, steps[|steps| - 1]);
      StepPins(Run(g, front).value, steps[|steps| - 1]);
    }
  }

  /** From the empty registry: versions 1..latest finalized, at most one draft, right after them. */
  lemma VersionsSequential(start: Registry, steps: seq<Action>, configId: u64, version: u64)
    requires Initial(start) && Run(start, steps).Some?
    ensures var g, key := Run(start, steps).value, VersionKey(configId, version);
            && (1 <= version <= Latest(g, configId) <==> key in g.versions && g.versions[key].state.Finalized?)
            && (key in g.versions && g.versions[key].state.Draft? ==> version == Latest(g, configId) + 1)
  {
    RunKeepsInv(start, steps);
    assert VersionsOk(Run(start, steps).value, VersionKey(configId, version));
  }

  // ---------- The question every program asks ----------

  datatype QueryError = NotDeployed | NotFinalized | OutOfBounds

  function IsFunctionalityEnabled(g: Registry, mint: Pubkey, functionality: u16): Result<bool, QueryError> {
    if mint !in g.mints || g.mints[mint] !in g.versions then Err(NotDeployed) else
    var v := g.versions[g.mints[mint]];
    if !v.state.Finalized? then Err(NotFinalized)
    else if functionality >= FUNCTIONALITIES_BITS_MASK then Err(OutOfBounds)
    else Ok(functionality in v.functionalities)
  }

  /** Once a mint is deployed, every functionality query has one answer for good. */
  lemma AnswersNeverChange(start: Registry, steps: seq<Action>, later: seq<Action>, mint: Pubkey, f: u16)
    requires Initial(start) && Run(start, steps).Some? && mint in Run(start, steps).value.mints
    requires Run(Run(start, steps).value, later).Some?
    ensures var g := Run(start, steps).value;
            && IsFunctionalityEnabled(Run(g, later).value, mint, f) == IsFunctionalityEnabled(g, mint, f)
            && (IsFunctionalityEnabled(g, mint, f).Err? <==> f >= FUNCTIONALITIES_BITS_MASK)
            && IsFunctionalityEnabled(g, mint, f) != Err(NotFinalized)
  {
    RunKeepsInv(start, steps);
    RunKeepsInv(Run(start, steps).value, later);
  }

  // ---------- The registry read off its actions ----------

  datatype Subject =
    | Toggle(key: VersionKey, functionality: nat) | Deployment(mint: Pubkey) | Ownership(configId: u64) | Management

  predicate Concerns(a: Action, t: Subject) {
    match t
    case Toggle(key, f) => (a.Enable? || a.Disable?) && a.key == key && f in a.positions
    case Deployment(mint) => a.DeployMint? && a.mint == mint
    case Ownership(id) => (a.CreateAssetClass? || a.SetOwner?) && a.configId == id
    case Management => a.SetManager?
  }

  /** The last action that concerns the subject. */
  function Last(steps: seq<Action>, t: Subject): Option<Action> {
    if |steps| == 0 then None
    else if Concerns(steps[|steps| - 1], t) then Some(steps[|steps| - 1])
    else Last(steps[..|steps| - 1], t)
  }

  predicate Enabled(g: Registry, key: VersionKey, f: nat) { key in g.versions && f in g.versions[key].functionalities }

  predicate TurnedOn(last: Option<Action>) { last.Some? && last.value.Enable? }

  lemma StepBit(g: Registry, a: Action, key: VersionKey, f: nat)
    requires Can(g, a)
    ensures Enabled(Do(g, a), key, f) <==> if Concerns(a, Toggle(key, f)) then a.Enable? else Enabled(g, key, f)
  {
  }

  /** A functionality is on exactly if the last edit of the version that names it was an enabling one. */
  lemma {:induction false} BitsFromHistory(start: Registry, steps: seq<Action>, key: VersionKey, f: nat)
    requires Initial(start) && Run(start, steps).Some?
    ensures Enabled(Run(start, steps).value, key, f) <==> TurnedOn(Last(steps, Toggle(key, f)))
  {
    if |steps| > 0 {
      BitsFromHistory(start, steps[..|steps| - 1], key, f);
      StepBit(Run(start, steps[..|steps| - 1]).value, steps[|steps| - 1], key, f);
    }
  }

  function PinnedTo(last: Option<Action>): Option<VersionKey> {
    if last.Some? && last.value.DeployMint? then Some(last.value.key) else None
  }

  lemma {:induction false} MintsFromHistory(start: Registry, steps: seq<Action>, mint: Pubkey)
    requires Initial(start) && Run(start, steps).Some?
    ensures var g := Run(start, steps).value;
            (if mint in g.mints then Some(g.mints[mint]) else None) == PinnedTo(Last(steps, Deployment(mint)))
  {
    if |steps| > 0 { MintsFromHistory(start, steps[..|steps| - 1], mint); }
  }

  /**
   A query about a mint is answered yes exactly if the last edit, in the whole run, of the version
   named in the mint's deployment that names the functionality was an enabling one.
   */
  lemma AnswersFromHistory(start: Registry, steps: seq<Action>, mint: Pubkey, f: u16)
    requires Initial(start) && Run(start, steps).Some?
    ensures var key := PinnedTo(Last(steps, Deployment(mint)));
            IsFunctionalityEnabled(Run(start, steps).value, mint, f) ==
            if key.None? then Err(NotDeployed)
            else if f >= FUNCTIONALITIES_BITS_MASK then Err(OutOfBounds)
            else Ok(TurnedOn(Last(steps, Toggle(key.value, f))))
  {
    RunKeepsInv(start, steps);
    MintsFromHistory(start, steps, mint);
    var key := PinnedTo(Last(steps, Deployment(mint)));
    if key.Some? { BitsFromHistory(start, steps, key.value, f); }
  }

  function OwnerSet(last: Option<Action>): Option<Pubkey> {
    if last.Some? && (last.value.CreateAssetClass? || last.value.SetOwner?) then Some(last.value.owner) else None
  }

  lemma {:induction false} OwnersFromHistory(start: Registry, steps: seq<Action>, id: u64)
    requires Initial(start) && Run(start, steps).Some?
    ensures var g := Run(start, steps).value;
            (if id in g.classes then Some(g.classes[id].owner) else None) == OwnerSet(Last(steps, Ownership(id)))
  {
    if |steps| > 0 { OwnersFromHistory(start, steps[..|steps| - 1], id); }
  }

  function ManagerSet(start: Registry, last: Option<Action>): (Pubkey, bool) {
    if last.Some? && last.value.SetManager? then (last.value.manager, last.value.paused)
    else (start.manager, start.paused)
  }

  lemma {:induction false} ManagerFromHistory(start: Registry, steps: seq<Action>)
    requires Run(start, steps).Some?
    ensures (Run(start, steps).value.manager, Run(start, steps).value.paused) ==
            ManagerSet(start, Last(steps, Management))
  {
    if |steps| > 0 { ManagerFromHistory(start, steps[..|steps| - 1]); }
  }

  lemma {:induction false} StepOf(g: Registry, steps: seq<Action>, n: nat)
    requires Run(g, steps).Some? && n < |steps|
    ensures Run(g, steps[..n]).Some? && Can(Run(g, steps[..n]).value, steps[n])
  {
    var front := steps[..|steps| - 1];
    if n < |front| {
      StepOf(g, front, n);
      assert front[..n] == steps[..n];
    }
  }

  /**
   Versions are opened, edited and finalized only by the class owner on record and classes created only
   by the manager on record, and none of that while the factory is paused.
   */
  lemma EditedByOwner(start: Registry, steps: seq<Action>, n: nat)
    requires Initial(start) && Run(start, steps).Some? && n < |steps|
    ensures var a, past := steps[n], steps[..n];
            var (manager, paused) := ManagerSet(start, Last(past, Management));
            && (a.InitVersion? || a.Enable? || a.Disable? || a.Finalize? ==>
                  !paused && OwnerSet(Last(past, Ownership(a.key.configId))) == Some(a.signer))
            && (a.CreateAssetClass? ==> !paused && a.signer == manager)
  {
    StepOf(start, steps, n);
    ManagerFromHistory(start, steps[..n]);
    var a := steps[n];
    if a.InitVersion? || a.Enable? || a.Disable? || a.Finalize? {
      OwnersFromHistory(start, steps[..n], a.key.configId);
    }
  }

  // ---------- The program ----------

  datatype Error =
    | FactoryPaused | NotManager | NotOwner | InvalidVersion | VersionNotDraft | Overflow
    | FunctionalityOutOfBounds | AccountNotInitialized | AccountInUse | AssetClassVersionNotFinalized

  /** The stored record of a version: its own ids, its state and its byte mask. */
  datatype Record = Record(configId: u64, version: u64, state: VersionState, mask: Mask)

  ghost function Abstract(records: map<VersionKey, Record>): map<VersionKey, Version> {
    map key | key in records :: Version(records[key].state, Members(records[key].mask))
  }

  /** Rewriting one record rewrites one abstract version. */
  lemma AbstractUpdate(records: map<VersionKey, Record>, key: VersionKey, r: Record)
    ensures Abstract(records[key := r]) == Abstract(records)[key := Version(r.state, Members(r.mask))]
  {
  }

  ghost predicate Performed(before: Registry, a: Action, r: Outcome<Error>, after: Registry) {
    && (r.Pass? <==> Can(before, a))
    && after == (if r.Pass? then Do(before, a) else before)
  }

  lemma EmptyMask(mask: Mask)
    requires forall i | 0 <= i < |mask| :: mask[i] == 0
    ensures Members(mask) == {}
  {
    forall p | 0 <= p < |mask| * 8 ensures !BitAt(mask, p) {
      assert mask[p / 8] == 0;
    }
  }

  class Factory {
    var manager: Pubkey
    var paused: bool
    var classes: map<u64, AssetClass>
    var records: map<VersionKey, Record>
    var mints: map<Pubkey, VersionKey>

    ghost function Now(): Registry
      reads this
    {
      Registry(manager, paused, classes, Abstract(records), mints)
    }

    /** The registry is as it should be, and every record sits at its own address with a full mask. */
    ghost predicate Valid()
      reads this
    {
      && Inv(Now())
      && (forall key | key in records ::
            && records[key].configId == key.configId && records[key].version == key.version
            && |records[key].mask| == FUNCTIONALITIES_BYTES_MASK)
    }

    constructor (manager: Pubkey)
      ensures Valid() && Initial(Now()) && this.manager == manager && !paused
    {
      this.manager, paused, classes, records, mints := manager, false, map[], map[], map[];
    }

    method CheckOwner(signer: Pubkey, configId: u64) returns (r: Outcome<Error>)
      ensures r.Pass? <==> OwnerCalls(Now(), signer, configId)
      ensures r.Fail? ==> r.error in {AccountNotInitialized, FactoryPaused, NotOwner}
    {
      r := Pass;
      :- Require(configId in classes, AccountNotInitialized);
      :- Require(!paused, FactoryPaused);
      return Require(signer == classes[configId].owner, NotOwner);
    }

    method InitAssetClassVersion(signer: Pubkey, key: VersionKey) returns (r: Outcome<Error>)
      requires Valid()
      modifies this`records
      ensures Valid() && Performed(old(Now()), InitVersion(signer, key), r, Now())
    {
      r := Pass;
      :- Require(key !in records, AccountInUse);
      r := CheckOwner(signer, key.configId);
      if r.Fail? { return; }
      var expected := CheckedAdd64(classes[key.configId].latestVersion, 1);
      :- Require(expected.Some?, Overflow);
      :- Require(key.version == expected.value, InvalidVersion);
      var zeroes: Mask := seq(FUNCTIONALITIES_BYTES_MASK, _ => 0);
      EmptyMask(zeroes);
      var record := Record(key.configId, key.version, Draft, zeroes);
      AbstractUpdate(records, key, record);
      records := records[key := record];
      StepKeepsInv(old(Now()), InitVersion(signer, key));
    }

    /** Enable or disable functionalities of a draft, in place on its mask. */
    method EditVersion(signer: Pubkey, key: VersionKey, positions: seq<u16>, enable: bool) returns (r: Outcome<Error>)
      requires Valid()
      modifies this`records
      ensures Valid()
      ensures var a := if enable then Enable(signer, key, positions) else Disable(signer, key, positions);
              Performed(old(Now()), a, r, Now())
    {
      r := Pass;
      :- Require(key in records, AccountNotInitialized);
      r := CheckOwner(signer, key.configId);
      if r.Fail? { return; }
      var record := records[key];
      :- Require(record.state.Draft?, VersionNotDraft);
      var mask := new bv8[FUNCTIONALITIES_BYTES_MASK](i requires 0 <= i < |record.mask| => record.mask[i]);
      assert mask[..] == record.mask;
      var done;
      if enable {
        done := SetBits(mask, positions);
      } else {
        done := ClearBits(mask, positions);
      }
      :- Require(done.Ok?, FunctionalityOutOfBounds);
      assert positions[..|positions|] == positions;
      var edited := record.(mask := mask[..]);
      AbstractUpdate(records, key, edited);
      records := records[key := edited];
      StepKeepsInv(old(Now()), if enable then Enable(signer, key, positions) else Disable(signer, key, positions));
    }

    method FinalizeAssetClassVersion(signer: Pubkey, key: VersionKey) returns (r: Outcome<Error>)
      requires Valid()
      modifies this`records, this`classes
      ensures Valid() && Performed(old(Now()), Finalize(signer, key), r, Now())
      ensures r != Fail(InvalidVersion)
    {
      r := Pass;
      :- Require(key in records, AccountNotInitialized);
      r := CheckOwner(signer, key.configId);
      if r.Fail? { return; }
      assert VersionsOk(Now(), key);
      var c := classes[key.configId];
      var expected := CheckedAdd64(c.latestVersion, 1);
      :- Require(expected.Some?, Overflow);
      var record := records[key];
      :- Require(record.state.Draft?, VersionNotDraft);
      :- Require(record.version == expected.value, InvalidVersion);
      record := record.(state := Finalized);
      AbstractUpdate(records, key, record);
      records := records[key := record];
      classes := classes[key.configId := c.(latestVersion := record.version)];
      StepKeepsInv(old(Now()), Finalize(signer, key));
    }

    /** The part of deployment that pins a mint: only to a finalized version, and only once. */
    method PinMint(mint: Pubkey, key: VersionKey) returns (r: Outcome<Error>)
      requires Valid()
      modifies this`mints
      ensures Valid() && Performed(old(Now()), DeployMint(mint, key), r, Now())
    {
      r := Pass;
      :- Require(mint !in mints, AccountInUse);
      :- Require(key in records, AccountNotInitialized);
      var record := records[key];
      :- Require(record.state.Finalized?, AssetClassVersionNotFinalized);
      mints := mints[mint := VersionKey(record.configId, record.version)];
      StepKeepsInv(old(Now()), DeployMint(mint, key));
    }

    /** The query as the other programs make it, on the byte mask. */
    method QueryFunctionality(mint: Pubkey, functionality: u16) returns (r: Result<bool, QueryError>)
      requires Valid()
      ensures r == IsFunctionalityEnabled(Now(), mint, functionality)
    {
      if mint !in mints || mints[mint] !in records { return Err(NotDeployed); }
      var record := records[mints[mint]];
      if record.state != Finalized { return Err(NotFinalized); }
      match IsSet(record.mask, functionality) {
        case Err(_) => return Err(OutOfBounds);
        case Ok(enabled) => return Ok(enabled);
      }
    }
  }
}
