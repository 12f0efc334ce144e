/** The storage rules of pkg/aimiddleware/simulation/storageslots.go: which storage an entity may
    access while it is validated. Go maps are walked in any order, so the loops here pick their
    elements freely. */
module StorageSlots {
  import opened Text
  import opened AiOp

  /** Slots are texts of integers; only the keys of the two maps matter. */
  datatype AccessInfo = AccessInfo(readMap: map<string, string>, writeMap: map<string, nat>)
  datatype ContractSizeInfo = ContractSizeInfo(contractSize: nat, opcode: string)

  datatype Mode = Read | Write
  datatype Access = Access(addr: Address, mode: Mode, slot: string)

  /** The alternative mempools that accept an access, by entity, contract and slot. */
  type Exceptions = (string, string, string) -> seq<string>

  datatype Validator = Validator(
    op: AiOperation,
    aiMiddleware: Address,
    isRIP7212Supported: bool,
    rip7212Precompile: Address,
    altMempools: Exceptions,
    checksum: Checksum,
    senderSlots: set<string>,
    factoryIsStaked: bool,
    entityName: string,
    entityAddr: Address,
    entityAccessMap: map<Address, AccessInfo>,
    entityContractSizeMap: map<Address, ContractSizeInfo>,
    entitySlots: set<string>,
    entityIsStaked: bool)

  /** What one rule says of one access. */
  datatype Judgement = Allowed | MustStake | Excepted | Forbidden

  datatype SlotError =
    | NoCode(addr: Address)
    | ForbiddenAccess(access: Access)
    | UnstakedSlot(addr: Address, slot: string)

  function KnownEntity(op: AiOperation, addr: Address, checksum: Checksum): string {
    if addr == GetFactory(op) then "factory"
    else if addr == op.sender then "account"
    else if addr == GetPaymaster(op) then "paymaster"
    else AddressText(addr, checksum)
  }

  const ASSOCIATED_SLOT_OFFSET := 128

  function SlotNumber(slot: string): int {
    var n := ParseInteger(slot);
    if n.Some? then n.value else 0
  }

  /** At most 128 slots past one that belongs to the entity. */
  predicate Associated(slots: set<string>, slot: string) {
    exists s | s in slots :: SlotNumber(s) <= SlotNumber(slot) <= SlotNumber(s) + ASSOCIATED_SLOT_OFFSET
  }

  function AltIds(v: Validator, x: Access): seq<string> {
    v.altMempools(v.entityName, KnownEntity(v.op, x.addr, v.checksum), x.slot)
  }

  /** Storage of the sender is open to everyone, except while the account is being created: then only
      to a sender whose factory is staked. Storage of the entity itself may be accessed, and anything
      read, by a staked entity. Beyond that only an alternative mempool's exception helps. */
  function Judge(v: Validator, x: Access): Judgement {
    if Associated(v.senderSlots, x.slot) then
      if |v.op.initCode| > 0 && !(v.factoryIsStaked && v.entityAddr == v.op.sender) then MustStake else Allowed
    else if AltIds(v, x) != [] then Excepted
    else if Associated(v.entitySlots, x.slot) || x.mode == Read then MustStake
    else Forbidden
  }

  predicate Permitted(v: Validator, x: Access) {
    match Judge(v, x)
    case Forbidden => false
    case MustStake => v.entityIsStaked
    case _ => true
  }

  predicate Exempt(v: Validator, addr: Address) {
    addr == v.op.sender || addr == v.aiMiddleware
  }

  function Slots(info: AccessInfo, mode: Mode): set<string> {
    match mode
    case Read => info.readMap.Keys
    case Write => info.writeMap.Keys
  }

  function ModeAccesses(v: Validator, addr: Address, mode: Mode): set<Access>
    requires addr in v.entityAccessMap
  {
    set slot | slot in Slots(v.entityAccessMap[addr], mode) :: Access(addr, mode, slot)
  }

  /** An access that the rules apply to. */
  predicate IsAccess(v: Validator, x: Access) {
    x.addr in v.entityAccessMap && !Exempt(v, x.addr) && x.slot in Slots(v.entityAccessMap[x.addr], x.mode)
  }

  function Accesses(v: Validator): (xs: set<Access>)
    ensures forall x :: x in xs <==> IsAccess(v, x)
  {
    (set addr, slot | addr in v.entityAccessMap && slot in v.entityAccessMap[addr].readMap && !Exempt(v, addr)
       :: Access(addr, Read, slot))
    + (set addr, slot | addr in v.entityAccessMap && slot in v.entityAccessMap[addr].writeMap && !Exempt(v, addr)
         :: Access(addr, Write, slot))
  }

  predicate IsRIP7212Call(v: Validator, addr: Address) {
    v.isRIP7212Supported && addr == v.rip7212Precompile
  }

  predicate Deployed(v: Validator, addr: Address)
    requires addr in v.entityContractSizeMap
  {
    addr == v.op.sender || v.entityContractSizeMap[addr].contractSize != 0 || IsRIP7212Call(v, addr)
  }

  predicate AllDeployed(v: Validator) {
    forall addr | addr in v.entityContractSizeMap :: Deployed(v, addr)
  }

  /** The rule in one sentence: every called address has code and every access is permitted. */
  predicate Accepts(v: Validator) {
    AllDeployed(v) && forall x | x in Accesses(v) :: Permitted(v, x)
  }

  /** An error names a violation. */
  predicate Violates(v: Validator, e: SlotError) {
    match e
    case NoCode(addr) => addr in v.entityContractSizeMap && !Deployed(v, addr)
    case ForbiddenAccess(x) => x in Accesses(v) && Judge(v, x) == Forbidden
    case UnstakedSlot(addr, slot) =>
      !v.entityIsStaked
      && exists x | x in Accesses(v) :: x.addr == addr && x.slot == slot && Judge(v, x) == MustStake
  }

  /** Slots come from the tracer as texts of integers. */
  predicate WellFormed(v: Validator) {
    forall addr, mode | addr in v.entityAccessMap :: AllParse(Slots(v.entityAccessMap[addr], mode))
  }

  predicate AllParse(slots: set<string>) {
    forall s | s in slots :: ParseInteger(s).Some?
  }

  // ---------------------------------------------------------------- the ids of alternative mempools

  function IdsOfAccess(v: Validator, x: Access): multiset<string> {
    if Judge(v, x) == Excepted then multiset(AltIds(v, x)) else multiset{}
  }

  /** All the ids that a set of accesses relies on. */
  ghost function IdsOf(v: Validator, xs: set<Access>): multiset<string> {
    if xs == {} then multiset{}
    else
      var x :| x in xs;
      IdsOfAccess(v, x) + IdsOf(v, xs - {x})
  }

  lemma {:induction false} IdsOfRemove(v: Validator, xs: set<Access>, y: Access)
    requires y in xs
    ensures IdsOf(v, xs) == IdsOfAccess(v, y) + IdsOf(v, xs - {y})
    decreases xs
  {
    hide IdsOfAccess;
    var x :| x in xs && IdsOf(v, xs) == IdsOfAccess(v, x) + IdsOf(v, xs - {x});
    if x != y {
      IdsOfRemove(v, xs - {x}, y);
      IdsOfRemove(v, xs - {y}, x);
      assert xs - {x} - {y} == xs - {y} - {x};
    }
  }

  lemma IdsOfAdd(v: Validator, xs: set<Access>, y: Access)
    requires y !in xs
    ensures IdsOf(v, xs + {y}) == IdsOf(v, xs) + IdsOfAccess(v, y)
  {
    IdsOfRemove(v, xs + {y}, y);
    assert xs + {y} - {y} == xs;
  }

  // ---------------------------------------------------------------- walking the accesses

  /** The accesses judged so far: none is forbidden, and `ids` are what the excepted ones rely on. */
  ghost predicate Judged(v: Validator, done: set<Access>, ids: seq<string>) {
    && multiset(ids) == IdsOf(v, done)
    && forall x | x in done :: Judge(v, x) != Forbidden
  }

  /** `slot` is empty, or that of an access among `xs` that the entity must be staked for. */
  ghost predicate Remembers(v: Validator, xs: set<Access>, slot: string) {
    && (slot == "" ==> forall x | x in xs :: Judge(v, x) != MustStake)
    && (slot != "" ==> exists x | x in xs :: Judge(v, x) == MustStake && x.slot == slot)
  }

  lemma JudgesOne(v: Validator, done: set<Access>, ids: seq<string>, x: Access)
    requires Judged(v, done, ids) && x !in done && Judge(v, x) != Forbidden
    ensures Judged(v, done + {x}, if Judge(v, x) == Excepted then ids + AltIds(v, x) else ids)
  {
    IdsOfAdd(v, done, x);
    hide Judge, AltIds, IdsOf;
  }

  lemma RemembersOne(v: Validator, xs: set<Access>, slot: string, x: Access)
    requires Remembers(v, xs, slot) && x.slot != ""
    ensures Remembers(v, xs + {x}, if Judge(v, x) == MustStake then x.slot else slot)
  {
    hide Judge;
    if Judge(v, x) == MustStake {
      assert x in xs + {x};
    } else if slot != "" {
      var y :| y in xs && Judge(v, y) == MustStake && y.slot == slot;
      assert y in xs + {x};
    }
  }

  method IsAssociatedWith(entitySlots: set<string>, slot: string) returns (associated: bool)
    ensures associated == Associated(entitySlots, slot)
  {
    hide SlotNumber;
    var slotBN := SlotNumber(slot);
    var rest := entitySlots;
    while rest != {}
      invariant rest <= entitySlots
      invariant forall s | s in entitySlots - rest ::
                  !(SlotNumber(s) <= slotBN <= SlotNumber(s) + ASSOCIATED_SLOT_OFFSET)
      decreases rest
    {
      var entitySlot :| entitySlot in rest;
      rest := rest - {entitySlot};
      var entitySlotBN := SlotNumber(entitySlot);
      if slotBN >= entitySlotBN && slotBN <= entitySlotBN + ASSOCIATED_SLOT_OFFSET {
        return true;
      }
    }
    return false;
  }

  /** The keys of a map in some order. */
  method KeysInSomeOrder(keys: set<string>) returns (slots: seq<string>)
    ensures forall i, j | 0 <= i < j < |slots| :: slots[i] != slots[j]
    ensures forall slot :: slot in slots <==> slot in keys
  {
    slots := [];
    var rest := keys;
    while rest != {}
      invariant forall i, j | 0 <= i < j < |slots| :: slots[i] != slots[j]
      invariant rest <= keys && forall slot :: slot in slots <==> slot in keys - rest
      decreases rest
    {
      var slot :| slot in rest;
      assert forall i | 0 <= i < |slots| :: slots[i] in slots;
      rest := rest - {slot};
      slots := slots + [slot];
    }
  }

  method JudgeAccess(v: Validator, x: Access) returns (judgement: Judgement, amIds: seq<string>)
    ensures judgement == Judge(v, x)
    ensures judgement == Excepted ==> amIds == AltIds(v, x)
  {
    hide AltIds, Associated;
    amIds := [];
    var bySender := IsAssociatedWith(v.senderSlots, x.slot);
    if bySender {
      if (|v.op.initCode| > 0 && !v.factoryIsStaked)
         || (|v.op.initCode| > 0 && v.factoryIsStaked && v.entityAddr != v.op.sender) {
        return MustStake, amIds;
      }
      return Allowed, amIds;
    }
    amIds := AltIds(v, x);
    var byEntity := IsAssociatedWith(v.entitySlots, x.slot);
    if (byEntity || x.mode == Read) && |amIds| == 0 {
      return MustStake, amIds;
    } else if |amIds| > 0 {
      return Excepted, amIds;
    }
    return Forbidden, amIds;
  }

  /** Both, of the accesses judged before (`done`) and of those among them of one address (`xs`). */
  ghost predicate Walked(v: Validator, done: set<Access>, xs: set<Access>, ids: seq<string>, slot: string) {
    Judged(v, done, ids) && Remembers(v, xs, slot)
  }

  lemma WalksOne(v: Validator, done: set<Access>, xs: set<Access>, ids: seq<string>, slot: string, x: Access)
    requires Walked(v, done, xs, ids, slot) && x !in done && x.slot != "" && Judge(v, x) != Forbidden
    ensures Walked(v, done + {x}, xs + {x},
                   if Judge(v, x) == Excepted then ids + AltIds(v, x) else ids,
                   if Judge(v, x) == MustStake then x.slot else slot)
  {
    hide Judged, Remembers, Judge, AltIds;
    JudgesOne(v, done, ids, x);
    RemembersOne(v, xs, slot, x);
  }

  function AccessesOfSlots(addr: Address, mode: Mode, slots: seq<string>): set<Access> {
    set slot | slot in slots :: Access(addr, mode, slot)
  }

  lemma OneMoreSlot(addr: Address, mode: Mode, slots: seq<string>, i: nat, xs: set<Access>)
    requires i < |slots|
    ensures xs + AccessesOfSlots(addr, mode, slots[..i + 1])
            == xs + AccessesOfSlots(addr, mode, slots[..i]) + {Access(addr, mode, slots[i])}
  {
    assert slots[..i + 1] == slots[..i] + [slots[i]];
  }

  lemma NewSlot(addr: Address, mode: Mode, slots: seq<string>, i: nat, done: set<Access>, keys: set<string>)
    requires i < |slots| && forall j, k | 0 <= j < k < |slots| :: slots[j] != slots[k]
    requires forall slot | slot in keys :: Access(addr, mode, slot) !in done
    requires slots[i] in keys
    ensures Access(addr, mode, slots[i]) !in done + AccessesOfSlots(addr, mode, slots[..i])
  {
  }

  lemma NoSlotsYet(addr: Address, mode: Mode, slots: seq<string>, xs: set<Access>)
    ensures xs + AccessesOfSlots(addr, mode, slots[..0]) == xs
  {
    assert AccessesOfSlots(addr, mode, slots[..0]) == {};
  }

  lemma AllSlots(v: Validator, addr: Address, mode: Mode, slots: seq<string>)
    requires addr in v.entityAccessMap
    requires forall slot :: slot in slots <==> slot in Slots(v.entityAccessMap[addr], mode)
    ensures AccessesOfSlots(addr, mode, slots[..|slots|]) == ModeAccesses(v, addr, mode)
  {
    assert slots[..|slots|] == slots;
  }

  /** One mode of one address. */
  method ProcessMode(v: Validator, addr: Address, mode: Mode, ids0: seq<string>, slot0: string,
                     ghost done: set<Access>, ghost xs: set<Access>)
    returns (err: Option<SlotError>, ids: seq<string>, mustStakeSlot: string)
    requires WellFormed(v) && addr in v.entityAccessMap && !Exempt(v, addr)
    requires Walked(v, done, xs, ids0, slot0)
    requires forall slot | slot in Slots(v.entityAccessMap[addr], mode) :: Access(addr, mode, slot) !in done
    ensures err.Some? ==> Violates(v, err.value)
    ensures err.None? ==>
              Walked(v, done + ModeAccesses(v, addr, mode), xs + ModeAccesses(v, addr, mode), ids, mustStakeSlot)
  {
    hide Walked, Judge, AltIds, Slots, Exempt, ModeAccesses, AccessesOfSlots, WellFormed;
    var slots := KeysInSomeOrder(Slots(v.entityAccessMap[addr], mode));
    ids, mustStakeSlot := ids0, slot0;
    NoSlotsYet(addr, mode, slots, done);
    NoSlotsYet(addr, mode, slots, xs);
    var i := 0;
    while i < |slots|
      invariant 0 <= i <= |slots|
      invariant Walked(v, done + AccessesOfSlots(addr, mode, slots[..i]),
                       xs + AccessesOfSlots(addr, mode, slots[..i]), ids, mustStakeSlot)
    {
      var x := Access(addr, mode, slots[i]);
      assert slots[i] in slots;
      SlotIsText(v, x);
      NewSlot(addr, mode, slots, i, done, Slots(v.entityAccessMap[addr], mode));
      OneMoreSlot(addr, mode, slots, i, done);
      OneMoreSlot(addr, mode, slots, i, xs);
      var judgement, amIds := JudgeAccess(v, x);
      if judgement == Forbidden {
        return Some(ForbiddenAccess(x)), ids, mustStakeSlot;
      }
      WalksOne(v, done + AccessesOfSlots(addr, mode, slots[..i]), xs + AccessesOfSlots(addr, mode, slots[..i]),
               ids, mustStakeSlot, x);
      if judgement == MustStake {
        mustStakeSlot := x.slot;
      } else if judgement == Excepted {
        ids := ids + amIds;
      }
      i := i + 1;
    }
    AllSlots(v, addr, mode, slots);
    return None, ids, mustStakeSlot;
  }

  lemma SlotIsText(v: Validator, x: Access)
    requires WellFormed(v) && x.addr in v.entityAccessMap && x.slot in Slots(v.entityAccessMap[x.addr], x.mode)
    ensures x.slot != ""
  {
    assert AllParse(Slots(v.entityAccessMap[x.addr], x.mode));
    assert ParseInteger("") == None;
    hide ParseInteger;
  }

  // ---------------------------------------------------------------- one address

  function AddressAccesses(v: Validator, addr: Address): set<Access>
    requires addr in v.entityAccessMap
  {
    ModeAccesses(v, addr, Read) + ModeAccesses(v, addr, Write)
  }

  /** Everything judged so far is permitted, and `ids` are what it relies on. */
  ghost predicate Passed(v: Validator, done: set<Access>, ids: seq<string>) {
    multiset(ids) == IdsOf(v, done) && forall x | x in done :: Permitted(v, x)
  }

  lemma StartsAddress(v: Validator, done: set<Access>, ids: seq<string>)
    requires Passed(v, done, ids)
    ensures Walked(v, done, {}, ids, "")
  {
    hide Judge, IdsOf;
  }

  lemma EndsAddress(v: Validator, done: set<Access>, xs: set<Access>, ids: seq<string>, ids': seq<string>, slot: string)
    requires Passed(v, done, ids) && Walked(v, done + xs, xs, ids', slot)
    requires slot == "" || v.entityIsStaked
    ensures Passed(v, done + xs, ids')
  {
    hide Judge, IdsOf;
  }

  lemma UnstakedViolates(v: Validator, done: set<Access>, xs: set<Access>, ids: seq<string>,
                         slot: string) returns (x: Access)
    requires Walked(v, done, xs, ids, slot) && slot != "" && !v.entityIsStaked && xs <= Accesses(v)
    ensures Violates(v, UnstakedSlot(x.addr, slot)) && x in xs
  {
    hide Judge, IdsOf, Accesses;
    x :| x in xs && Judge(v, x) == MustStake && x.slot == slot;
  }

  lemma ModesAreAccesses(v: Validator, addr: Address)
    requires addr in v.entityAccessMap && !Exempt(v, addr)
    ensures AddressAccesses(v, addr) <= Accesses(v)
  {
    hide Exempt;
  }

  /** One address: both modes, in either order, and then the stake. */
  method ProcessAddress(v: Validator, addr: Address, ids0: seq<string>, ghost done: set<Access>)
    returns (err: Option<SlotError>, ids: seq<string>)
    requires WellFormed(v) && addr in v.entityAccessMap && !Exempt(v, addr)
    requires Passed(v, done, ids0) && forall x | x in done :: x.addr != addr
    ensures err.Some? ==> Violates(v, err.value)
    ensures err.None? ==> Passed(v, done + AddressAccesses(v, addr), ids)
  {
    hide Walked, Passed, WellFormed, Exempt, Violates, Slots, Accesses;
    StartsAddress(v, done, ids0);
    ModesAreAccesses(v, addr);
    var first: Mode :| true;
    var second := if first == Read then Write else Read;
    ghost var a, b := ModeAccesses(v, addr, first), ModeAccesses(v, addr, second);
    var mustStakeSlot;
    err, ids, mustStakeSlot := ProcessMode(v, addr, first, ids0, "", done, {});
    if err.Some? {
      return;
    }
    err, ids, mustStakeSlot := ProcessMode(v, addr, second, ids, mustStakeSlot, done + a, {} + a);
    if err.Some? {
      return;
    }
    assert done + a + b == done + AddressAccesses(v, addr) && {} + a + b == AddressAccesses(v, addr);
    if mustStakeSlot != "" && !v.entityIsStaked {
      ghost var x := UnstakedViolates(v, done + a + b, {} + a + b, ids, mustStakeSlot);
      assert x.addr == addr;
      return Some(UnstakedSlot(addr, mustStakeSlot)), ids;
    }
    EndsAddress(v, done, AddressAccesses(v, addr), ids0, ids, mustStakeSlot);
    return None, ids;
  }

  // ---------------------------------------------------------------- the whole trace

  method FindNoCode(v: Validator) returns (err: Option<SlotError>)
    ensures err.Some? ==> Violates(v, err.value)
    ensures err.None? <==> AllDeployed(v)
  {
    hide IsRIP7212Call;
    var rest := v.entityContractSizeMap.Keys;
    while rest != {}
      invariant rest <= v.entityContractSizeMap.Keys
      invariant forall ca | ca in v.entityContractSizeMap.Keys - rest :: Deployed(v, ca)
      decreases rest
    {
      var ca :| ca in rest;
      rest := rest - {ca};
      if ca != v.op.sender && v.entityContractSizeMap[ca].contractSize == 0 && !IsRIP7212Call(v, ca) {
        return Some(NoCode(ca));
      }
    }
    return None;
  }

  function AccessesAt(v: Validator, addrs: set<Address>): set<Access> {
    set x | x in Accesses(v) && x.addr in addrs
  }

  lemma AccessesAtMore(v: Validator, addrs: set<Address>, addr: Address)
    requires addr in v.entityAccessMap && addr !in addrs
    ensures AccessesAt(v, addrs + {addr})
            == AccessesAt(v, addrs) + if Exempt(v, addr) then {} else AddressAccesses(v, addr)
  {
    hide Exempt, Accesses;
    forall x ensures x in AccessesAt(v, {addr}) <==> !Exempt(v, addr) && x in AddressAccesses(v, addr) {
    }
  }

  lemma PassedNothing(v: Validator)
    ensures Passed(v, AccessesAt(v, {}), [])
  {
    assert AccessesAt(v, {}) == {};
    hide Accesses;
  }

  lemma PassedEverything(v: Validator, ids: seq<string>)
    requires Passed(v, AccessesAt(v, v.entityAccessMap.Keys), ids)
    ensures multiset(ids) == IdsOf(v, Accesses(v)) && forall x | x in Accesses(v) :: Permitted(v, x)
  {
    hide Permitted, IdsOf;
    assert AccessesAt(v, v.entityAccessMap.Keys) == Accesses(v);
  }

  lemma ViolationsAreRejected(v: Validator, e: SlotError)
    requires Violates(v, e)
    ensures !Accepts(v)
  {
    hide Judge, Accesses, Deployed;
  }

  /** Whatever order the maps are walked in, the trace is accepted if and only if the rule holds, the
      ids collected are the same up to order, and an error names a violation. */
  method Process(v: Validator) returns (err: Option<SlotError>, altMempoolIds: seq<string>)
    requires WellFormed(v)
    ensures err.None? <==> Accepts(v)
    ensures err.None? ==> multiset(altMempoolIds) == IdsOf(v, Accesses(v))
    ensures err.Some? ==> Violates(v, err.value)
  {
    hide Passed, Violates, WellFormed, Exempt, Accesses, AllDeployed, AccessesAt, AddressAccesses, Permitted;
    altMempoolIds := [];
    err := FindNoCode(v);
    if err.Some? {
      ViolationsAreRejected(v, err.value);
      return;
    }
    PassedNothing(v);
    var rest := v.entityAccessMap.Keys;
    ghost var walked: set<Address> := {};
    while rest != {}
      invariant walked !! rest && walked + rest == v.entityAccessMap.Keys
      invariant Passed(v, AccessesAt(v, walked), altMempoolIds)
      decreases rest
    {
      var addr :| addr in rest;
      AccessesAtMore(v, walked, addr);
      AccessesAtElsewhere(v, walked, addr);
      if !Exempt(v, addr) {
        err, altMempoolIds := ProcessAddress(v, addr, altMempoolIds, AccessesAt(v, walked));
        if err.Some? {
          ViolationsAreRejected(v, err.value);
          return;
        }
      } else {
        assert AccessesAt(v, walked) + {} == AccessesAt(v, walked);
      }
      rest := rest - {addr};
      walked := walked + {addr};
    }
    assert walked == v.entityAccessMap.Keys;
    PassedEverything(v, altMempoolIds);
    return None, altMempoolIds;
  }

  lemma AccessesAtElsewhere(v: Validator, addrs: set<Address>, addr: Address)
    requires addr !in addrs
    ensures forall x | x in AccessesAt(v, addrs) :: x.addr != addr
  {
    hide Accesses;
  }

  // ---------------------------------------------------------------- what staking does

  /** The same trace with one address staked, in whichever of its roles it is looked up. */
  function Stake(v: Validator, a: Address): Validator {
    v.(entityIsStaked := v.entityIsStaked || v.entityAddr == a,
       factoryIsStaked := v.factoryIsStaked || GetFactory(v.op) == a)
  }

  /** The stake of `a` lets the entity make an access that it may not make without: as the entity's own
      stake, or as the stake of the factory that is creating the entity. */
  predicate NeedsStakeOf(v: Validator, a: Address, x: Access) {
    && !v.entityIsStaked && Judge(v, x) == MustStake
    && (v.entityAddr == a
        || (GetFactory(v.op) == a && v.entityAddr == v.op.sender && Associated(v.senderSlots, x.slot)))
  }

  lemma StakePermits(v: Validator, a: Address, x: Access)
    ensures Permitted(v, x) <==> Permitted(Stake(v, a), x) && !NeedsStakeOf(v, a, x)
    ensures IdsOfAccess(Stake(v, a), x) == IdsOfAccess(v, x)
  {
    hide Associated, GetFactory;
  }

  lemma {:induction false} StakingKeepsIds(v: Validator, a: Address, xs: set<Access>)
    ensures IdsOf(Stake(v, a), xs) == IdsOf(v, xs)
    decreases xs
  {
    hide IdsOfAccess, Stake;
    if xs != {} {
      var x :| x in xs;
      IdsOfRemove(v, xs, x);
      IdsOfRemove(Stake(v, a), xs, x);
      StakePermits(v, a, x);
      StakingKeepsIds(v, a, xs - {x});
    }
  }

  lemma StakingDeploysAlike(v: Validator, a: Address)
    ensures AllDeployed(Stake(v, a)) <==> AllDeployed(v)
  {
    forall addr | addr in v.entityContractSizeMap ensures Deployed(Stake(v, a), addr) <==> Deployed(v, addr) {
    }
    hide Deployed;
  }

  /** Staking an address never turns an accepted trace into a rejected one, nor changes its ids, and it
      makes the difference exactly when some access needs that stake. */
  lemma StakingNeverHurts(v: Validator, a: Address)
    ensures Accepts(v) <==> Accepts(Stake(v, a)) && forall x | x in Accesses(v) :: !NeedsStakeOf(v, a, x)
    ensures IdsOf(Stake(v, a), Accesses(Stake(v, a))) == IdsOf(v, Accesses(v))
  {
    StakingDeploysAlike(v, a);
    assert Accesses(Stake(v, a)) == Accesses(v);
    StakingKeepsIds(v, a, Accesses(v));
    hide Permitted, NeedsStakeOf, IdsOf, AllDeployed, Accesses, Stake;
    forall x ensures Permitted(v, x) <==> Permitted(Stake(v, a), x) && !NeedsStakeOf(v, a, x) {
      StakePermits(v, a, x);
    }
  }
}
