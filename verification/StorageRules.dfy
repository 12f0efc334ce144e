/** The storage rules of validation, said by stake and kind of access, for one entity and for a whole
    operation: what pkg/aimiddleware/simulation/storageslots.go and tracevalidation.go let through. */
module StorageRules {
  import opened Text
  import opened AiOp
  import opened StorageSlots
  import opened TraceValidation

  // ---------------------------------------------------------------- one entity

  /** The entity reads or writes a slot of an address that is neither the sender nor the middleware. */
  predicate Reads(v: Validator, addr: Address, slot: string) {
    && addr in v.entityAccessMap && addr != v.op.sender && addr != v.aiMiddleware
    && slot in v.entityAccessMap[addr].readMap
  }

  predicate Writes(v: Validator, addr: Address, slot: string) {
    && addr in v.entityAccessMap && addr != v.op.sender && addr != v.aiMiddleware
    && slot in v.entityAccessMap[addr].writeMap
  }

  predicate Touches(v: Validator, addr: Address, slot: string) {
    Reads(v, addr, slot) || Writes(v, addr, slot)
  }

  /** An alternative mempool makes an exception. */
  predicate Excused(v: Validator, addr: Address, slot: string) {
    v.altMempools(v.entityName, KnownEntity(v.op, addr, v.checksum), slot) != []
  }

  /** Every address called has code, is the sender, or is the precompile for curve P-256 where there is
      one. */
  predicate CallsCode(v: Validator) {
    forall addr | addr in v.entityContractSizeMap ::
      || v.entityContractSizeMap[addr].contractSize != 0 || addr == v.op.sender
      || (v.isRIP7212Supported && addr == v.rip7212Precompile)
  }

  lemma CallsCodeIs(v: Validator)
    ensures AllDeployed(v) <==> CallsCode(v)
  {
    if AllDeployed(v) {
      forall addr | addr in v.entityContractSizeMap
        ensures v.entityContractSizeMap[addr].contractSize != 0 || addr == v.op.sender
                || (v.isRIP7212Supported && addr == v.rip7212Precompile)
      {
        assert Deployed(v, addr);
      }
    }
  }

  /** What is right for every read and every write is right for every access. */
  lemma AcceptsByMode(v: Validator)
    ensures Accepts(v)
            <==> && CallsCode(v)
                 && (forall addr, slot | Reads(v, addr, slot) :: Permitted(v, Access(addr, Read, slot)))
                 && (forall addr, slot | Writes(v, addr, slot) :: Permitted(v, Access(addr, Write, slot)))
  {
    CallsCodeIs(v);
    hide AllDeployed, CallsCode, Permitted;
    forall addr, slot
      ensures Reads(v, addr, slot) <==> Access(addr, Read, slot) in Accesses(v)
      ensures Writes(v, addr, slot) <==> Access(addr, Write, slot) in Accesses(v)
    {
    }
    forall x | x in Accesses(v)
      ensures if x.mode == Read then Reads(v, x.addr, x.slot) else Writes(v, x.addr, x.slot)
    {
      assert IsAccess(v, x);
      assert x == Access(x.addr, x.mode, x.slot);
    }
  }

  lemma EveryKindTouches(v: Validator)
    ensures forall addr, slot | Reads(v, addr, slot) :: Touches(v, addr, slot)
    ensures forall addr, slot | Writes(v, addr, slot) :: Touches(v, addr, slot)
  {
  }

  /** A staked entity may read anything, and write what belongs to the sender or to itself. */
  lemma StakedRule(v: Validator)
    requires v.entityIsStaked
    ensures Accepts(v)
            <==> CallsCode(v) && forall addr, slot | Writes(v, addr, slot) ::
                   Associated(v.senderSlots, slot) || Associated(v.entitySlots, slot) || Excused(v, addr, slot)
  {
    AcceptsByMode(v);
    hide Accepts, CallsCode, Associated, Reads, Writes, KnownEntity;
  }

  /** An unstaked entity may only touch what belongs to the sender. */
  lemma UnstakedRule(v: Validator)
    requires !v.entityIsStaked && v.op.initCode == []
    ensures Accepts(v)
            <==> CallsCode(v) && forall addr, slot | Touches(v, addr, slot) ::
                   Associated(v.senderSlots, slot) || Excused(v, addr, slot)
  {
    AcceptsByMode(v);
    EveryKindTouches(v);
    hide Accepts, CallsCode, Associated, Reads, Writes, KnownEntity;
  }

  /** While the account is being created only the account itself may touch what belongs to it, and only
      if its factory is staked; alternative mempools make no exception there. */
  lemma UnstakedCreationRule(v: Validator)
    requires !v.entityIsStaked && v.op.initCode != []
    ensures Accepts(v)
            <==> CallsCode(v) && forall addr, slot | Touches(v, addr, slot) ::
                   if Associated(v.senderSlots, slot) then v.factoryIsStaked && v.entityAddr == v.op.sender
                   else Excused(v, addr, slot)
  {
    AcceptsByMode(v);
    EveryKindTouches(v);
    hide Accepts, CallsCode, Associated, Reads, Writes, KnownEntity;
  }

  /** The three rules in one. */
  predicate Allows(v: Validator, addr: Address, slot: string) {
    if v.entityIsStaked then
      Writes(v, addr, slot) ==>
        Associated(v.senderSlots, slot) || Associated(v.entitySlots, slot) || Excused(v, addr, slot)
    else if v.op.initCode == [] || !Associated(v.senderSlots, slot) then
      Associated(v.senderSlots, slot) || Excused(v, addr, slot)
    else
      v.factoryIsStaked && v.entityAddr == v.op.sender
  }

  lemma EntityAccepts(v: Validator)
    ensures Accepts(v)
            <==> && CallsCode(v) && (forall addr, slot | Reads(v, addr, slot) :: Allows(v, addr, slot))
                 && (forall addr, slot | Writes(v, addr, slot) :: Allows(v, addr, slot))
  {
    EveryKindTouches(v);
    hide Accepts, CallsCode, Associated, Reads, Writes, Excused;
    if v.entityIsStaked {
      StakedRule(v);
    } else if v.op.initCode == [] {
      UnstakedRule(v);
    } else {
      UnstakedCreationRule(v);
    }
  }

  /** The ids of alternative mempools relied on are those of every access outside the sender's storage. */
  lemma IdsRule(v: Validator, x: Access)
    ensures IdsOfAccess(v, x) == if Associated(v.senderSlots, x.slot) then multiset{} else multiset(AltIds(v, x))
  {
    hide Associated, AltIds;
  }

  /** For slots as the tracer prints them: a slot belongs to an entity when it is one of its own or at
      most 128 further on. */
  lemma PrintedSlots(own: set<nat>, k: nat)
    ensures Associated(set n | n in own :: HexInteger(n), HexInteger(k)) <==> exists n | n in own :: n <= k <= n + 128
  {
    forall n: nat ensures SlotNumber(HexInteger(n)) == n { ParseHexInteger(n); }
    hide SlotNumber, HexInteger;
    if n :| n in own && n <= k <= n + 128 {
      assert HexInteger(n) in set n | n in own :: HexInteger(n);
    }
  }

  /** Whom the exceptions of alternative mempools name: an entity by its role, any other contract by its
      address. */
  lemma NamesOfEntities(op: AiOperation, addr: Address, checksum: Checksum)
    ensures var name := KnownEntity(op, addr, checksum);
            && (name == "factory" <==> addr == GetFactory(op))
            && (name == "account" <==> addr == op.sender != GetFactory(op))
            && (name == "paymaster" <==> addr == GetPaymaster(op) && addr != op.sender && addr != GetFactory(op))
            && (addr !in {GetFactory(op), op.sender, GetPaymaster(op)} ==> ParseAddress(name) == addr)
  {
    hide GetFactory, GetPaymaster, ParseAddress, Hex;
    ParseAddressText(addr, checksum);
    assert AddressText(addr, checksum)[0] == '0';
    var factory, account, paymaster := "factory", "account", "paymaster";
    assert factory[0] == 'f' && account[0] == 'a' && paymaster[0] == 'p';
  }

  // ---------------------------------------------------------------- a whole operation

  /** The calls into the entity read or write a slot of an address that is neither the sender nor the
      middleware. */
  predicate TraceReads(t: Trace, e: Entity, addr: Address, slot: string) {
    && addr in t.info(e).access && addr != t.op.sender && addr != t.aiMiddleware
    && slot in t.info(e).access[addr].readMap
  }

  predicate TraceWrites(t: Trace, e: Entity, addr: Address, slot: string) {
    && addr in t.info(e).access && addr != t.op.sender && addr != t.aiMiddleware
    && slot in t.info(e).access[addr].writeMap
  }

  predicate TraceCallsCode(t: Trace, e: Entity) {
    forall addr | addr in t.info(e).contractSize ::
      || t.info(e).contractSize[addr].contractSize != 0 || addr == t.op.sender
      || (t.isRIP7212Supported && addr == t.rip7212Precompile)
  }

  /** An entity by the address that the operation gives it: what a slot may belong to. */
  predicate Belongs(t: Trace, addr: Address, slot: string) {
    addr in t.slots && Associated(t.slots[addr], slot)
  }

  predicate MayTouch(t: Trace, e: Entity, addr: Address, a: Address, slot: string) {
    var excused := t.altMempools(Title(e), KnownEntity(t.op, a, t.checksum), slot) != [];
    if addr in t.staked then
      TraceWrites(t, e, a, slot) ==> Belongs(t, t.op.sender, slot) || Belongs(t, addr, slot) || excused
    else if t.op.initCode == [] || !Belongs(t, t.op.sender, slot) then
      Belongs(t, t.op.sender, slot) || excused
    else
      GetFactory(t.op) in t.staked && addr == t.op.sender
  }

  /** The rules for one entity of an operation, from what the tracer collected and who is staked. */
  ghost predicate KeepsRules(t: Trace, e: Entity, addr: Address) {
    && TraceCallsCode(t, e)
    && (forall a, slot | TraceReads(t, e, a, slot) :: MayTouch(t, e, addr, a, slot))
    && (forall a, slot | TraceWrites(t, e, a, slot) :: MayTouch(t, e, addr, a, slot))
  }

  /** An operation is accepted if and only if its sender, factory and paymaster keep the rules. */
  lemma OperationRule(t: Trace)
    ensures AcceptsAll(t)
            <==> && KeepsRules(t, Account, t.op.sender) && KeepsRules(t, Factory, GetFactory(t.op))
                 && KeepsRules(t, Paymaster, GetPaymaster(t.op))
  {
    hide Accepts, KeepsRules, GetFactory, GetPaymaster;
    EntityRule(t, Account);
    EntityRule(t, Factory);
    EntityRule(t, Paymaster);
    if KeepsRules(t, Account, t.op.sender) && KeepsRules(t, Factory, GetFactory(t.op))
       && KeepsRules(t, Paymaster, GetPaymaster(t.op)) {
      forall e ensures Accepts(ValidatorOf(t, e)) {
        match e
        case Account =>
        case Factory =>
        case Paymaster =>
      }
    }
  }

  lemma NothingBelongs(slot: string)
    ensures !Associated({}, slot)
  {
  }

  lemma ReadsAlike(t: Trace, e: Entity)
    ensures var v := ValidatorOf(t, e);
            && (CallsCode(v) <==> TraceCallsCode(t, e))
            && (forall a, slot :: Reads(v, a, slot) <==> TraceReads(t, e, a, slot))
            && (forall a, slot :: Writes(v, a, slot) <==> TraceWrites(t, e, a, slot))
  {
  }

  lemma MayTouchIs(t: Trace, e: Entity, a: Address, slot: string)
    ensures MayTouch(t, e, EntityAddress(t.op, e), a, slot) <==> Allows(ValidatorOf(t, e), a, slot)
  {
    ReadsAlike(t, e);
    NothingBelongs(slot);
    hide Associated, KnownEntity, Reads, Writes, TraceReads, TraceWrites, GetFactory, EntityAddress, Title;
  }

  lemma EntityRule(t: Trace, e: Entity)
    ensures Accepts(ValidatorOf(t, e)) <==> KeepsRules(t, e, EntityAddress(t.op, e))
  {
    var v := ValidatorOf(t, e);
    ReadsAlike(t, e);
    EntityAccepts(v);
    hide ValidatorOf, Accepts, CallsCode, TraceCallsCode, Reads, Writes, TraceReads, TraceWrites, Allows, MayTouch,
         EntityAddress;
    forall a, slot ensures MayTouch(t, e, EntityAddress(t.op, e), a, slot) <==> Allows(v, a, slot) {
      MayTouchIs(t, e, a, slot);
    }
  }

  /** An entity of an operation is validated under the name that exceptions know it by, unless another
      entity has its address too. */
  lemma TitlesAreNames(op: AiOperation, e: Entity, checksum: Checksum)
    requires GetFactory(op) != op.sender && GetPaymaster(op) != op.sender && GetFactory(op) != GetPaymaster(op)
    ensures KnownEntity(op, EntityAddress(op, e), checksum) == Title(e)
  {
    hide GetFactory, GetPaymaster, AddressText;
  }
}
