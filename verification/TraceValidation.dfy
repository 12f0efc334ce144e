/** The storage rules over a whole operation: pkg/aimiddleware/simulation/tracevalidation.go applies them
    to the account, the factory and the paymaster, in the order a Go map yields them. */
module TraceValidation {
  import opened Text
  import opened AiOp
  import opened StorageSlots

  datatype Entity = Account | Factory | Paymaster

  /** What the tracer collected from the calls into one entity. */
  datatype EntityInfo = EntityInfo(access: map<Address, AccessInfo>, contractSize: map<Address, ContractSizeInfo>)

  /** `slots` are the slots that belong to an address, `staked` the addresses with enough stake. */
  datatype Trace = Trace(
    op: AiOperation,
    aiMiddleware: Address,
    isRIP7212Supported: bool,
    rip7212Precompile: Address,
    altMempools: Exceptions,
    checksum: Checksum,
    info: Entity -> EntityInfo,
    slots: map<Address, set<string>>,
    staked: set<Address>)

  function Title(e: Entity): string {
    match e
    case Account => "account"
    case Factory => "factory"
    case Paymaster => "paymaster"
  }

  function EntityAddress(op: AiOperation, e: Entity): Address {
    match e
    case Account => op.sender
    case Factory => GetFactory(op)
    case Paymaster => GetPaymaster(op)
  }

  function SlotsOf(t: Trace, a: Address): set<string> {
    if a in t.slots then t.slots[a] else {}
  }

  function ValidatorOf(t: Trace, e: Entity): Validator {
    var addr := EntityAddress(t.op, e);
    Validator(t.op, t.aiMiddleware, t.isRIP7212Supported, t.rip7212Precompile, t.altMempools, t.checksum,
              SlotsOf(t, t.op.sender), GetFactory(t.op) in t.staked, Title(e), addr,
              t.info(e).access, t.info(e).contractSize, SlotsOf(t, addr), addr in t.staked)
  }

  ghost predicate AcceptsAll(t: Trace) {
    forall e :: Accepts(ValidatorOf(t, e))
  }

  ghost function IdsOfEntity(t: Trace, e: Entity): multiset<string> {
    var v := ValidatorOf(t, e);
    IdsOf(v, Accesses(v))
  }

  ghost function AllIds(t: Trace): multiset<string> {
    IdsOfEntity(t, Account) + IdsOfEntity(t, Factory) + IdsOfEntity(t, Paymaster)
  }

  ghost function IdsUnless(t: Trace, e: Entity, rest: set<Entity>): multiset<string> {
    if e in rest then multiset{} else IdsOfEntity(t, e)
  }

  /** All entities but those in `rest` keep the rules, and `ids` are what they rely on. */
  ghost predicate Checked(t: Trace, rest: set<Entity>, ids: seq<string>) {
    && (forall e | e !in rest :: Accepts(ValidatorOf(t, e)))
    && multiset(ids) == IdsUnless(t, Account, rest) + IdsUnless(t, Factory, rest) + IdsUnless(t, Paymaster, rest)
  }

  function Entities(): set<Entity> {
    {Account, Factory, Paymaster}
  }

  lemma CheckedNone(t: Trace)
    ensures Checked(t, Entities(), [])
  {
    hide IdsOfEntity, Accepts, ValidatorOf;
    forall e ensures e in Entities() {
      match e
      case Account =>
      case Factory =>
      case Paymaster =>
    }
  }

  lemma CheckedOne(t: Trace, rest: set<Entity>, ids: seq<string>, e: Entity, more: seq<string>)
    requires Checked(t, rest, ids) && e in rest && Accepts(ValidatorOf(t, e))
    requires multiset(more) == IdsOf(ValidatorOf(t, e), Accesses(ValidatorOf(t, e)))
    ensures Checked(t, rest - {e}, ids + more)
  {
    hide Accepts, ValidatorOf, IdsOf, Accesses;
    assert IdsUnless(t, e, rest - {e}) == multiset(more) && IdsUnless(t, e, rest) == multiset{};
    hide IdsOfEntity, IdsUnless;
    OthersUnless(t, rest, e);
  }

  lemma OthersUnless(t: Trace, rest: set<Entity>, e: Entity)
    ensures forall x | x != e :: IdsUnless(t, x, rest - {e}) == IdsUnless(t, x, rest)
  {
    hide IdsOfEntity;
  }

  lemma CheckedAll(t: Trace, ids: seq<string>)
    requires Checked(t, {}, ids)
    ensures AcceptsAll(t) && multiset(ids) == AllIds(t)
  {
    hide Accepts, ValidatorOf, IdsOfEntity;
  }

  lemma OneViolates(t: Trace, e: Entity, err: SlotError)
    requires Violates(ValidatorOf(t, e), err)
    ensures !AcceptsAll(t)
  {
    hide Accepts, ValidatorOf, Violates;
    ViolationsAreRejected(ValidatorOf(t, e), err);
  }

  /** Whatever the order of the entities, the operation is accepted if and only if each of them keeps the
      rules, with the same ids up to order; an error names a violation of one of them. */
  method ValidateStorage(t: Trace) returns (err: Option<SlotError>, altMempoolIds: seq<string>)
    requires forall e :: WellFormed(ValidatorOf(t, e))
    ensures err.None? <==> AcceptsAll(t)
    ensures err.None? ==> multiset(altMempoolIds) == AllIds(t)
    ensures err.Some? ==> exists e :: Violates(ValidatorOf(t, e), err.value)
  {
    hide *;
    altMempoolIds := [];
    var rest := Entities();
    CheckedNone(t);
    while rest != {}
      invariant Checked(t, rest, altMempoolIds)
      decreases rest
    {
      var e :| e in rest;
      var ids;
      err, ids := Process(ValidatorOf(t, e));
      if err.Some? {
        OneViolates(t, e, err.value);
        return;
      }
      CheckedOne(t, rest, altMempoolIds, e, ids);
      rest := rest - {e};
      altMempoolIds := altMempoolIds + ids;
    }
    CheckedAll(t, altMempoolIds);
    return None, altMempoolIds;
  }

  // ---------------------------------------------------------------- what staking does

  /** The same operation and trace with one address staked. */
  function StakeAddress(t: Trace, a: Address): Trace {
    t.(staked := t.staked + {a})
  }

  lemma StakeReachesValidators(t: Trace, a: Address, e: Entity)
    ensures ValidatorOf(StakeAddress(t, a), e) == Stake(ValidatorOf(t, e), a)
  {
    hide GetFactory, GetPaymaster;
  }

  /** Staking an address never turns an accepted operation into a rejected one, nor changes its ids, and
      it makes the difference exactly when some access of some entity needs that stake. */
  lemma StakingAnAddressNeverHurts(t: Trace, a: Address)
    ensures AcceptsAll(t)
            <==> AcceptsAll(StakeAddress(t, a))
                 && forall e, x | x in Accesses(ValidatorOf(t, e)) :: !NeedsStakeOf(ValidatorOf(t, e), a, x)
    ensures AllIds(StakeAddress(t, a)) == AllIds(t)
  {
    hide Accepts, ValidatorOf, StakeAddress, Stake, NeedsStakeOf, Accesses, IdsOf;
    forall e
      ensures ValidatorOf(StakeAddress(t, a), e) == Stake(ValidatorOf(t, e), a)
      ensures Accepts(ValidatorOf(t, e))
              <==> Accepts(ValidatorOf(StakeAddress(t, a), e))
                   && forall x | x in Accesses(ValidatorOf(t, e)) :: !NeedsStakeOf(ValidatorOf(t, e), a, x)
      ensures IdsOfEntity(StakeAddress(t, a), e) == IdsOfEntity(t, e)
    {
      StakeReachesValidators(t, a, e);
      StakingNeverHurts(ValidatorOf(t, e), a);
    }
  }
}
