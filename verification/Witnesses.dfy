/** Concrete runs from empty tables: contracts do come about, and each failure the theorems leave room for does happen. */
module Witnesses {
  import opened Domain
  import opened ContractCodes
  import opened Engine
  import opened Integrity
  import opened Isolation
  import opened Pledge
  import opened LedgerConservation
  import opened Outcomes
  import opened Custody

  const TENANT: Id := 1
  const OTHER_TENANT: Id := 2
  const STORE: Id := 10
  const CUSTOMER: Id := 20
  const ASSET: Id := 30
  const CONTRACT: Id := 40
  const NEW_CONTRACT: Id := 41
  const USER: Id := 50
  const PAYMENT: Id := 60

  const NOON := Clock(0, 2026, 0)

  const EMPTY := Initial(map[STORE := Store(TENANT, "HN-1")], map[CUSTOMER := Customer(TENANT, "An")])

  const RING := CreateAssetDto(map[], None, None)

  const LOAN := CreateContractDto(STORE, CUSTOMER, [ASSET], 100.0, 2.0, Monthly, 0, 30, None)

  const TAKE_IN := AssetCreate(TENANT, STORE, RING, ASSET, 0)
  const RELEASE := AssetStatusSet(TENANT, ASSET, Redeemed, 0)
  const PLEDGE := ContractCreate(TENANT, USER, LOAN, CONTRACT, NOON)
  const PLEDGE_AGAIN := ContractCreate(TENANT, USER, LOAN, NEW_CONTRACT, NOON)
  const SETTLE := TransactionRecord(TENANT, STORE, USER, RecordDto(CONTRACT, Settlement, 102.0, Cash, 0, None, None), PAYMENT, 0)

  const PAID := LedgerRow(PAYMENT, TENANT, STORE, CONTRACT, Settlement, 102.0, Cash, 0, None, None, USER)

  const RELEASED_RUN := [TAKE_IN, RELEASE]
  const PLEDGED_RUN := RELEASED_RUN + [PLEDGE]
  const SETTLED_RUN := PLEDGED_RUN + [SETTLE]
  const REPLEDGED_RUN := SETTLED_RUN + [PLEDGE_AGAIN]

  lemma RunAppend(db: Db, steps: seq<Step>, s: Step)
    ensures Run(db, steps + [s]) == Apply(Run(db, steps), s).0
  {
    hide Apply;
    assert (steps + [s])[..|steps|] == steps;
  }

  // ---------------------------------------------------------------- the states along the run

  const FREE_ASSET := Asset(TENANT, STORE, Redeemed, map[], 0)

  const SHELF := InventoryRow(TENANT, STORE, ASSET, None, None, 0, None, InStore)

  /** Taken in, and released by hand: `create` refuses assets as they are born. */
  const RELEASED := EMPTY.(assets := map[ASSET := FREE_ASSET], inventory := [SHELF])

  lemma ReleasedReached()
    ensures Run(EMPTY, RELEASED_RUN) == RELEASED
  {
    assert RELEASED_RUN == [TAKE_IN] + [RELEASE] && [TAKE_IN] == [] + [TAKE_IN];
    RunAppend(EMPTY, [TAKE_IN], RELEASE);
    RunAppend(EMPTY, [], TAKE_IN);
    TakenIn();
  }

  lemma TakenIn()
    ensures Apply(Apply(EMPTY, TAKE_IN).0, RELEASE).0 == RELEASED
  {
    hide FindAsset;
    var db := Apply(EMPTY, TAKE_IN).0;
    assert db.assets == map[ASSET := FREE_ASSET.(status := Pawned)];
  }

  /** Born pawned, the asset cannot be pledged at once. */
  lemma BornPawned()
    ensures Apply(Apply(EMPTY, TAKE_IN).0, PLEDGE).1.Failed?
  {
    hide CreateRefusal, FindContract, WriteContract;
    var db := Apply(EMPTY, TAKE_IN).0;
    assert ASSET in LOAN.assets && db.assets[ASSET].status == Pawned;
    CreateAcceptance(db, TENANT, LOAN);
  }

  lemma LoanAccepted(db: Db)
    requires db.stores == EMPTY.stores && db.customers == EMPTY.customers
    requires ASSET in db.assets && db.assets[ASSET].tenant == TENANT && db.assets[ASSET].store == STORE
    requires db.assets[ASSET].status != Pawned
    ensures CreateRefusal(db, TENANT, LOAN) == None
  {
    hide CreateRefusal;
    CreateAcceptance(db, TENANT, LOAN);
  }

  function Pledged(): Db {
    WriteContract(RELEASED, TENANT, USER, LOAN, CONTRACT, NOON)
  }

  lemma PledgedReached()
    ensures Run(EMPTY, PLEDGED_RUN) == Pledged()
    ensures Apply(RELEASED, PLEDGE).1.ContractIs?
  {
    hide CreateRefusal, FindContract, WriteContract, Run;
    ReleasedReached();
    RunAppend(EMPTY, RELEASED_RUN, PLEDGE);
    LoanAccepted(RELEASED);
    Served(RELEASED, CONTRACT);
  }

  lemma Served(db: Db, id: Id)
    requires db.stores == EMPTY.stores && CreateRefusal(db, TENANT, LOAN) == None && id !in db.contracts
    ensures var (db', reply) := Apply(db, ContractCreate(TENANT, USER, LOAN, id, NOON));
            db' == WriteContract(db, TENANT, USER, LOAN, id, NOON) && reply.ContractIs?
  {
    hide CreateRefusal, YearMonth, Print, PledgedAssets, PledgedInventory, PledgeLinks, JoinedAssets;
  }

  /** The tables after the pledge, as far as the following needs them. */
  lemma PledgedTables()
    ensures var db := Pledged();
            && db.stores == EMPTY.stores && db.customers == EMPTY.customers && db.ledger == []
            && db.links == [Link(TENANT, CONTRACT, ASSET)]
            && db.contracts.Keys == {CONTRACT} && db.contracts[CONTRACT].tenant == TENANT
            && db.contracts[CONTRACT].store == STORE && db.contracts[CONTRACT].status == Active
            && db.assets == map[ASSET := FREE_ASSET.(status := Pawned)] && db.inventory == [SHELF]
  {
    hide YearMonth, Print;
  }

  // ---------------------------------------------------------------- exclusivity

  /** A run reaches a live contract with its asset pawned and backing nothing else. */
  lemma ContractsComeAbout()
    ensures var db := Run(EMPTY, PLEDGED_RUN);
            Live(db, CONTRACT) && BacksLive(db, ASSET) && Exclusive(db)
  {
    hide Run, Pledged, Apply;
    PledgedReached();
    PledgedTables();
    assert Link(TENANT, CONTRACT, ASSET) in Pledged().links;
  }

  /** Releasing the asset of a live contract by hand breaks exclusivity. */
  lemma ReleaseBreaksExclusivity()
    ensures !Exclusive(Run(EMPTY, PLEDGED_RUN + [RELEASE]))
    ensures !DisciplinedThroughout(EMPTY, PLEDGED_RUN + [RELEASE])
  {
    hide Run, Apply, Pledged, Exclusive, DisciplinedThroughout, ExclusiveThroughout, BacksLive, Sound;
    var db := Run(EMPTY, PLEDGED_RUN);
    NothingYetExclusive();
    RunSound(EMPTY, PLEDGED_RUN);
    ContractsComeAbout();
    RunAppend(EMPTY, PLEDGED_RUN, RELEASE);
    PledgedReached();
    PledgedTables();
    StepExclusive(db, RELEASE);
    RunExclusive(EMPTY, PLEDGED_RUN + [RELEASE]);
    ThroughoutAtEnd(EMPTY, PLEDGED_RUN + [RELEASE]);
  }

  lemma NothingYetExclusive()
    ensures Sound(EMPTY) && Exclusive(EMPTY) && WellKept(EMPTY.ledger) && AtMostOnce(EMPTY.ledger)
  {
  }

  lemma ThroughoutAtEnd(db: Db, steps: seq<Step>)
    ensures ExclusiveThroughout(db, steps) ==> Exclusive(Run(db, steps))
  {
    hide Run, Exclusive;
  }

  /** Two creations for one asset that both passed the check leave it backing two live contracts. */
  lemma InterleavedCreationsCollide()
    ensures var db := Run(EMPTY, RELEASED_RUN);
            && CreateRefusal(db, TENANT, LOAN) == None && STORE in db.stores
            && var once := WriteContract(db, TENANT, USER, LOAN, CONTRACT, NOON);
               !Exclusive(WriteContract(once, TENANT, USER, LOAN, NEW_CONTRACT, NOON))
  {
    hide Run, WriteContract, CreateRefusal, Exclusive, Sound;
    var db := Run(EMPTY, RELEASED_RUN);
    NothingYetExclusive();
    RunSound(EMPTY, RELEASED_RUN);
    ReleasedReached();
    LoanAccepted(db);
    assert Exclusive(RELEASED) by {
      ReleasedExclusive();
    }
    InterleavedCreations(db, TENANT, USER, LOAN, CONTRACT, NOON, USER, LOAN, NEW_CONTRACT, NOON);
    assert ASSET in LOAN.assets;
  }

  lemma ReleasedExclusive()
    ensures Exclusive(RELEASED)
  {
  }

  // ---------------------------------------------------------------- settled and pledged again

  lemma SettledTables()
    ensures var db := Run(EMPTY, SETTLED_RUN);
            && db.stores == EMPTY.stores && db.customers == EMPTY.customers && db.ledger == [PAID]
            && db.links == [Link(TENANT, CONTRACT, ASSET)] && db.contracts.Keys == {CONTRACT}
            && db.assets == map[ASSET := FREE_ASSET]
            && db.inventory == [SHELF.(returnedAt := Some(0), status := Returned)]
  {
    hide Run, Pledged, Apply;
    PledgedReached();
    PledgedTables();
    RunAppend(EMPTY, PLEDGED_RUN, SETTLE);
    SettlementTables(Pledged());
  }

  lemma SettlementTables(db: Db)
    requires db.ledger == [] && db.links == [Link(TENANT, CONTRACT, ASSET)] && db.contracts.Keys == {CONTRACT}
    requires db.contracts[CONTRACT].tenant == TENANT && db.contracts[CONTRACT].store == STORE
    requires db.contracts[CONTRACT].status == Active
    requires db.assets == map[ASSET := FREE_ASSET.(status := Pawned)] && db.inventory == [SHELF]
    ensures var db' := Apply(db, SETTLE).0;
            && db'.stores == db.stores && db'.customers == db.customers && db'.ledger == [PAID] && db'.links == db.links
            && db'.contracts.Keys == {CONTRACT} && db'.assets == map[ASSET := FREE_ASSET]
            && db'.inventory == [SHELF.(returnedAt := Some(0), status := Returned)]
  {
    hide FindContract, FindAsset, CreateRefusal;
    assert LinkedAssets(db.links, TENANT, CONTRACT) == {ASSET} by {
      assert Link(TENANT, CONTRACT, ASSET) in db.links;
    }
  }

  lemma RepledgedTables()
    ensures var db := Run(EMPTY, REPLEDGED_RUN);
            && db.links == [Link(TENANT, CONTRACT, ASSET), Link(TENANT, NEW_CONTRACT, ASSET)]
            && db.assets == map[ASSET := FREE_ASSET.(status := Pawned)]
            && db.inventory == [SHELF.(returnedAt := Some(0))]
  {
    hide Run, Apply, CreateRefusal, FindContract, YearMonth, Print;
    SettledTables();
    var db := Run(EMPTY, SETTLED_RUN);
    RunAppend(EMPTY, SETTLED_RUN, PLEDGE_AGAIN);
    LoanAccepted(db);
    Served(db, NEW_CONTRACT);
  }

  /** An asset settled once and pledged again is in custody, but not on the inventory list. */
  lemma RepledgedIsNotListed()
    ensures var db := Run(EMPTY, REPLEDGED_RUN);
            && GetInventory(db, db.inventory, TENANT, None) == []
            && AssetsInCustody(db, TENANT, None) == {ASSET}
  {
    hide Run;
    RepledgedTables();
    var db := Run(EMPTY, REPLEDGED_RUN);
    assert db.inventory[..0] == [];
  }

  // ---------------------------------------------------------------- extended, then settled

  const EXTEND := ContractExtend(TENANT, STORE, USER, ExtendDto(CONTRACT, 60, 2.0, None, Cash, None), 70, 0)
  const COLLECT := TransactionRecord(TENANT, STORE, USER, RecordDto(CONTRACT, InterestCollection, 2.0, Cash, 0, None, None), 71, 0)

  const EXTENDED_RUN := PLEDGED_RUN + [EXTEND]
  const COLLECTED_RUN := EXTENDED_RUN + [COLLECT]

  /** A run extends a contract to a later date, collects interest on it and settles it. */
  lemma ExtendedContractsSettle()
    ensures Run(EMPTY, PLEDGED_RUN).contracts.Keys == {CONTRACT}
    ensures var extended := Run(EMPTY, EXTENDED_RUN);
            && CONTRACT in extended.contracts && extended.contracts[CONTRACT].status == Extended
            && extended.contracts[CONTRACT].dueDate == 60
            && Apply(extended, COLLECT).1.Recorded?
            && Apply(Run(EMPTY, COLLECTED_RUN), SETTLE).1.Recorded?
  {
    hide Run, Pledged, Apply;
    PledgedReached();
    PledgedTables();
    RunAppend(EMPTY, PLEDGED_RUN, EXTEND);
    RunAppend(EMPTY, EXTENDED_RUN, COLLECT);
    var db := Pledged();
    ExtendAnswer(db, EXTEND);
    ExtendWrites(db, EXTEND);
    var extended := Run(EMPTY, EXTENDED_RUN);
    RecordAnswer(extended, COLLECT);
    RecordWrites(extended, COLLECT);
    RecordAnswer(Run(EMPTY, COLLECTED_RUN), SETTLE);
  }

  // ---------------------------------------------------------------- voiding twice

  const FIRST_VOID := TransactionVoid(TENANT, PAYMENT, USER, "typo", 61, 0)
  const SECOND_VOID := TransactionVoid(TENANT, PAYMENT, USER, "typo", 62, 0)

  const VOIDED_RUN := SETTLED_RUN + [FIRST_VOID]

  /** The settlement of the run can be voided, and then voided again. */
  lemma SecondVoidAccepted()
    ensures AtMostOnce(Run(EMPTY, VOIDED_RUN).ledger)
    ensures !AtMostOnce(Run(EMPTY, VOIDED_RUN + [SECOND_VOID]).ledger)
  {
    hide Run, Apply, WellKept, AtMostOnce, VoidsAgain, VoidCount;
    NothingYetExclusive();
    RunWellKept(EMPTY, SETTLED_RUN);
    RunWellKept(EMPTY, VOIDED_RUN);
    RunAppend(EMPTY, SETTLED_RUN, FIRST_VOID);
    RunAppend(EMPTY, VOIDED_RUN, SECOND_VOID);
    SettledLedger();
    StepAtMostOnce(Run(EMPTY, SETTLED_RUN), FIRST_VOID);
    VoidedLedger(Run(EMPTY, SETTLED_RUN));
    StepAtMostOnce(Run(EMPTY, VOIDED_RUN), SECOND_VOID);
  }

  lemma SettledLedger()
    ensures Run(EMPTY, SETTLED_RUN).ledger == [PAID] && AtMostOnce([PAID])
    ensures !VoidsAgain(Run(EMPTY, SETTLED_RUN), FIRST_VOID)
  {
    hide Run, FindTransaction, HasRowId;
    SettledTables();
    assert [PAID][..0] == [];
    assert forall id :: VoidCount([PAID], id) == 0;
  }

  lemma VoidedLedger(db: Db)
    requires db.ledger == [PAID]
    ensures VoidsAgain(Apply(db, FIRST_VOID).0, SECOND_VOID)
  {
    var v := LedgerRow(61, TENANT, STORE, CONTRACT, Void, -102.0, Cash, 0, Some("typo"), Some(PAYMENT), USER);
    assert [PAID][..0] == [] && [PAID, v][..1] == [PAID];
    assert FindTransaction([PAID], TENANT, PAYMENT) == 0;
    assert Apply(db, FIRST_VOID).0.ledger == [PAID, v];
  }

  // ---------------------------------------------------------------- clashing keys

  /** Only a generated key that names another tenant's row lets one tenant notice another. */
  lemma ClashIsNoticed()
    ensures var steps := [TAKE_IN, AssetCreate(OTHER_TENANT, STORE, RING, ASSET, 0)];
            OwnReplies(EMPTY, steps, OTHER_TENANT) != Replies(Restrict(EMPTY, OTHER_TENANT), Own(steps, StepTenant, OTHER_TENANT))
  {
    hide Run, OwnReplies, Replies, Restrict, Own, Sound;
    var steps := [TAKE_IN, AssetCreate(OTHER_TENANT, STORE, RING, ASSET, 0)];
    NothingYetExclusive();
    TenantsDoNotInterfere(EMPTY, steps, OTHER_TENANT);
    assert steps[..1] == [] + [TAKE_IN];
    RunAppend(EMPTY, [], TAKE_IN);
    NothingRun();
    assert ForeignKeyClash(Run(EMPTY, steps[..1]), steps[1]);
  }

  lemma NothingRun()
    ensures Run(EMPTY, []) == EMPTY
  {
  }
}
