/** Contract codes over whole runs of the services. */
module Issuance {
  import opened Domain
  import opened ContractCodes
  import opened Engine
  import opened Frames
  import opened Integrity
  import opened Numbering

  /** The sequence number a step takes, if any: both `create` and `generateContractCode` take one. */
  function IssueOf(db: Db, s: Step): Option<Issue> {
    match s
    case CodeGenerate(t, store, clock) =>
      if Apply(db, s).1.CodeIs? then
        var key := SequenceKey(t, store, YearMonth(clock));
        Some(Issue(key, NextNumber(db.sequences, key)))
      else None
    case ContractCreate(t, _, dto, _, clock) =>
      if Apply(db, s).1.ContractIs? then
        var key := SequenceKey(t, dto.store, YearMonth(clock));
        Some(Issue(key, NextNumber(db.sequences, key)))
      else None
    case _ => None
  }

  /** The code the reply to such a step shows. */
  function CodeOf(r: Reply): string {
    match r
    case CodeIs(code) => code
    case ContractIs(view) => view.row.code
    case _ => ""
  }

  /** The numbers issued along a run, in order. */
  function Issues(db: Db, steps: seq<Step>): seq<Issue> {
    if steps == [] then []
    else
      var before, last := steps[..|steps| - 1], steps[|steps| - 1];
      var issue := IssueOf(Run(db, before), last);
      Issues(db, before) + if issue.Some? then [issue.value] else []
  }

  lemma CreateSequences(db: Db, tenant: Id, user: Id, dto: CreateContractDto, newId: Id, clock: Clock)
    requires clock.Valid()
    ensures var (db', reply) := CreateContract(db, tenant, user, dto, newId, clock);
            var key := SequenceKey(tenant, dto.store, YearMonth(clock));
            if reply.ContractIs? then
              && db'.sequences == db.sequences[key := NextNumber(db.sequences, key)]
              && dto.store in db.stores
              && CodeOf(reply) == Print(db.stores[dto.store].code, YearMonth(clock), NextNumber(db.sequences, key))
            else db' == db
  {
    hide CreateRefusal, YearMonth, Print, PledgedAssets, PledgedInventory, PledgeLinks, JoinedAssets;
    CreateAcceptance(db, tenant, dto);
  }

  /**
   A step writes contract_sequences exactly when it issues a number, the next one of its row, printed in its
   reply.
   */
  lemma StepIssues(db: Db, s: Step)
    ensures var (db', reply) := Apply(db, s);
            match IssueOf(db, s)
            case None => db'.sequences == db.sequences
            case Some(issue) =>
              && issue.number == Last(db.sequences, issue.key) + 1
              && db'.sequences == db.sequences[issue.key := issue.number]
              && issue.key.tenant == s.tenant && |issue.key.yearMonth| == 6
              && issue.key.store in db.stores && db.stores[issue.key.store].tenant == s.tenant
              && CodeOf(reply) == Print(db.stores[issue.key.store].code, issue.key.yearMonth, issue.number)
  {
    hide YearMonth, Print, Apply, CreateRefusal, CreateContract, FindContract;
    match s
    case ContractCreate(t, user, dto, newId, clock) =>
      CreateIssues(db, s);
    case CodeGenerate(t, store, clock) =>
      GenerateIssues(db, s);
    case _ =>
      StepFramed(db, s);
  }

  lemma GenerateIssues(db: Db, s: Step)
    requires s.CodeGenerate?
    ensures var (db', reply) := Apply(db, s);
            var key := SequenceKey(s.tenant, s.store, if s.clock.Valid() then YearMonth(s.clock) else "");
            if reply.CodeIs? then
              && s.clock.Valid() && |key.yearMonth| == 6 && s.store in db.stores && db.stores[s.store].tenant == s.tenant
              && db'.sequences == db.sequences[key := NextNumber(db.sequences, key)]
              && reply.code == Print(db.stores[s.store].code, key.yearMonth, NextNumber(db.sequences, key))
            else db'.sequences == db.sequences
  {
    hide YearMonth, Print;
    if ValidRequest(s) {
      YearMonthHasSixDigits(s.clock);
    }
  }

  lemma CreateIssues(db: Db, s: Step)
    requires s.ContractCreate?
    ensures var (db', reply) := Apply(db, s);
            var key := SequenceKey(s.tenant, s.create.store, if s.clock.Valid() then YearMonth(s.clock) else "");
            if reply.ContractIs? then
              && s.clock.Valid() && |key.yearMonth| == 6
              && s.create.store in db.stores && db.stores[s.create.store].tenant == s.tenant
              && db'.sequences == db.sequences[key := NextNumber(db.sequences, key)]
              && CodeOf(reply) == Print(db.stores[s.create.store].code, key.yearMonth, NextNumber(db.sequences, key))
            else db'.sequences == db.sequences
  {
    hide YearMonth, Print, CreateContract;
    if ValidRequest(s) {
      CreateSequences(db, s.tenant, s.user, s.create, s.newId, s.clock);
      if Apply(db, s).1.ContractIs? {
        CreateNeedsStore(db, s.tenant, s.user, s.create, s.newId, s.clock);
      }
      YearMonthHasSixDigits(s.clock);
    }
  }

  lemma CreateNeedsStore(db: Db, tenant: Id, user: Id, dto: CreateContractDto, newId: Id, clock: Clock)
    requires clock.Valid() && CreateContract(db, tenant, user, dto, newId, clock).1.ContractIs?
    ensures dto.store in db.stores && db.stores[dto.store].tenant == tenant
  {
    hide YearMonth, Print, PledgedAssets, PledgedInventory, PledgeLinks, JoinedAssets, FindContract;
  }

  /** In every run the numbers issued per tenant, store and month are exactly 1 to last_seq, in order. */
  lemma {:induction false} RunIssuesGapless(db: Db, steps: seq<Step>)
    requires db.sequences == map[]
    ensures Gapless(Issues(db, steps), Run(db, steps).sequences)
  {
    hide Apply, IssueOf, Gapless, Print;
    if steps == [] {
      assert Gapless([], map[]) by {
        NothingIssued();
      }
    } else {
      var before, last := steps[..|steps| - 1], steps[|steps| - 1];
      RunIssuesGapless(db, before);
      StepIssues(Run(db, before), last);
      var issue := IssueOf(Run(db, before), last);
      if issue.Some? {
        GaplessAppend(Issues(db, before), Run(db, before).sequences, issue.value.key);
      } else {
        assert Issues(db, steps) == Issues(db, before);
      }
    }
  }

  lemma NothingIssued()
    ensures Gapless([], map[])
  {
  }

  // ---------------------------------------------------------------- codes of contracts

  ghost predicate DistinctStoreCodes(stores: map<Id, Store>) {
    forall s, t | s in stores && t in stores && s != t && stores[s].tenant == stores[t].tenant :: stores[s].code != stores[t].code
  }

  /** A contract carries a code its store was issued. */
  ghost predicate CodeIssued(db: Db, id: Id)
    requires id in db.contracts
  {
    var c := db.contracts[id];
    var p := Parse(c.code);
    && c.store in db.stores && p.Parts? && p.storeCode == db.stores[c.store].code
    && p.number <= Last(db.sequences, SequenceKey(c.tenant, c.store, p.yearMonth))
  }

  ghost predicate CodesSound(db: Db) {
    && (forall id | id in db.contracts :: CodeIssued(db, id))
    && (forall a, b | a in db.contracts && b in db.contracts && a != b &&
          db.contracts[a].tenant == db.contracts[b].tenant && db.contracts[a].store == db.contracts[b].store ::
          db.contracts[a].code != db.contracts[b].code)
  }

  /** Steps that add no contract. */
  lemma CodesKept(db: Db, db': Db)
    requires CodesSound(db) && Grows(db, db') && db'.contracts.Keys == db.contracts.Keys
    requires forall key :: Last(db.sequences, key) <= Last(db'.sequences, key)
    ensures CodesSound(db')
  {
    forall id | id in db'.contracts ensures CodeIssued(db', id) {
      assert CodeIssued(db, id) && SameTerms(db.contracts[id], db'.contracts[id]);
    }
  }

  /** A new contract with the next number of its store and month. */
  lemma NewCodeSound(db: Db, db': Db, id: Id, key: SequenceKey)
    requires CodesSound(db) && id !in db.contracts && id in db'.contracts && db'.stores == db.stores
    requires db'.contracts == db.contracts[id := db'.contracts[id]]
    requires db'.contracts[id].tenant == key.tenant && db'.contracts[id].store == key.store && key.store in db.stores
    requires |key.yearMonth| == 6 && db'.sequences == db.sequences[key := Last(db.sequences, key) + 1]
    requires db'.contracts[id].code == Print(db.stores[key.store].code, key.yearMonth, Last(db.sequences, key) + 1)
    ensures CodesSound(db')
  {
    hide Print, Parse;
    ParsePrint(db.stores[key.store].code, key.yearMonth, Last(db.sequences, key) + 1);
    forall k | k in db'.contracts ensures CodeIssued(db', k) {
      if k != id {
        assert CodeIssued(db, k);
      }
    }
    forall k | k in db.contracts && db.contracts[k].tenant == key.tenant && db.contracts[k].store == key.store
      ensures db.contracts[k].code != db'.contracts[id].code
    {
      assert CodeIssued(db, k);
    }
  }

  lemma CreateCodes(db: Db, tenant: Id, user: Id, dto: CreateContractDto, newId: Id, clock: Clock)
    requires CodesSound(db) && clock.Valid()
    ensures CodesSound(CreateContract(db, tenant, user, dto, newId, clock).0)
  {
    hide CodesSound, CreateRefusal, FindContract, YearMonth, Print, PledgedAssets, PledgedInventory, PledgeLinks;
    CreateAcceptance(db, tenant, dto);
    YearMonthHasSixDigits(clock);
    if CreateRefusal(db, tenant, dto) == None && newId !in db.contracts {
      NewCodeSound(db, CreateContract(db, tenant, user, dto, newId, clock).0, newId,
                   SequenceKey(tenant, dto.store, YearMonth(clock)));
    }
  }

  lemma OtherStepKeys(db: Db, s: Step)
    requires !s.ContractCreate?
    ensures Apply(db, s).0.contracts.Keys == db.contracts.Keys
  {
    hide Apply, Enters, MovesContracts;
    StepFramed(db, s);
  }

  lemma StepCodes(db: Db, s: Step)
    requires CodesSound(db)
    ensures CodesSound(Apply(db, s).0)
  {
    hide CodesSound, CreateContract, Grows, IssueOf, Print;
    if s.ContractCreate? {
      if ValidRequest(s) {
        CreateCodes(db, s.tenant, s.user, s.create, s.newId, s.clock);
      }
    } else {
      OtherStepCodes(db, s);
    }
  }

  lemma OtherStepCodes(db: Db, s: Step)
    requires CodesSound(db) && !s.ContractCreate?
    ensures CodesSound(Apply(db, s).0)
  {
    hide CodesSound, Apply, Grows, IssueOf, Print;
    StepGrows(db, s);
    StepIssues(db, s);
    OtherStepKeys(db, s);
    CodesKept(db, Apply(db, s).0);
  }

  lemma {:induction false} RunCodes(db: Db, steps: seq<Step>)
    requires CodesSound(db)
    ensures CodesSound(Run(db, steps))
  {
    hide CodesSound, Apply;
    if steps == [] {
    } else {
      RunCodes(db, steps[..|steps| - 1]);
      StepCodes(Run(db, steps[..|steps| - 1]), steps[|steps| - 1]);
    }
  }

  /**
   In every run, while store codes stay distinct per tenant, no two contracts of a tenant share a code:
   the tenant-wide uniqueness of contract_code never has to refuse an insert.
   */
  lemma CodesUnique(stores: map<Id, Store>, customers: map<Id, Customer>, steps: seq<Step>, a: Id, b: Id)
    requires DistinctStoreCodes(stores)
    requires var contracts := Run(Initial(stores, customers), steps).contracts;
             a in contracts && b in contracts && a != b && contracts[a].tenant == contracts[b].tenant
    ensures var contracts := Run(Initial(stores, customers), steps).contracts;
            contracts[a].code != contracts[b].code
  {
    hide Apply;
    var empty := Initial(stores, customers);
    var db := Run(empty, steps);
    RunCodes(empty, steps);
    RunGrows(empty, steps);
    RunSound(empty, steps);
    assert CodeIssued(db, a) && CodeIssued(db, b);
    assert ContractOk(db, a) && ContractOk(db, b);
  }

  // ---------------------------------------------------------------- codes shown in replies

  /** The code printed for an issued number. */
  function IssuedCode(stores: map<Id, Store>, issue: Issue): string
    requires issue.key.store in stores
  {
    Print(stores[issue.key.store].code, issue.key.yearMonth, issue.number)
  }

  ghost predicate ProperIssue(stores: map<Id, Store>, issue: Issue) {
    issue.key.store in stores && stores[issue.key.store].tenant == issue.key.tenant && |issue.key.yearMonth| == 6
  }

  lemma {:induction false} IssuesProper(db: Db, steps: seq<Step>)
    ensures forall issue | issue in Issues(db, steps) :: ProperIssue(db.stores, issue)
  {
    hide Apply, IssueOf, Print, Grows;
    if steps == [] {
    } else {
      var before, last := steps[..|steps| - 1], steps[|steps| - 1];
      IssuesProper(db, before);
      StepIssues(Run(db, before), last);
      StoresStay(db, before);
    }
  }

  lemma StoresStay(db: Db, steps: seq<Step>)
    ensures Run(db, steps).stores == db.stores
  {
    hide Run;
    RunGrows(db, steps);
  }

  /**
   The codes a run issues to a tenant, through `create` or through `generateContractCode`, coincide for two
   issues exactly when two stores of the tenant share a code and the numbers and months agree.
   */
  lemma IssuedCodesDiffer(stores: map<Id, Store>, customers: map<Id, Customer>, steps: seq<Step>, i: nat, j: nat)
    requires var issues := Issues(Initial(stores, customers), steps);
             i < j < |issues| && issues[i].key.tenant == issues[j].key.tenant
    ensures var issues := Issues(Initial(stores, customers), steps);
            var x, y := issues[i], issues[j];
            && x.key.store in stores && y.key.store in stores
            && (IssuedCode(stores, x) == IssuedCode(stores, y) <==>
                x.key.store != y.key.store && stores[x.key.store].code == stores[y.key.store].code &&
                x.key.yearMonth == y.key.yearMonth && x.number == y.number)
            && (DistinctStoreCodes(stores) ==> IssuedCode(stores, x) != IssuedCode(stores, y))
  {
    hide Print, Run, Issues, Gapless;
    var empty := Initial(stores, customers);
    var issues := Issues(empty, steps);
    var x, y := issues[i], issues[j];
    IssuesProper(empty, steps);
    assert ProperIssue(stores, x) && ProperIssue(stores, y);
    RunIssuesGapless(empty, steps);
    if x.key == y.key {
      GaplessIncreasing(issues, Run(empty, steps).sequences, i, j);
    }
    PrintInjective(stores[x.key.store].code, x.key.yearMonth, x.number, stores[y.key.store].code, y.key.yearMonth, y.number);
  }
}
