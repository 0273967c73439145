/** The usage-credit wallet: two writers of one ledger with unique idempotency keys, a
    debit watermark and a cached balance. */
module Wallet {
  import opened Basics
  import opened Text

  /** An organization's UUID. Keys hold it in the spelling that the caller used. */
  type Org = string
  type Micros = int

  datatype Key = Signup(org: Org, spelling: string) | SandboxDebit(org: Org, spelling: string, cumulative: Micros) | Inference(request: string)
  datatype Row = Row(org: Org, amount: Micros, key: Key)

  /** The parts of a balance, told apart by the kind of key. */
  datatype Part = Granted | Sandbox | Inferred

  datatype Tables = Tables(ledger: seq<Row>, billed: map<Org, Micros>, balances: map<Org, Micros>)

  predicate HasKey(ledger: seq<Row>, key: Key) {
    exists i :: 0 <= i < |ledger| && ledger[i].key == key
  }

  /** An insertion that does nothing on a key conflict. */
  function Insert(ledger: seq<Row>, row: Row): (r: seq<Row>)
    ensures HasKey(r, row.key)
  {
    if HasKey(ledger, row.key) then ledger
    else
      var r := ledger + [row];
      assert r[|ledger|].key == row.key;
      r
  }

  function PartOf(key: Key): Part {
    match key
    case Signup(_, _) => Granted
    case SandboxDebit(_, _, _) => Sandbox
    case Inference(_) => Inferred
  }

  function PartTotal(ledger: seq<Row>, org: Org, part: Part): Micros {
    if ledger == [] then 0
    else
      var last := ledger[|ledger| - 1];
      PartTotal(ledger[..|ledger| - 1], org, part) + if last.org == org && PartOf(last.key) == part then last.amount else 0
  }

  function Total(ledger: seq<Row>, org: Org): Micros {
    if ledger == [] then 0
    else
      var last := ledger[|ledger| - 1];
      Total(ledger[..|ledger| - 1], org) + if last.org == org then last.amount else 0
  }

  /** A balance is the sum of its parts. */
  lemma {:induction false} TotalIsSumOfParts(ledger: seq<Row>, org: Org)
    ensures Total(ledger, org) == PartTotal(ledger, org, Granted) + PartTotal(ledger, org, Sandbox)
                                  + PartTotal(ledger, org, Inferred)
  {
    if ledger != [] {
      TotalIsSumOfParts(ledger[..|ledger| - 1], org);
    }
  }

  lemma TotalOfInsert(ledger: seq<Row>, row: Row, org: Org, part: Part)
    ensures PartTotal(Insert(ledger, row), org, part) == PartTotal(ledger, org, part) +
              if !HasKey(ledger, row.key) && row.org == org && PartOf(row.key) == part then row.amount else 0
    ensures Total(Insert(ledger, row), org) == Total(ledger, org) +
              if !HasKey(ledger, row.key) && row.org == org then row.amount else 0
  {
    if !HasKey(ledger, row.key) {
      assert (ledger + [row])[..|ledger|] == ledger;
    }
  }

  // ----- The two transactions

  function Max(a: Micros, b: Micros): Micros {
    if a < b then b else a
  }

  /** The watermark a first debit starts from: the legacy baseline if there is one,
      otherwise the current reading. */
  function Seed(baselines: map<Org, Micros>, org: Org, reading: Micros): Micros {
    if org in baselines then baselines[org] else reading
  }

  function MarkBefore(t: Tables, baselines: map<Org, Micros>, org: Org, reading: Micros): Micros {
    if org in t.billed then t.billed[org] else Seed(baselines, org, reading)
  }

  datatype Tx =
    | ResolveTx(org: Org, spelling: string, grant: Micros, reading: Micros)
    | SettleTx(org: Org, request: string, cost: Micros)

  /** The rows a transaction offers to the ledger. */
  function Offered(t: Tables, baselines: map<Org, Micros>, tx: Tx): seq<Row> {
    match tx
    case ResolveTx(org, spelling, grant, reading) =>
      var mark := MarkBefore(t, baselines, org, reading);
      [Row(org, grant, Signup(org, spelling))] + if mark < reading then [Row(org, mark - reading, SandboxDebit(org, spelling, reading))] else []
    case SettleTx(org, request, cost) => [Row(org, -cost, Inference(request))]
  }

  function InsertAll(ledger: seq<Row>, rows: seq<Row>): seq<Row> {
    if rows == [] then ledger else Insert(InsertAll(ledger, rows[..|rows| - 1]), rows[|rows| - 1])
  }

  function Commit(t: Tables, baselines: map<Org, Micros>, tx: Tx): Tables {
    var ledger := InsertAll(t.ledger, Offered(t, baselines, tx));
    Tables(ledger,
           if tx.ResolveTx? then t.billed[tx.org := Max(MarkBefore(t, baselines, tx.org, tx.reading), tx.reading)] else t.billed,
           t.balances[tx.org := Total(ledger, tx.org)])
  }

  lemma CommitUnfolds(t: Tables, baselines: map<Org, Micros>, tx: Tx)
    ensures Commit(t, baselines, tx).ledger ==
            match tx
            case ResolveTx(org, spelling, grant, reading) =>
              var mark := MarkBefore(t, baselines, org, reading);
              var granted := Insert(t.ledger, Row(org, grant, Signup(org, spelling)));
              if mark < reading then Insert(granted, Row(org, mark - reading, SandboxDebit(org, spelling, reading))) else granted
            case SettleTx(org, request, cost) => Insert(t.ledger, Row(org, -cost, Inference(request)))
  {
    hide Insert, HasKey, Total, MarkBefore;
    var rows := Offered(t, baselines, tx);
    if |rows| == 1 {
      InsertOne(t.ledger, rows[0]);
      assert rows == [rows[0]];
    } else {
      InsertTwo(t.ledger, rows[0], rows[1]);
      assert rows == [rows[0], rows[1]];
    }
  }

  lemma InsertOne(ledger: seq<Row>, row: Row)
    ensures InsertAll(ledger, [row]) == Insert(ledger, row)
  {
    hide Insert;
    assert [row][..0] == [] && InsertAll(ledger, []) == ledger;
  }

  lemma InsertTwo(ledger: seq<Row>, a: Row, b: Row)
    ensures InsertAll(ledger, [a, b]) == Insert(Insert(ledger, a), b)
  {
    hide Insert;
    InsertOne(ledger, a);
    assert [a, b][..1] == [a];
  }

  // ----- What every committed transaction keeps

  ghost predicate DistinctKeys(ledger: seq<Row>) {
    forall i, j | 0 <= i < j < |ledger| :: ledger[i].key != ledger[j].key
  }

  ghost predicate OwnKeys(ledger: seq<Row>) {
    forall i | 0 <= i < |ledger| :: ledger[i].key.Signup? || ledger[i].key.SandboxDebit? ==> ledger[i].key.org == ledger[i].org
  }

  /** Every stored sandbox key is at most the watermark of its organization. */
  ghost predicate KeysBelowMark(ledger: seq<Row>, billed: map<Org, Micros>) {
    forall i | 0 <= i < |ledger| && ledger[i].key.SandboxDebit? ::
      ledger[i].key.org in billed && ledger[i].key.cumulative <= billed[ledger[i].key.org]
  }

  ghost predicate CacheIsLedgerSum(t: Tables) {
    && (forall org | org in t.balances :: t.balances[org] == Total(t.ledger, org))
    && (forall i | 0 <= i < |t.ledger| :: t.ledger[i].org in t.balances)
  }

  ghost predicate Sound(t: Tables) {
    DistinctKeys(t.ledger) && OwnKeys(t.ledger) && KeysBelowMark(t.ledger, t.billed) && CacheIsLedgerSum(t)
  }

  lemma InsertKeeps(ledger: seq<Row>, row: Row, billed: map<Org, Micros>)
    requires DistinctKeys(ledger) && OwnKeys(ledger) && KeysBelowMark(ledger, billed)
    requires row.key.Signup? || row.key.SandboxDebit? ==> row.key.org == row.org
    requires row.key.SandboxDebit? ==> row.org in billed && row.key.cumulative <= billed[row.org]
    ensures var r := Insert(ledger, row); DistinctKeys(r) && OwnKeys(r) && KeysBelowMark(r, billed)
  {
  }

  lemma InsertRows(ledger: seq<Row>, row: Row)
    ensures var r := Insert(ledger, row);
            (forall i | 0 <= i < |r| :: (i < |ledger| && r[i] == ledger[i]) || (r[i] == row && !HasKey(ledger, row.key)))
            && |ledger| <= |r| && r[..|ledger|] == ledger
  {
  }

  lemma MarkRises(ledger: seq<Row>, billed: map<Org, Micros>, org: Org, mark: Micros)
    requires KeysBelowMark(ledger, billed) && (org in billed ==> billed[org] <= mark)
    ensures KeysBelowMark(ledger, billed[org := mark])
  {
  }

  lemma CacheStep(t: Tables, ledger: seq<Row>, billed: map<Org, Micros>, org: Org)
    requires CacheIsLedgerSum(t)
    requires |t.ledger| <= |ledger| && ledger[..|t.ledger|] == t.ledger
    requires forall i | |t.ledger| <= i < |ledger| :: ledger[i].org == org
    requires forall other | other != org :: Total(ledger, other) == Total(t.ledger, other)
    ensures CacheIsLedgerSum(Tables(ledger, billed, t.balances[org := Total(ledger, org)]))
  {
    forall i | 0 <= i < |ledger| ensures ledger[i].org in t.balances || ledger[i].org == org {
      if i < |t.ledger| {
        assert ledger[i] == t.ledger[i];
      }
    }
  }

  /** A sandbox debit is never swallowed: its key lies above the watermark, so it is new. */
  lemma SandboxKeyIsNew(t: Tables, baselines: map<Org, Micros>, org: Org, spelling: string, reading: Micros)
    requires KeysBelowMark(t.ledger, t.billed) && MarkBefore(t, baselines, org, reading) < reading
    ensures !HasKey(t.ledger, SandboxDebit(org, spelling, reading))
  {
  }

  lemma CommitKeepsSound(t: Tables, baselines: map<Org, Micros>, tx: Tx)
    requires Sound(t)
    ensures Sound(Commit(t, baselines, tx))
  {
    hide HasKey, Insert, DistinctKeys, OwnKeys, KeysBelowMark, CacheIsLedgerSum, Total, InsertAll;
    CommitUnfolds(t, baselines, tx);
    var t' := Commit(t, baselines, tx);
    var rows := Offered(t, baselines, tx);
    var once := Insert(t.ledger, rows[0]);
    if tx.ResolveTx? {
      MarkRises(t.ledger, t.billed, tx.org, t'.billed[tx.org]);
    }
    InsertKeeps(t.ledger, rows[0], t'.billed);
    InsertRows(t.ledger, rows[0]);
    forall other | other != tx.org ensures Total(t'.ledger, other) == Total(t.ledger, other) {
      TotalOfInsert(t.ledger, rows[0], other, Sandbox);
      if |rows| == 2 {
        TotalOfInsert(once, rows[1], other, Sandbox);
      }
    }
    if |rows| == 2 {
      InsertKeeps(once, rows[1], t'.billed);
      InsertRows(once, rows[1]);
    }
    CacheStep(t, t'.ledger, t'.billed, tx.org);
  }

  // ----- Runs: any interleaving of committed transactions of both writers

  function Run(t: Tables, baselines: map<Org, Micros>, txs: seq<Tx>): Tables {
    if txs == [] then t else Commit(Run(t, baselines, txs[..|txs| - 1]), baselines, txs[|txs| - 1])
  }

  const EMPTY := Tables([], map[], map[])

  lemma {:induction false} RunKeepsSound(t: Tables, baselines: map<Org, Micros>, txs: seq<Tx>)
    requires Sound(t)
    ensures Sound(Run(t, baselines, txs))
  {
    hide Sound, Commit;
    if txs != [] {
      RunKeepsSound(t, baselines, txs[..|txs| - 1]);
      CommitKeepsSound(Run(t, baselines, txs[..|txs| - 1]), baselines, txs[|txs| - 1]);
    }
  }

  // ----- Signup grants

  /** The signup rows of the ledger are those of the spellings in the run. */
  ghost predicate SignupsAre(ledger: seq<Row>, txs: seq<Tx>) {
    && (forall i | 0 <= i < |ledger| && ledger[i].key.Signup? ::
          exists tx :: tx in txs && Reads(tx, ledger[i].key.org) && tx.spelling == ledger[i].key.spelling)
    && (forall tx | tx in txs && tx.ResolveTx? :: HasKey(ledger, Signup(tx.org, tx.spelling)))
  }

  lemma SignupsInsert(ledger: seq<Row>, row: Row, txs: seq<Tx>)
    requires SignupsAre(ledger, txs) && !row.key.Signup?
    ensures SignupsAre(Insert(ledger, row), txs)
  {
    InsertRows(ledger, row);
    forall tx | tx in txs && tx.ResolveTx? ensures HasKey(Insert(ledger, row), Signup(tx.org, tx.spelling)) {
      StillHeld(ledger, row, Signup(tx.org, tx.spelling));
    }
  }

  lemma StillHeld(ledger: seq<Row>, row: Row, key: Key)
    requires HasKey(ledger, key)
    ensures HasKey(Insert(ledger, row), key)
  {
    var i :| 0 <= i < |ledger| && ledger[i].key == key;
    assert Insert(ledger, row)[i].key == key;
  }

  lemma SignupsGranted(ledger: seq<Row>, tx: Tx, txs: seq<Tx>)
    requires SignupsAre(ledger, txs) && tx.ResolveTx?
    ensures SignupsAre(Insert(ledger, Row(tx.org, tx.grant, Signup(tx.org, tx.spelling))), txs + [tx])
  {
    var row := Row(tx.org, tx.grant, Signup(tx.org, tx.spelling));
    InsertRows(ledger, row);
    assert tx in txs + [tx] && forall other | other in txs :: other in txs + [tx];
    forall other | other in txs && other.ResolveTx? ensures HasKey(Insert(ledger, row), Signup(other.org, other.spelling)) {
      StillHeld(ledger, row, Signup(other.org, other.spelling));
    }
  }

  lemma SignupsUnread(ledger: seq<Row>, tx: Tx, txs: seq<Tx>)
    requires SignupsAre(ledger, txs) && tx.SettleTx?
    ensures SignupsAre(ledger, txs + [tx])
  {
    hide HasKey;
    assert forall other | other in txs :: other in txs + [tx];
  }

  lemma CommitSignups(t: Tables, baselines: map<Org, Micros>, tx: Tx, txs: seq<Tx>)
    requires SignupsAre(t.ledger, txs)
    ensures SignupsAre(Commit(t, baselines, tx).ledger, txs + [tx])
  {
    CommitUnfolds(t, baselines, tx);
    hide SignupsAre, Insert, Commit, MarkBefore;
    match tx
    case SettleTx(org, request, cost) =>
      SignupsInsert(t.ledger, Row(org, -cost, Inference(request)), txs);
      SignupsUnread(Insert(t.ledger, Row(org, -cost, Inference(request))), tx, txs);
    case ResolveTx(org, spelling, grant, reading) =>
      var granted := Insert(t.ledger, Row(org, grant, Signup(org, spelling)));
      SignupsGranted(t.ledger, tx, txs);
      var mark := MarkBefore(t, baselines, org, reading);
      SignupsInsert(granted, Row(org, mark - reading, SandboxDebit(org, spelling, reading)), txs + [tx]);
  }

  lemma NoSignups()
    ensures SignupsAre(EMPTY.ledger, [])
  {
  }

  lemma {:induction false} RunSignups(baselines: map<Org, Micros>, txs: seq<Tx>)
    ensures SignupsAre(Run(EMPTY, baselines, txs).ledger, txs)
  {
    hide SignupsAre, Commit;
    if txs == [] {
      NoSignups();
    } else {
      var init, last := txs[..|txs| - 1], txs[|txs| - 1];
      RunSignups(baselines, init);
      CommitSignups(Run(EMPTY, baselines, init), baselines, last, init);
      assert txs == init + [last];
    }
  }

  ghost predicate OneSpelling(txs: seq<Tx>, org: Org) {
    forall a, b | a in txs && b in txs && Reads(a, org) && Reads(b, org) :: a.spelling == b.spelling
  }

  ghost predicate OneSignup(ledger: seq<Row>, org: Org) {
    forall i, j | 0 <= i < |ledger| && 0 <= j < |ledger| && ledger[i].org == org == ledger[j].org ::
      ledger[i].key.Signup? && ledger[j].key.Signup? ==> i == j
  }

  /** An organization has at most one signup grant exactly if all its requests spell its
      identifier alike. */
  lemma OneSignupGrantExactly(baselines: map<Org, Micros>, txs: seq<Tx>, org: Org)
    ensures OneSignup(Run(EMPTY, baselines, txs).ledger, org) <==> OneSpelling(txs, org)
  {
    EmptyIsSound();
    RunKeepsSound(EMPTY, baselines, txs);
    RunSignups(baselines, txs);
    var ledger := Run(EMPTY, baselines, txs).ledger;
    hide Run, CacheIsLedgerSum, KeysBelowMark;
    if OneSignup(ledger, org) {
      forall a, b | a in txs && b in txs && Reads(a, org) && Reads(b, org) ensures a.spelling == b.spelling {
        var i :| 0 <= i < |ledger| && ledger[i].key == Signup(org, a.spelling);
        var j :| 0 <= j < |ledger| && ledger[j].key == Signup(org, b.spelling);
        assert ledger[i].org == org && ledger[j].org == org;
      }
    }
    if OneSpelling(txs, org) {
      forall i, j | 0 <= i < |ledger| && 0 <= j < |ledger| && ledger[i].org == org == ledger[j].org
                    && ledger[i].key.Signup? && ledger[j].key.Signup?
        ensures i == j
      {
        assert ledger[i].key.org == org && ledger[j].key.org == org;
        assert ledger[i].key == ledger[j].key;
      }
    }
  }

  // ----- Sandbox debits telescope

  predicate Reads(tx: Tx, org: Org) {
    tx.ResolveTx? && tx.org == org
  }

  /** The watermark from which the run charges an organization. */
  function StartMark(t: Tables, baselines: map<Org, Micros>, txs: seq<Tx>, org: Org): Option<Micros> {
    if org in t.billed then Some(t.billed[org])
    else if txs == [] then None
    else
      var earlier := StartMark(t, baselines, txs[..|txs| - 1], org);
      var last := txs[|txs| - 1];
      if earlier.Some? || !Reads(last, org) then earlier else Some(Seed(baselines, org, last.reading))
  }

  /** `peak` is the larger of `start` and the highest reading of the organization. */
  ghost predicate IsPeak(peak: Micros, start: Micros, txs: seq<Tx>, org: Org) {
    && start <= peak
    && (forall i | 0 <= i < |txs| && Reads(txs[i], org) :: txs[i].reading <= peak)
    && (peak == start || exists i :: 0 <= i < |txs| && Reads(txs[i], org) && txs[i].reading == peak)
  }

  lemma PeakStep(peak: Micros, start: Micros, txs: seq<Tx>, org: Org)
    requires txs != [] && IsPeak(peak, start, txs[..|txs| - 1], org)
    ensures var last := txs[|txs| - 1]; IsPeak(if Reads(last, org) then Max(peak, last.reading) else peak, start, txs, org)
  {
    var init := txs[..|txs| - 1];
    forall i | 0 <= i < |init| ensures init[i] == txs[i] {
    }
    if i :| 0 <= i < |init| && Reads(init[i], org) && init[i].reading == peak {
      assert Reads(txs[i], org) && txs[i].reading == peak;
    }
  }

  /** What one transaction does to the sandbox part of any organization. */
  lemma SandboxStep(t: Tables, baselines: map<Org, Micros>, tx: Tx, org: Org)
    requires Sound(t)
    ensures var t' := Commit(t, baselines, tx);
            if Reads(tx, org)
            then org in t'.billed && var mark := MarkBefore(t, baselines, org, tx.reading);
                 t'.billed[org] == Max(mark, tx.reading)
                 && PartTotal(t'.ledger, org, Sandbox) == PartTotal(t.ledger, org, Sandbox) - (t'.billed[org] - mark)
            else (org in t'.billed <==> org in t.billed) && (org in t.billed ==> t'.billed[org] == t.billed[org])
                 && PartTotal(t'.ledger, org, Sandbox) == PartTotal(t.ledger, org, Sandbox)
  {
    hide HasKey, Insert, DistinctKeys, OwnKeys, KeysBelowMark, CacheIsLedgerSum, Total, PartTotal, InsertAll;
    CommitUnfolds(t, baselines, tx);
    var rows := Offered(t, baselines, tx);
    var once := Insert(t.ledger, rows[0]);
    TotalOfInsert(t.ledger, rows[0], org, Sandbox);
    if |rows| == 2 {
      TotalOfInsert(once, rows[1], org, Sandbox);
      SandboxKeyIsNew(t, baselines, tx.org, tx.spelling, tx.reading);
      StillNew(t.ledger, rows[0], rows[1].key);
    }
  }

  lemma StillNew(ledger: seq<Row>, row: Row, key: Key)
    requires !HasKey(ledger, key) && row.key != key
    ensures !HasKey(Insert(ledger, row), key)
  {
  }

  /** Over any run the sandbox debits of an organization sum to the larger of its starting
      mark and the highest reading seen, less the starting mark, however the readings rise
      and fall; and the watermark is that larger value. */
  lemma {:induction false} SandboxTelescopes(t: Tables, baselines: map<Org, Micros>, txs: seq<Tx>, org: Org)
    requires Sound(t)
    ensures var t' := Run(t, baselines, txs);
            var start := StartMark(t, baselines, txs, org);
            (org in t'.billed <==> start.Some?)
            && (start.Some? ==> IsPeak(t'.billed[org], start.value, txs, org))
            && PartTotal(t.ledger, org, Sandbox) - PartTotal(t'.ledger, org, Sandbox) ==
               if start.Some? then t'.billed[org] - start.value else 0
  {
    hide Sound, Commit, PartTotal, IsPeak;
    if txs == [] {
      assert org in t.billed ==> IsPeak(t.billed[org], t.billed[org], txs, org) by { PeakOfNothing(org, 0, txs); }
    } else {
      var init, last := txs[..|txs| - 1], txs[|txs| - 1];
      var mid := Run(t, baselines, init);
      SandboxTelescopes(t, baselines, init, org);
      RunKeepsSound(t, baselines, init);
      SandboxStep(mid, baselines, last, org);
      var start := StartMark(t, baselines, init, org);
      if start.Some? {
        PeakStep(mid.billed[org], start.value, txs, org);
      } else if Reads(last, org) {
        FirstPeak(t, baselines, txs, org);
      }
    }
  }

  lemma PeakOfNothing(org: Org, mark: Micros, txs: seq<Tx>)
    requires txs == []
    ensures forall m :: IsPeak(m, m, txs, org)
  {
  }

  lemma {:induction false} NotStarted(t: Tables, baselines: map<Org, Micros>, txs: seq<Tx>, org: Org)
    requires StartMark(t, baselines, txs, org).None?
    ensures forall i | 0 <= i < |txs| :: !Reads(txs[i], org)
  {
    if txs != [] {
      var init := txs[..|txs| - 1];
      NotStarted(t, baselines, init, org);
      forall i | 0 <= i < |txs| ensures !Reads(txs[i], org) {
        if i < |init| {
          assert txs[i] == init[i];
        }
      }
    }
  }

  lemma FirstPeak(t: Tables, baselines: map<Org, Micros>, txs: seq<Tx>, org: Org)
    requires txs != [] && StartMark(t, baselines, txs[..|txs| - 1], org).None? && Reads(txs[|txs| - 1], org)
    ensures var reading := txs[|txs| - 1].reading;
            IsPeak(Max(Seed(baselines, org, reading), reading), Seed(baselines, org, reading), txs, org)
  {
    var init := txs[..|txs| - 1];
    NotStarted(t, baselines, init, org);
    forall i | 0 <= i < |init| ensures !Reads(txs[i], org) {
      assert txs[i] == init[i];
    }
  }

  // ----- What one transaction means for an organization

  /** The rows and marks of every other organization stay as they were. */
  ghost predicate OthersUncharged(t: Tables, t': Tables, org: Org) {
    forall other, part | other != org ::
      && PartTotal(t'.ledger, other, part) == PartTotal(t.ledger, other, part)
      && (other in t'.billed <==> other in t.billed) && (other in t.billed ==> t'.billed[other] == t.billed[other])
  }

  /** A resolve grants its amount once per spelling. Without a watermark it starts from the
      baseline, or, where there is none, from the reading itself, which charges nothing; it
      charges what the reading exceeds the mark by and never lowers the mark. */
  ghost predicate Resolved(t: Tables, t': Tables, baselines: map<Org, Micros>, org: Org, spelling: string, grant: Micros, reading: Micros) {
    && PartTotal(t'.ledger, org, Granted) == PartTotal(t.ledger, org, Granted) + (if HasKey(t.ledger, Signup(org, spelling)) then 0 else grant)
    && PartTotal(t'.ledger, org, Inferred) == PartTotal(t.ledger, org, Inferred)
    && org in t'.billed
    && (org !in t.billed && org !in baselines ==>
          t'.billed[org] == reading && PartTotal(t'.ledger, org, Sandbox) == PartTotal(t.ledger, org, Sandbox))
    && (org !in t.billed && org in baselines ==> Charged(t, t', org, baselines[org], reading))
    && (org in t.billed ==> Charged(t, t', org, t.billed[org], reading))
    && OthersUncharged(t, t', org)
  }

  ghost predicate Charged(t: Tables, t': Tables, org: Org, mark: Micros, reading: Micros) {
    if mark < reading
    then org in t'.billed && t'.billed[org] == reading
         && PartTotal(t'.ledger, org, Sandbox) == PartTotal(t.ledger, org, Sandbox) - (reading - mark)
    else org in t'.billed && t'.billed[org] == mark && PartTotal(t'.ledger, org, Sandbox) == PartTotal(t.ledger, org, Sandbox)
  }

  /** A settlement charges its cost once per request and nothing else. */
  ghost predicate Settled(t: Tables, t': Tables, org: Org, request: string, cost: Micros) {
    && PartTotal(t'.ledger, org, Inferred) == PartTotal(t.ledger, org, Inferred) - (if HasKey(t.ledger, Inference(request)) then 0 else cost)
    && PartTotal(t'.ledger, org, Granted) == PartTotal(t.ledger, org, Granted)
    && PartTotal(t'.ledger, org, Sandbox) == PartTotal(t.ledger, org, Sandbox)
    && t'.billed == t.billed && OthersUncharged(t, t', org)
  }

  /** How the offered rows change one part of one organization. */
  lemma PartStep(t: Tables, baselines: map<Org, Micros>, tx: Tx, org: Org, part: Part)
    requires Sound(t)
    ensures var t', rows := Commit(t, baselines, tx), Offered(t, baselines, tx);
            PartTotal(t'.ledger, org, part) == PartTotal(t.ledger, org, part)
              + (if !HasKey(t.ledger, rows[0].key) then PartOfRow(rows[0], org, part) else 0)
              + (if |rows| == 2 then PartOfRow(rows[1], org, part) else 0)
  {
    hide HasKey, Insert, DistinctKeys, OwnKeys, KeysBelowMark, CacheIsLedgerSum, Total, PartTotal, InsertAll;
    CommitUnfolds(t, baselines, tx);
    var rows := Offered(t, baselines, tx);
    var once := Insert(t.ledger, rows[0]);
    TotalOfInsert(t.ledger, rows[0], org, part);
    if |rows| == 2 {
      TotalOfInsert(once, rows[1], org, part);
      SandboxKeyIsNew(t, baselines, tx.org, tx.spelling, tx.reading);
      StillNew(t.ledger, rows[0], rows[1].key);
    }
  }

  lemma OthersStep(t: Tables, baselines: map<Org, Micros>, tx: Tx)
    requires Sound(t)
    ensures OthersUncharged(t, Commit(t, baselines, tx), tx.org)
  {
    hide Sound, PartTotal, HasKey, Total, InsertAll;
    forall other, part | other != tx.org
      ensures PartTotal(Commit(t, baselines, tx).ledger, other, part) == PartTotal(t.ledger, other, part)
    {
      PartStep(t, baselines, tx, other, part);
    }
  }

  lemma CommitResolves(t: Tables, baselines: map<Org, Micros>, org: Org, spelling: string, grant: Micros, reading: Micros)
    requires Sound(t)
    ensures Resolved(t, Commit(t, baselines, ResolveTx(org, spelling, grant, reading)), baselines, org, spelling, grant, reading)
  {
    hide Sound, PartTotal, HasKey, Total, InsertAll, OthersUncharged;
    var tx := ResolveTx(org, spelling, grant, reading);
    PartStep(t, baselines, tx, org, Granted);
    PartStep(t, baselines, tx, org, Sandbox);
    PartStep(t, baselines, tx, org, Inferred);
    OthersStep(t, baselines, tx);
  }

  lemma CommitSettles(t: Tables, baselines: map<Org, Micros>, org: Org, request: string, cost: Micros)
    requires Sound(t)
    ensures Settled(t, Commit(t, baselines, SettleTx(org, request, cost)), org, request, cost)
  {
    hide Sound, PartTotal, HasKey, Total, InsertAll, OthersUncharged;
    var tx := SettleTx(org, request, cost);
    PartStep(t, baselines, tx, org, Granted);
    PartStep(t, baselines, tx, org, Sandbox);
    PartStep(t, baselines, tx, org, Inferred);
    OthersStep(t, baselines, tx);
  }

  lemma {:induction false} StartsAtFirst(baselines: map<Org, Micros>, txs: seq<Tx>, org: Org, first: nat)
    requires first < |txs| && Reads(txs[first], org) && forall k | 0 <= k < first :: !Reads(txs[k], org)
    ensures StartMark(EMPTY, baselines, txs, org) == Some(if org in baselines then baselines[org] else txs[first].reading)
  {
    var init := txs[..|txs| - 1];
    if first < |init| {
      StartsAtFirst(baselines, init, org, first);
    } else {
      NeverStarted(baselines, init, org);
    }
  }

  lemma {:induction false} NeverStarted(baselines: map<Org, Micros>, txs: seq<Tx>, org: Org)
    requires forall k | 0 <= k < |txs| :: !Reads(txs[k], org)
    ensures StartMark(EMPTY, baselines, txs, org).None?
  {
    if txs != [] {
      NeverStarted(baselines, txs[..|txs| - 1], org);
    }
  }

  /** Over a whole run an organization without a legacy baseline is charged the highest
      reading less its first one, and one with a baseline what the highest reading exceeds
      the baseline by. */
  lemma SandboxDebitsOfRun(baselines: map<Org, Micros>, txs: seq<Tx>, org: Org, first: nat)
    requires first < |txs| && Reads(txs[first], org) && forall k | 0 <= k < first :: !Reads(txs[k], org)
    ensures var t, start := Run(EMPTY, baselines, txs), if org in baselines then baselines[org] else txs[first].reading;
            org in t.billed && IsPeak(t.billed[org], start, txs, org) && PartTotal(t.ledger, org, Sandbox) == start - t.billed[org]
  {
    hide Run, StartMark, PartTotal, IsPeak;
    EmptyIsSound();
    StartsAtFirst(baselines, txs, org, first);
    SandboxTelescopes(EMPTY, baselines, txs, org);
    assert PartTotal(EMPTY.ledger, org, Sandbox) == 0 by { NothingSpent(org); }
  }

  lemma NothingSpent(org: Org)
    ensures PartTotal(EMPTY.ledger, org, Sandbox) == 0
  {
  }

  // ----- Inference debits depend only on what was settled

  /** The settlements of a run that charge something. */
  ghost function Settlements(txs: seq<Tx>): set<Tx> {
    set i | 0 <= i < |txs| && txs[i].SettleTx? :: txs[i]
  }

  /** Every request identifier goes with one organization and one cost. */
  ghost predicate Consistent(settled: set<Tx>) {
    forall a, b | a in settled && b in settled && a.SettleTx? && b.SettleTx? && a.request == b.request :: a == b
  }

  function RowOf(tx: Tx): Row
    requires tx.SettleTx?
  {
    Row(tx.org, -tx.cost, Inference(tx.request))
  }

  /** The inference rows of the ledger are exactly those of the settlements. */
  ghost predicate RowsAre(ledger: seq<Row>, settled: set<Tx>) {
    && (forall i | 0 <= i < |ledger| && ledger[i].key.Inference? :: exists tx :: tx in settled && tx.SettleTx? && ledger[i] == RowOf(tx))
    && (forall tx | tx in settled && tx.SettleTx? :: RowOf(tx) in ledger)
  }

  lemma RowsStep(t: Tables, baselines: map<Org, Micros>, tx: Tx, settled: set<Tx>)
    requires RowsAre(t.ledger, settled) && (tx.SettleTx? ==> Consistent(settled + {tx}))
    ensures RowsAre(Commit(t, baselines, tx).ledger, if tx.SettleTx? then settled + {tx} else settled)
  {
    hide Insert, Total, InsertAll, RowsAre;
    CommitUnfolds(t, baselines, tx);
    var rows := Offered(t, baselines, tx);
    if tx.SettleTx? {
      RowsInserted(t.ledger, settled, tx);
    } else {
      RowsIgnored(t.ledger, settled, rows[0]);
      if |rows| == 2 {
        RowsIgnored(Insert(t.ledger, rows[0]), settled, rows[1]);
      }
    }
  }

  lemma RowsIgnored(ledger: seq<Row>, settled: set<Tx>, row: Row)
    requires RowsAre(ledger, settled) && !row.key.Inference?
    ensures RowsAre(Insert(ledger, row), settled)
  {
    InsertRows(ledger, row);
    var r := Insert(ledger, row);
    forall tx | tx in settled && tx.SettleTx? ensures RowOf(tx) in r {
      var i :| 0 <= i < |ledger| && ledger[i] == RowOf(tx);
      assert r[..|ledger|][i] == r[i];
    }
  }

  lemma RowsInserted(ledger: seq<Row>, settled: set<Tx>, tx: Tx)
    requires RowsAre(ledger, settled) && tx.SettleTx? && Consistent(settled + {tx})
    ensures RowsAre(Insert(ledger, RowOf(tx)), settled + {tx})
  {
    if HasKey(ledger, RowOf(tx).key) {
      var i :| 0 <= i < |ledger| && ledger[i].key == RowOf(tx).key;
      var other :| other in settled && other.SettleTx? && ledger[i] == RowOf(other);
      assert other == tx;
    }
  }

  lemma {:induction false} RunRows(t: Tables, baselines: map<Org, Micros>, txs: seq<Tx>, settled: set<Tx>)
    requires RowsAre(t.ledger, settled) && Consistent(settled + Settlements(txs))
    ensures RowsAre(Run(t, baselines, txs).ledger, settled + Settlements(txs))
  {
    hide RowsAre, Commit, Consistent;
    if txs == [] {
      assert settled + Settlements(txs) == settled;
    } else {
      var init, last := txs[..|txs| - 1], txs[|txs| - 1];
      SettlementsStep(txs);
      FewerConsistent(settled + Settlements(init), settled + Settlements(txs));
      RunRows(t, baselines, init, settled);
      assert last.SettleTx? ==> settled + Settlements(init) + {last} == settled + Settlements(txs);
      RowsStep(Run(t, baselines, init), baselines, last, settled + Settlements(init));
      assert settled + Settlements(txs) == if last.SettleTx? then settled + Settlements(init) + {last} else settled + Settlements(init);
    }
  }

  lemma FewerConsistent(few: set<Tx>, many: set<Tx>)
    requires few <= many && Consistent(many)
    ensures Consistent(few)
  {
  }

  lemma SettlementsStep(txs: seq<Tx>)
    requires txs != []
    ensures var last := txs[|txs| - 1];
            Settlements(txs) == Settlements(txs[..|txs| - 1]) + if last.SettleTx? then {last} else {}
  {
    var init := txs[..|txs| - 1];
    forall i | 0 <= i < |init| ensures init[i] == txs[i] {
    }
  }

  function PartOfRow(row: Row, org: Org, part: Part): Micros {
    if row.org == org && PartOf(row.key) == part then row.amount else 0
  }

  lemma PartTotalSnoc(ledger: seq<Row>, row: Row, org: Org, part: Part)
    ensures PartTotal(ledger + [row], org, part) == PartTotal(ledger, org, part) + PartOfRow(row, org, part)
  {
    assert (ledger + [row])[..|ledger|] == ledger;
  }

  lemma {:induction false} TotalWithout(ledger: seq<Row>, j: nat, org: Org, part: Part)
    requires j < |ledger|
    ensures PartTotal(ledger, org, part) == PartTotal(ledger[..j] + ledger[j + 1..], org, part) + PartOfRow(ledger[j], org, part)
  {
    hide PartTotal, PartOfRow;
    var n := |ledger| - 1;
    var init, last := ledger[..n], ledger[n];
    assert ledger == init + [last];
    PartTotalSnoc(init, last, org, part);
    if j == n {
      assert ledger[..j] + ledger[j + 1..] == init;
    } else {
      TotalWithout(init, j, org, part);
      RemoveInit(ledger, j);
      PartTotalSnoc(init[..j] + init[j + 1..], last, org, part);
    }
  }

  ghost predicate Relevant(row: Row, org: Org, part: Part) {
    row.org == org && PartOf(row.key) == part
  }

  /** With distinct keys, a part of the balance depends only on the set of its rows. */
  lemma {:induction false} TotalByRows(a: seq<Row>, b: seq<Row>, org: Org, part: Part)
    requires DistinctKeys(a) && DistinctKeys(b)
    requires forall row | Relevant(row, org, part) :: row in a <==> row in b
    ensures PartTotal(a, org, part) == PartTotal(b, org, part)
    decreases |a| + |b|, |b|
  {
    if a == [] && b == [] {
    } else if a == [] {
      TotalByRows(b, a, org, part);
    } else {
      var n := |a| - 1;
      var last, init := a[n], a[..n];
      assert last !in init;
      if !Relevant(last, org, part) {
        assert forall row | Relevant(row, org, part) :: row in a <==> row in init;
        TotalByRows(init, b, org, part);
      } else {
        var j :| 0 <= j < |b| && b[j] == last;
        var rest := b[..j] + b[j + 1..];
        TotalWithout(b, j, org, part);
        WithoutRow(b, j);
        assert forall row | row != last :: row in a <==> row in init;
        TotalByRows(init, rest, org, part);
      }
    }
  }

  lemma WithoutRow(b: seq<Row>, j: nat)
    requires j < |b| && DistinctKeys(b)
    ensures var rest := b[..j] + b[j + 1..];
            DistinctKeys(rest) && b[j] !in rest && forall row | row != b[j] :: row in b <==> row in rest
  {
    var rest := b[..j] + b[j + 1..];
    forall row | row != b[j] && row in b ensures row in rest {
      var k :| 0 <= k < |b| && b[k] == row;
      assert rest[if k < j then k else k - 1] == row;
    }
  }

  lemma EmptyIsSound()
    ensures Sound(EMPTY) && RowsAre(EMPTY.ledger, {})
  {
  }

  /** The inference part of a balance depends only on the set of settled requests and
      costs: neither order, nor retries, nor the other writer's transactions matter. */
  lemma InferenceByRequests(baselines: map<Org, Micros>, xs: seq<Tx>, ys: seq<Tx>, org: Org)
    requires Settlements(xs) == Settlements(ys) && Consistent(Settlements(xs))
    ensures PartTotal(Run(EMPTY, baselines, xs).ledger, org, Inferred) == PartTotal(Run(EMPTY, baselines, ys).ledger, org, Inferred)
  {
    hide Run, PartTotal, Consistent;
    EmptyIsSound();
    assert {} + Settlements(xs) == Settlements(xs) && {} + Settlements(ys) == Settlements(ys);
    RunRows(EMPTY, baselines, xs, {});
    RunRows(EMPTY, baselines, ys, {});
    RunKeepsSound(EMPTY, baselines, xs);
    RunKeepsSound(EMPTY, baselines, ys);
    SameRows(Run(EMPTY, baselines, xs).ledger, Run(EMPTY, baselines, ys).ledger, Settlements(xs), org);
    TotalByRows(Run(EMPTY, baselines, xs).ledger, Run(EMPTY, baselines, ys).ledger, org, Inferred);
  }

  lemma SameRows(a: seq<Row>, b: seq<Row>, settled: set<Tx>, org: Org)
    requires RowsAre(a, settled) && RowsAre(b, settled)
    ensures forall row | Relevant(row, org, Inferred) :: row in a <==> row in b
  {
  }

  // ----- Reused request identifiers

  ghost predicate SameKeys(a: seq<Row>, b: seq<Row>) {
    |a| == |b| && forall i | 0 <= i < |a| :: a[i].key == b[i].key
  }

  /** From ledgers with the same keys, settlements make the same difference. */
  lemma {:induction false} SettleInParallel(t: Tables, u: Tables, baselines: map<Org, Micros>, txs: seq<Tx>, org: Org)
    requires SameKeys(t.ledger, u.ledger) && forall i | 0 <= i < |txs| :: txs[i].SettleTx?
    ensures var t', u' := Run(t, baselines, txs), Run(u, baselines, txs);
            SameKeys(t'.ledger, u'.ledger) &&
            PartTotal(t'.ledger, org, Inferred) - PartTotal(u'.ledger, org, Inferred) ==
            PartTotal(t.ledger, org, Inferred) - PartTotal(u.ledger, org, Inferred)
  {
    hide Commit, PartTotal, Insert, SameKeys, InsertAll;
    if txs != [] {
      var init, last := txs[..|txs| - 1], txs[|txs| - 1];
      SettleInParallel(t, u, baselines, init, org);
      var l, m := Run(t, baselines, init), Run(u, baselines, init);
      CommitUnfolds(l, baselines, last);
      CommitUnfolds(m, baselines, last);
      InsertInParallel(l.ledger, m.ledger, RowOf(last), org);
    }
  }

  lemma InsertInParallel(a: seq<Row>, b: seq<Row>, row: Row, org: Org)
    requires SameKeys(a, b)
    ensures SameKeys(Insert(a, row), Insert(b, row))
    ensures PartTotal(Insert(a, row), org, Inferred) - PartTotal(Insert(b, row), org, Inferred) ==
            PartTotal(a, org, Inferred) - PartTotal(b, org, Inferred)
  {
    hide PartTotal, HasKey;
    SameKeysHeld(a, b, row.key);
    TotalOfInsert(a, row, org, Inferred);
    TotalOfInsert(b, row, org, Inferred);
  }

  lemma SameKeysHeld(a: seq<Row>, b: seq<Row>, key: Key)
    requires SameKeys(a, b)
    ensures HasKey(a, key) <==> HasKey(b, key)
  {
  }

  lemma RunSnoc(t: Tables, baselines: map<Org, Micros>, xs: seq<Tx>, x: Tx)
    ensures Run(t, baselines, xs + [x]) == Commit(Run(t, baselines, xs), baselines, x)
  {
    hide Commit;
    assert (xs + [x])[..|xs|] == xs;
  }

  lemma {:induction false} RunAppend(t: Tables, baselines: map<Org, Micros>, xs: seq<Tx>, ys: seq<Tx>)
    ensures Run(t, baselines, xs + ys) == Run(Run(t, baselines, xs), baselines, ys)
  {
    hide Commit;
    if ys == [] {
      assert xs + ys == xs;
    } else {
      hide Run;
      var init, last := ys[..|ys| - 1], ys[|ys| - 1];
      assert ys == init + [last];
      RunAppend(t, baselines, xs, init);
      RunSnoc(t, baselines, xs + init, last);
      RunSnoc(Run(t, baselines, xs), baselines, init, last);
      Assoc(xs, init, [last]);
    }
  }

  lemma {:induction false} Enumerate(s: set<Tx>) returns (r: seq<Tx>)
    ensures forall tx :: tx in s <==> tx in r
    decreases |s|
  {
    if s == {} {
      r := [];
    } else {
      var x :| x in s;
      var rest := Enumerate(s - {x});
      r := [x] + rest;
    }
  }

  /** The first of two conflicting settlements wins. */
  lemma FirstWins(baselines: map<Org, Micros>, a: Tx, b: Tx)
    requires a.SettleTx? && b.SettleTx? && a.request == b.request
    ensures Run(EMPTY, baselines, [a, b]).ledger == [RowOf(a)]
  {
    hide Commit, Run;
    var one := Commit(EMPTY, baselines, a);
    RunOfTwo(EMPTY, baselines, a, b);
    CommitUnfolds(EMPTY, baselines, a);
    CommitUnfolds(one, baselines, b);
    assert one.ledger[0].key == RowOf(b).key;
  }

  lemma RunOfTwo(t: Tables, baselines: map<Org, Micros>, a: Tx, b: Tx)
    ensures Run(t, baselines, [a, b]) == Commit(Commit(t, baselines, a), baselines, b)
  {
    hide Commit;
    assert [a, b][..1] == [a] && [a][..0] == [];
    assert Run(t, baselines, [a]) == Commit(Run(t, baselines, []), baselines, a);
  }

  /** Settling the same two requests in two orders gives two different balances. */
  lemma ConflictShows(baselines: map<Org, Micros>, settled: set<Tx>, a: Tx, b: Tx) returns (xs: seq<Tx>, ys: seq<Tx>)
    requires forall tx | tx in settled :: tx.SettleTx? && tx.cost > 0
    requires a in settled && b in settled && a != b && a.request == b.request
    ensures Settlements(xs) == settled && Settlements(ys) == settled
    ensures PartTotal(Run(EMPTY, baselines, xs).ledger, a.org, Inferred) != PartTotal(Run(EMPTY, baselines, ys).ledger, a.org, Inferred)
  {
    hide Run, PartTotal;
    var rest := Enumerate(settled);
    xs, ys := [a, b] + rest, [b, a] + rest;
    SettlementsOfOrder(settled, a, b, rest);
    SettlementsOfOrder(settled, b, a, rest);
    FirstWins(baselines, a, b);
    FirstWins(baselines, b, a);
    RunAppend(EMPTY, baselines, [a, b], rest);
    RunAppend(EMPTY, baselines, [b, a], rest);
    SettleInParallel(Run(EMPTY, baselines, [a, b]), Run(EMPTY, baselines, [b, a]), baselines, rest, a.org);
    OneRowTotal(RowOf(a), a.org);
    OneRowTotal(RowOf(b), a.org);
  }

  lemma OneRowTotal(row: Row, org: Org)
    ensures PartTotal([row], org, Inferred) == if row.org == org && row.key.Inference? then row.amount else 0
  {
  }

  lemma SettlementsOfOrder(settled: set<Tx>, a: Tx, b: Tx, rest: seq<Tx>)
    requires a in settled && b in settled && (forall tx | tx in settled :: tx.SettleTx?)
    requires forall tx :: tx in settled <==> tx in rest
    ensures Settlements([a, b] + rest) == settled
  {
    var xs := [a, b] + rest;
    forall tx | tx in settled ensures tx in Settlements(xs) {
      var i :| 0 <= i < |rest| && rest[i] == tx;
      assert xs[i + 2] == tx;
    }
  }

  /** No order of these settlements, however repeated, changes anybody's inference part. */
  ghost predicate OrderIsIrrelevant(baselines: map<Org, Micros>, settled: set<Tx>) {
    forall xs, ys, org | Settlements(xs) == settled && Settlements(ys) == settled ::
      PartTotal(Run(EMPTY, baselines, xs).ledger, org, Inferred) == PartTotal(Run(EMPTY, baselines, ys).ledger, org, Inferred)
  }

  /** The inference part is a function of what was settled exactly when no request
      identifier is used for two organizations or two costs. */
  lemma OrderIsIrrelevantExactly(baselines: map<Org, Micros>, settled: set<Tx>)
    requires forall tx | tx in settled :: tx.SettleTx? && tx.cost > 0
    ensures OrderIsIrrelevant(baselines, settled) <==> Consistent(settled)
  {
    hide Run, PartTotal, Settlements;
    if Consistent(settled) {
      forall xs, ys, org | Settlements(xs) == settled && Settlements(ys) == settled
        ensures PartTotal(Run(EMPTY, baselines, xs).ledger, org, Inferred) == PartTotal(Run(EMPTY, baselines, ys).ledger, org, Inferred)
      {
        InferenceByRequests(baselines, xs, ys, org);
      }
    } else {
      var a, b :| a in settled && b in settled && a.request == b.request && a != b;
      var xs, ys := ConflictShows(baselines, settled, a, b);
    }
  }

  lemma ValidIsSound(t: Tables, baselines: map<Org, Micros>, txs: seq<Tx>)
    requires t == Run(EMPTY, baselines, txs)
    ensures Sound(t)
  {
    EmptyIsSound();
    RunKeepsSound(EMPTY, baselines, txs);
  }

  // ----- The shared tables and the two writers

  /** What becomes of a transaction: some statement fails and it is rolled back, it commits,
      or it commits but the caller is told it failed. */
  datatype Fate = RolledBack | Committed | ReplyLost

  datatype Status = Status(amount: Micros, used: Micros, remaining: Micros)

  class Billing {
    var tables: Tables
    const baselines: map<Org, Micros>
    /** The organization that a text spells, if it is a UUID. */
    const spelled: string -> Option<Org>
    /** The transactions committed so far. */
    ghost var history: seq<Tx>

    constructor (baselines: map<Org, Micros>, spelled: string -> Option<Org>)
      ensures this.baselines == baselines && this.spelled == spelled && tables == EMPTY && history == [] && Valid()
    {
      this.baselines := baselines;
      this.spelled := spelled;
      tables := EMPTY;
      history := [];
    }

    ghost predicate Valid()
      reads this
    {
      tables == Run(EMPTY, baselines, history)
    }

    /** The state after `tx`, which is what the fate says of it. */
    twostate predicate Concluded(tx: Tx, fate: Fate)
      reads this
    {
      if fate.RolledBack? then tables == old(tables) && history == old(history)
      else tables == Commit(old(tables), baselines, tx) && history == old(history) + [tx]
    }

    /** A settlement for names that are filled in and known, and a positive cost, is
        concluded; anything else changes nothing. */
    twostate predicate Debited(spelling: string, request: string, cost: Micros, fate: Fate)
      reads this
    {
      if spelling == "" || request == "" || cost <= 0 || spelled(spelling).None? then tables == old(tables) && history == old(history)
      else
        && Concluded(SettleTx(spelled(spelling).value, request, cost), fate)
        && (!fate.RolledBack? ==> Settled(old(tables), tables, spelled(spelling).value, request, cost))
    }

    method InsertRow(ledger: seq<Row>, row: Row) returns (r: seq<Row>)
      ensures r == Insert(ledger, row)
    {
      r := ledger;
      for i := 0 to |ledger|
        invariant forall k | 0 <= k < i :: ledger[k].key != row.key
      {
        if ledger[i].key == row.key {
          return;
        }
      }
      r := ledger + [row];
    }

    method SumLedger(ledger: seq<Row>, org: Org, grantsOnly: bool) returns (sum: Micros)
      ensures sum == if grantsOnly then PartTotal(ledger, org, Granted) else Total(ledger, org)
    {
      sum := 0;
      for i := 0 to |ledger|
        invariant sum == if grantsOnly then PartTotal(ledger[..i], org, Granted) else Total(ledger[..i], org)
      {
        assert ledger[..i + 1][..i] == ledger[..i];
        if ledger[i].org == org && (!grantsOnly || ledger[i].key.Signup?) {
          sum := sum + ledger[i].amount;
        }
      }
      assert ledger[..|ledger|] == ledger;
    }

    lemma HistoryGrows(before: Tables, tx: Tx)
      requires before == Run(EMPTY, baselines, history)
      ensures Commit(before, baselines, tx) == Run(EMPTY, baselines, history + [tx])
    {
      assert (history + [tx])[..|history|] == history;
    }

    /** Grants the signup credit once, debits the sandbox cost since the watermark, and
        reports what is left. */
    method Resolve(spelling: string, grant: Micros, reading: Micros, held: Micros, fate: Fate) returns (r: Option<Status>)
      requires Valid()
      modifies this
      ensures Valid()
      ensures if grant <= 0 || spelled(spelling).None? then r.None? && tables == old(tables) && history == old(history)
              else Concluded(ResolveTx(spelled(spelling).value, spelling, grant, reading), fate) && (r.Some? <==> fate.Committed?)
      ensures grant > 0 && spelled(spelling).Some? && !fate.RolledBack? ==>
                Resolved(old(tables), tables, baselines, spelled(spelling).value, spelling, grant, reading)
      ensures r.Some? ==>
                var org := spelled(spelling).value;
                && r.value.remaining == PartTotal(tables.ledger, org, Granted) + PartTotal(tables.ledger, org, Sandbox)
                                        + PartTotal(tables.ledger, org, Inferred) - held
                && r.value.amount == PartTotal(tables.ledger, org, Granted)
                && r.value.used == if r.value.remaining < r.value.amount then r.value.amount - r.value.remaining else 0
    {
      hide Insert, InsertAll, Total, PartTotal, Run, Resolved, Sound, HasKey;
      r := None;
      if grant <= 0 || spelled(spelling).None? {
        return;
      }
      var org := spelled(spelling).value;
      ghost var before := tables;
      var ledger := InsertRow(tables.ledger, Row(org, grant, Signup(org, spelling)));
      var billed := if org in tables.billed then tables.billed[org]
                    else if org in baselines then baselines[org] else reading;
      var marks := tables.billed[org := billed];
      var delta := reading - billed;
      if delta > 0 {
        ledger := InsertRow(ledger, Row(org, -delta, SandboxDebit(org, spelling, reading)));
        marks := marks[org := reading];
      }
      var granted := SumLedger(ledger, org, true);
      var balance := SumLedger(ledger, org, false);
      if fate.RolledBack? {
        return;
      }
      CommitUnfolds(before, baselines, ResolveTx(org, spelling, grant, reading));
      TotalIsSumOfParts(ledger, org);
      ValidIsSound(before, baselines, history);
      CommitResolves(before, baselines, org, spelling, grant, reading);
      HistoryGrows(before, ResolveTx(org, spelling, grant, reading));
      tables := Tables(ledger, marks, tables.balances[org := balance]);
      history := history + [ResolveTx(org, spelling, grant, reading)];
      assert tables == Commit(before, baselines, ResolveTx(org, spelling, grant, reading));
      if fate.Committed? {
        var available := balance - held;
        r := Some(Status(granted, Max(0, granted - available), available));
      }
    }

    /** Charges one inference request, at most once per request identifier. */
    method DebitInference(organization: Org, requestId: string, cost: Micros, fate: Fate) returns (ok: bool)
      requires Valid()
      modifies this
      ensures Valid()
      ensures Debited(Trim(organization), Trim(requestId), cost, fate)
      ensures var spelling := Trim(organization);
              ok <==> spelling != "" && Trim(requestId) != "" && (cost <= 0 || (spelled(spelling).Some? && fate.Committed?))
    {
      hide Insert, InsertAll, Total, PartTotal, Run, Trim, Settled, Sound, HasKey;
      var spelling, request := Trim(organization), Trim(requestId);
      if spelling == "" || request == "" {
        return false;
      }
      if cost <= 0 {
        return true;
      }
      if spelled(spelling).None? {
        return false;
      }
      var org := spelled(spelling).value;
      ghost var before := tables;
      var ledger := InsertRow(tables.ledger, Row(org, -cost, Inference(request)));
      var balance := SumLedger(ledger, org, false);
      if fate.RolledBack? {
        return false;
      }
      CommitUnfolds(before, baselines, SettleTx(org, request, cost));
      ValidIsSound(before, baselines, history);
      CommitSettles(before, baselines, org, request, cost);
      HistoryGrows(before, SettleTx(org, request, cost));
      tables := tables.(ledger := ledger, balances := tables.balances[org := balance]);
      history := history + [SettleTx(org, request, cost)];
      assert tables == Commit(before, baselines, SettleTx(org, request, cost));
      ok := fate.Committed?;
    }
  }

  // ----- Whole histories of requests

  datatype Request =
    | Gate(spelling: string, grant: Micros, reading: Micros, held: Micros, fate: Fate)
    | Settle(spelling: string, request: string, cost: Micros, fate: Fate)

  /** The sandbox debits of `org` over the run `txs` that ended in `t`. */
  ghost predicate Telescoped(t: Tables, baselines: map<Org, Micros>, txs: seq<Tx>, org: Org) {
    match StartMark(EMPTY, baselines, txs, org)
    case None => org !in t.billed && PartTotal(t.ledger, org, Sandbox) == 0
    case Some(start) => org in t.billed && IsPeak(t.billed[org], start, txs, org)
                        && PartTotal(t.ledger, org, Sandbox) == start - t.billed[org]
  }

  /** Any interleaving of both writers, with rollbacks and lost replies anywhere: the cached
      balances are the ledger sums, and each organization's sandbox debits telescope. */
  method Serve(b: Billing, requests: seq<Request>)
    requires b.Valid()
    modifies b
    ensures b.Valid() && Sound(b.tables)
    ensures forall org :: Telescoped(b.tables, b.baselines, b.history, org)
  {
    for i := 0 to |requests|
      invariant b.Valid()
    {
      ServeOne(b, requests[i]);
    }
    HistoryIsSound(b.tables, b.baselines, b.history);
  }

  method ServeOne(b: Billing, request: Request)
    requires b.Valid()
    modifies b
    ensures b.Valid()
  {
    hide Run, Commit;
    match request
    case Gate(spelling, grant, reading, held, fate) => var _ := b.Resolve(spelling, grant, reading, held, fate);
    case Settle(spelling, id, cost, fate) => var _ := b.DebitInference(spelling, id, cost, fate);
  }

  lemma HistoryIsSound(t: Tables, baselines: map<Org, Micros>, txs: seq<Tx>)
    requires t == Run(EMPTY, baselines, txs)
    ensures Sound(t) && forall org :: Telescoped(t, baselines, txs, org)
  {
    hide Run, Sound, StartMark, IsPeak;
    EmptyIsSound();
    RunKeepsSound(EMPTY, baselines, txs);
    forall org ensures Telescoped(t, baselines, txs, org) {
      SandboxTelescopes(EMPTY, baselines, txs, org);
    }
  }
}
