/**
 * Settlements racing each other and the rest of the ledger: `createSettlement` reads the unsettled rows first and
 * stamps them by id later, with any number of other reads, writes and new rows in between.
 */
module SettlementRacing {
  import opened Domain
  import opened Rules
  import opened Settlements

  /** What a request has read and is about to settle. */
  datatype Read = Read(provider: Id, ids: set<Id>, total: int)

  datatype Books = Books(s: State, held: map<nat, Read>)

  datatype Op = ReadUnsettled(thread: nat, provider: Id) | WriteSettlement(thread: nat) | Post(row: Transaction)

  function Do(b: Books, op: Op): Books {
    match op
    case ReadUnsettled(t, provider) =>
      var ids, total := UnsettledIds(b.s.ledger, provider), SumUnsettled(b.s.ledger, provider);
      if ids == {} || total <= 0 then b.(held := b.held - {t})
      else b.(held := b.held[t := Read(provider, ids, total)])
    case WriteSettlement(t) =>
      if t !in b.held then b
      else
        var r := b.held[t];
        Books(SettleRead(b.s, r.provider, r.ids, r.total), b.held - {t})
    case Post(row) => if NewRow(row) then b.(s := b.s.(ledger := b.s.ledger + [row])) else b
  }

  function Schedule(b: Books, ops: seq<Op>): Books {
    if ops == [] then b else Do(Schedule(b, ops[..|ops| - 1]), ops[|ops| - 1])
  }

  /** A read names credits of its provider, and its total is what they add up to. */
  ghost predicate ReadOk(ledger: seq<Transaction>, r: Read) {
    && (forall i :: i in r.ids ==> i < |ledger| && IsCredit(ledger[i]) && ledger[i].provider == Some(r.provider))
    && r.total == SumOn(ledger, r.ids)
  }

  ghost predicate ReadsOk(b: Books) {
    forall t :: t in b.held ==> ReadOk(b.s.ledger, b.held[t])
  }

  lemma {:induction false} ReadSum(ledger: seq<Transaction>, provider: Id, ids: set<Id>)
    requires forall i :: 0 <= i < |ledger| ==> (i in ids <==> IsUnsettled(ledger[i], provider))
    ensures SumOn(ledger, ids) == SumUnsettled(ledger, provider)
  {
    if ledger == [] {
    } else {
      ReadSum(ledger[..|ledger| - 1], provider, ids);
    }
  }

  /** Stamps and new rows leave the sum of rows read earlier as it was. */
  lemma {:induction false} SumStays(ledger: seq<Transaction>, ledger': seq<Transaction>, ids: set<Id>)
    requires |ledger| <= |ledger'| && forall i :: 0 <= i < |ledger| ==> ledger'[i].amount == ledger[i].amount
    requires forall i :: i in ids ==> i < |ledger|
    ensures SumOn(ledger', ids) == SumOn(ledger, ids)
    decreases |ledger'|
  {
    if |ledger'| == 0 {
    } else if |ledger| < |ledger'| {
      SumStays(ledger, ledger'[..|ledger'| - 1], ids);
    } else {
      OnlyBelow(ledger, ids);
      OnlyBelow(ledger', ids);
      SumStays(ledger[..|ledger| - 1], ledger'[..|ledger'| - 1], ids - {|ledger| - 1});
    }
  }

  lemma {:induction false} OnlyBelow(ledger: seq<Transaction>, ids: set<Id>)
    requires ledger != []
    ensures var n := |ledger| - 1;
            SumOn(ledger, ids) == SumOn(ledger[..n], ids - {n}) + if n in ids then ledger[n].amount else 0
  {
    SumIgnores(ledger[..|ledger| - 1], ids, |ledger| - 1);
  }

  lemma {:induction false} SumIgnores(ledger: seq<Transaction>, ids: set<Id>, n: Id)
    requires |ledger| <= n
    ensures SumOn(ledger, ids) == SumOn(ledger, ids - {n})
  {
    if ledger == [] {
    } else {
      SumIgnores(ledger[..|ledger| - 1], ids, n);
    }
  }

  lemma ReadOkStays(ledger: seq<Transaction>, ledger': seq<Transaction>, r: Read)
    requires ReadOk(ledger, r) && |ledger| <= |ledger'|
    requires forall i :: 0 <= i < |ledger| ==> ledger'[i] == ledger[i].(settlement := ledger'[i].settlement)
    ensures ReadOk(ledger', r)
  {
    SumStays(ledger, ledger', r.ids);
  }

  lemma DoReadsOk(b: Books, op: Op)
    requires ReadsOk(b)
    ensures ReadsOk(Do(b, op))
  {
    var b' := Do(b, op);
    forall t | t in b'.held ensures ReadOk(b'.s.ledger, b'.held[t]) {
      if op.ReadUnsettled? && t == op.thread {
        ReadSum(b.s.ledger, op.provider, UnsettledIds(b.s.ledger, op.provider));
      } else {
        assert ReadOk(b.s.ledger, b.held[t]);
        ReadOkStays(b.s.ledger, b'.s.ledger, b.held[t]);
      }
    }
  }

  lemma {:induction false} ScheduleReadsOk(b: Books, ops: seq<Op>)
    requires ReadsOk(b)
    ensures ReadsOk(Schedule(b, ops))
  {
    if ops == [] {
    } else {
      ScheduleReadsOk(b, ops[..|ops| - 1]);
      DoReadsOk(Schedule(b, ops[..|ops| - 1]), ops[|ops| - 1]);
    }
  }

  /** If the operation writes a settlement, its rows are all still unsettled. */
  predicate WritesFresh(b: Books, op: Op) {
    op.WriteSettlement? && op.thread in b.held ==>
      forall i :: i in b.held[op.thread].ids && i < |b.s.ledger| ==> b.s.ledger[i].settlement.None?
  }

  lemma PostPartitions(s: State, row: Transaction)
    requires Partitioned(s) && NewRow(row)
    ensures Partitioned(s.(ledger := s.ledger + [row]))
  {
    var ledger' := s.ledger + [row];
    forall i | 0 <= i < |ledger'| ensures RowOk(ledger'[i], s.settlements) {
      if i < |s.ledger| { assert RowOk(s.ledger[i], s.settlements); }
    }
    forall k | 0 <= k < |s.settlements| ensures s.settlements[k].total == StampedSum(ledger', k) {
      SumsGrow(s.ledger, ledger', k);
    }
  }

  /** One operation keeps totals and rows together exactly when it settles only what is still unsettled. */
  lemma DoPartitionsIff(b: Books, op: Op)
    requires Partitioned(b.s) && ReadsOk(b)
    ensures Partitioned(Do(b, op).s) <==> WritesFresh(b, op)
  {
    if op.WriteSettlement? && op.thread in b.held {
      var r := b.held[op.thread];
      assert ReadOk(b.s.ledger, r);
      StaleSettleIff(b.s, r.provider, r.ids);
    } else if op.Post? && NewRow(op.row) {
      PostPartitions(b.s, op.row);
    }
  }

  /**
   * Under any interleaving of settling requests and new rows, every settlement's total is the sum of its rows all
   * along exactly when every write finds the rows it read still unsettled.
   */
  lemma {:induction false} SchedulePartitionsIff(b: Books, ops: seq<Op>)
    requires Partitioned(b.s) && ReadsOk(b)
    ensures (forall k :: 0 <= k <= |ops| ==> Partitioned(Schedule(b, ops[..k]).s))
       <==> (forall k :: 0 <= k < |ops| ==> WritesFresh(Schedule(b, ops[..k]), ops[k]))
  {
    if forall k :: 0 <= k <= |ops| ==> Partitioned(Schedule(b, ops[..k]).s) {
      forall k | 0 <= k < |ops| ensures WritesFresh(Schedule(b, ops[..k]), ops[k]) {
        assert Partitioned(Schedule(b, ops[..k]).s) && Partitioned(Schedule(b, ops[..k + 1]).s);
        ScheduleReadsOk(b, ops[..k]);
        assert ops[..k + 1][..k] == ops[..k];
        DoPartitionsIff(Schedule(b, ops[..k]), ops[k]);
      }
    }
    if forall k :: 0 <= k < |ops| ==> WritesFresh(Schedule(b, ops[..k]), ops[k]) {
      forall k | 0 <= k <= |ops| ensures Partitioned(Schedule(b, ops[..k]).s) {
        PartitionedWhileFresh(b, ops, k);
      }
    }
  }

  lemma {:induction false} PartitionedWhileFresh(b: Books, ops: seq<Op>, k: nat)
    requires Partitioned(b.s) && ReadsOk(b) && k <= |ops|
    requires forall j :: 0 <= j < k ==> WritesFresh(Schedule(b, ops[..j]), ops[j])
    ensures Partitioned(Schedule(b, ops[..k]).s)
  {
    if k == 0 {
      assert ops[..0] == [];
    } else {
      PartitionedWhileFresh(b, ops, k - 1);
      ScheduleReadsOk(b, ops[..k - 1]);
      assert ops[..k][..k - 1] == ops[..k - 1];
      DoPartitionsIff(Schedule(b, ops[..k - 1]), ops[k - 1]);
    }
  }

  lemma {:induction false} SomethingOwed(s: State, provider: Id)
    ensures SettleOutcome(s, CreateSettlement(provider)).Done?
       <==> UnsettledIds(s.ledger, provider) != {} && SumUnsettled(s.ledger, provider) > 0
  {
    if i :| 0 <= i < |s.ledger| && IsUnsettled(s.ledger[i], provider) {
      assert i in UnsettledIds(s.ledger, provider);
    } else {
      assert UnsettledIds(s.ledger, provider) == {};
    }
  }

  lemma {:induction false} ReadThenWrite(b: Books, t: nat, provider: Id)
    requires UnsettledIds(b.s.ledger, provider) != {} && SumUnsettled(b.s.ledger, provider) > 0
    ensures Do(Do(b, ReadUnsettled(t, provider)), WriteSettlement(t)).s
         == SettleRead(b.s, provider, UnsettledIds(b.s.ledger, provider), SumUnsettled(b.s.ledger, provider))
  {
  }

  lemma SettlingNext(env: Env, s: State, provider: Id)
    ensures var o := SettleOutcome(s, CreateSettlement(provider));
            Next(env, s, CreateSettlement(provider)) == if o.Done? then o.state else s
  {
  }

  /** Undisturbed, reading and writing is the atomic action. */
  lemma UndisturbedIsStep(env: Env, b: Books, t: nat, provider: Id)
    ensures Do(Do(b, ReadUnsettled(t, provider)), WriteSettlement(t)).s == Next(env, b.s, CreateSettlement(provider))
  {
    SomethingOwed(b.s, provider);
    SettlingNext(env, b.s, provider);
    if SettleOutcome(b.s, CreateSettlement(provider)).Done? {
      SettleAtOnce(b.s, CreateSettlement(provider));
      ReadThenWrite(b, t, provider);
    }
  }
}
