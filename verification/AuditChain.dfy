/** The hash-chained administrator audit (database/admin-audit-chain.sql): the append trigger,
    the transactions around it, the backfill of older rows, and what equal heads prove. SHA-256
    and the canonical JSON text are parameters; nothing is assumed of the digest but its length. */
module AuditChain {
  import opened Options

  /** The columns of an audit row before the trigger fills in the rest; an empty string stands
      for an omitted value. */
  datatype Fields = Fields(id: string, action: string, commandId: string, phase: string, requestId: string, other: string)

  datatype Row = Row(fields: Fields, sequence: nat, previousHash: string, payload: string, eventHash: string)

  /** The table in order of sequence, and the head row. */
  datatype Chain = Chain(rows: seq<Row>, lastSequence: nat, lastHash: string)

  /** The digest in hexadecimal and the text of `jsonb_build_object`. */
  datatype Platform = Platform(sha256: string -> string, canonical: Fields -> string)

  ghost predicate Sixty4(p: Platform) { forall s :: |p.sha256(s)| == 64 }

  function Zeros(n: nat): (s: string)
    ensures |s| == n
  {
    seq(n, _ => '0')
  }

  const GENESIS: string := Zeros(64)
  const EmptyChain := Chain([], 0, GENESIS)

  /** Every chain starts from sixty-four zeros. */
  lemma GenesisIs()
    ensures |GENESIS| == 64 && forall i | 0 <= i < 64 :: GENESIS[i] == '0'
  {}

  // ----- The trigger -----

  function Default(value: string, otherwise: string): string { if value == "" then otherwise else value }

  function Filled(f: Fields): Fields {
    f.(commandId := Default(f.commandId, f.id), phase := Default(f.phase, "event"), requestId := Default(f.requestId, f.id))
  }

  function NextRow(p: Platform, chain: Chain, f: Fields): Row {
    var filled := Filled(f);
    var payload := p.canonical(filled);
    Row(filled, chain.lastSequence + 1, chain.lastHash, payload, p.sha256(chain.lastHash + payload))
  }

  function Append(p: Platform, chain: Chain, f: Fields): Chain {
    var row := NextRow(p, chain, f);
    Chain(chain.rows + [row], row.sequence, row.eventHash)
  }

  /** Primary key, event hash, and one row per command and phase except plain events. */
  predicate Insertable(p: Platform, chain: Chain, f: Fields) {
    var row := NextRow(p, chain, f);
    forall i | 0 <= i < |chain.rows| ::
      && chain.rows[i].fields.id != row.fields.id
      && chain.rows[i].eventHash != row.eventHash
      && (row.fields.phase != "event" ==>
            !(chain.rows[i].fields.commandId == row.fields.commandId && chain.rows[i].fields.phase == row.fields.phase))
  }

  /** The row has the caller's columns; its command, phase and request are the caller's, or the id,
      `event` and the id when they are omitted. */
  predicate Carries(row: Row, f: Fields) {
    && row.fields.id == f.id && row.fields.action == f.action && row.fields.other == f.other
    && row.fields.commandId == (if f.commandId == "" then f.id else f.commandId)
    && row.fields.phase == (if f.phase == "" then "event" else f.phase)
    && row.fields.requestId == (if f.requestId == "" then f.id else f.requestId)
  }

  predicate IsEvent(row: Row, command: string, phase: string) {
    row.fields.commandId == command && row.fields.phase == phase
  }

  lemma FilledCarries(p: Platform, chain: Chain, f: Fields)
    ensures Carries(NextRow(p, chain, f), f)
  {}

  /** What the indexes refuse, in terms of what the caller gave: an id or a hash that is there
      already, or a second event of the same command and phase, unless the phase is `event`. */
  lemma InsertableIff(p: Platform, chain: Chain, f: Fields)
    ensures Insertable(p, chain, f) <==>
            && (forall i | 0 <= i < |chain.rows| :: chain.rows[i].fields.id != f.id)
            && (forall i | 0 <= i < |chain.rows| :: chain.rows[i].eventHash != NextRow(p, chain, f).eventHash)
            && (f.phase != "" && f.phase != "event" ==>
                  forall i | 0 <= i < |chain.rows| ::
                    !IsEvent(chain.rows[i], if f.commandId == "" then f.id else f.commandId, f.phase))
  {}

  /** The table and its head row, as the trigger updates them. */
  class AuditTable {
    var rows: seq<Row>
    var lastSequence: nat
    var lastHash: string

    function Value(): Chain
      reads this
    {
      Chain(rows, lastSequence, lastHash)
    }

    constructor ()
      ensures Value() == EmptyChain
    {
      rows, lastSequence, lastHash := [], 0, GENESIS;
    }

    method InsertEvent(p: Platform, f: Fields) returns (inserted: bool)
      modifies this
      ensures inserted <==> Insertable(p, old(Value()), f)
      ensures Value() == if inserted then Append(p, old(Value()), f) else old(Value())
      ensures inserted ==>
                && |rows| == |old(rows)| + 1 && rows[..|old(rows)|] == old(rows) && Carries(rows[|old(rows)|], f)
                && rows[|old(rows)|].sequence == old(lastSequence) + 1 && rows[|old(rows)|].previousHash == old(lastHash)
                && lastSequence == old(lastSequence) + 1 && lastHash == rows[|old(rows)|].eventHash
    {
      var filled := f;
      if filled.commandId == "" { filled := filled.(commandId := filled.id); }
      if filled.phase == "" { filled := filled.(phase := "event"); }
      if filled.requestId == "" { filled := filled.(requestId := filled.id); }
      var payload := p.canonical(filled);
      var row := Row(filled, lastSequence + 1, lastHash, payload, p.sha256(lastHash + payload));
      assert row == NextRow(p, Value(), f);
      if !Insertable(p, Chain(rows, lastSequence, lastHash), f) { return false; }
      FilledCarries(p, Chain(rows, lastSequence, lastHash), f);
      lastSequence, lastHash := row.sequence, row.eventHash;
      rows := rows + [row];
      inserted := true;
    }
  }

  // ----- Valid chains -----

  function HashBefore(rows: seq<Row>, i: nat): string
    requires i <= |rows|
  {
    if i == 0 then GENESIS else rows[i - 1].eventHash
  }

  /** Row `i` is numbered `i + 1`, carries the hash before it, and hashes that and its payload. */
  predicate Linked(p: Platform, rows: seq<Row>, i: nat)
    requires i < |rows|
  {
    && rows[i].sequence == i + 1
    && rows[i].previousHash == HashBefore(rows, i)
    && rows[i].payload == p.canonical(rows[i].fields)
    && rows[i].eventHash == p.sha256(rows[i].previousHash + rows[i].payload)
  }

  predicate ValidChain(p: Platform, chain: Chain) {
    && (forall i | 0 <= i < |chain.rows| :: Linked(p, chain.rows, i))
    && chain.lastSequence == |chain.rows| && chain.lastHash == HashBefore(chain.rows, |chain.rows|)
  }

  predicate OncePerPhase(rows: seq<Row>) {
    forall i, j | 0 <= i < j < |rows| && rows[j].fields.phase != "event" ::
      !(rows[i].fields.commandId == rows[j].fields.commandId && rows[i].fields.phase == rows[j].fields.phase)
  }

  lemma AppendKeepsValid(p: Platform, chain: Chain, f: Fields)
    requires ValidChain(p, chain)
    ensures ValidChain(p, Append(p, chain, f))
  {
    var rows' := Append(p, chain, f).rows;
    forall i | 0 <= i < |rows'| ensures Linked(p, rows', i) {
      if i < |chain.rows| { assert Linked(p, chain.rows, i); }
    }
  }

  // ----- Transactions -----

  /** At most one transaction is past its first insert: the advisory lock and the locked head row
      are held until it commits or aborts. `working` is what that transaction sees. */
  datatype Database = Database(committed: Chain, owner: Option<nat>, working: Chain)

  const NewDatabase := Database(EmptyChain, None, EmptyChain)

  datatype Step =
    | InsertStep(tx: nat, f: Fields)
    | RaiseStep(tx: nat)
    | CommitStep(tx: nat)
    | AbortStep(tx: nat)

  predicate Enabled(p: Platform, d: Database, step: Step) {
    match step
    case InsertStep(tx, f) => (d.owner == None || d.owner == Some(tx)) && Insertable(p, d.working, f)
    case RaiseStep(tx) => d.owner == None || d.owner == Some(tx)
    case CommitStep(tx) => d.owner == Some(tx)
    case AbortStep(tx) => d.owner == Some(tx)
  }

  function Apply(p: Platform, d: Database, step: Step): Database {
    match step
    case InsertStep(tx, f) => d.(owner := Some(tx), working := Append(p, d.working, f))
    // A constraint violation, or an attempt to update, delete or truncate: the transaction is over.
    case RaiseStep(tx) => d.(owner := None, working := d.committed)
    case CommitStep(tx) => Database(d.working, None, d.working)
    case AbortStep(tx) => d.(owner := None, working := d.committed)
  }

  predicate ValidRun(p: Platform, d: Database, steps: seq<Step>)
    decreases |steps|
  {
    steps == [] || (Enabled(p, d, steps[0]) && ValidRun(p, Apply(p, d, steps[0]), steps[1..]))
  }

  function Run(p: Platform, d: Database, steps: seq<Step>): Database
    decreases |steps|
  {
    if steps == [] then d else Run(p, Apply(p, d, steps[0]), steps[1..])
  }

  ghost predicate Inv(p: Platform, d: Database) {
    && ValidChain(p, d.committed) && ValidChain(p, d.working)
    && OncePerPhase(d.committed.rows) && OncePerPhase(d.working.rows)
    && d.committed.rows <= d.working.rows
    && (d.owner == None ==> d.working == d.committed)
  }

  lemma StepKeepsInv(p: Platform, d: Database, step: Step)
    requires Inv(p, d) && Enabled(p, d, step)
    ensures Inv(p, Apply(p, d, step))
    ensures d.committed.rows <= Apply(p, d, step).committed.rows
  {
    if step.InsertStep? { AppendKeepsValid(p, d.working, step.f); }
  }

  lemma {:induction false} RunKeepsInv(p: Platform, d: Database, steps: seq<Step>)
    requires Inv(p, d) && ValidRun(p, d, steps)
    ensures Inv(p, Run(p, d, steps))
    ensures d.committed.rows <= Run(p, d, steps).committed.rows
    decreases |steps|
  {
    if steps != [] {
      StepKeepsInv(p, d, steps[0]);
      RunKeepsInv(p, Apply(p, d, steps[0]), steps[1..]);
    }
  }

  /** After any mix of committed and aborted appends the committed chain has the sequences
      1 .. n, every link is the previous hash, the head is the last row, a command has one row
      per phase; and what was committed at any earlier point is still there, unchanged. */
  lemma ChainAfterEveryRun(p: Platform, before: seq<Step>, after: seq<Step>)
    requires ValidRun(p, NewDatabase, before) && ValidRun(p, Run(p, NewDatabase, before), after)
    ensures var d := Run(p, Run(p, NewDatabase, before), after);
            && ValidChain(p, d.committed) && OncePerPhase(d.committed.rows)
            && Run(p, NewDatabase, before).committed.rows <= d.committed.rows
  {
    RunKeepsInv(p, NewDatabase, before);
    RunKeepsInv(p, Run(p, NewDatabase, before), after);
  }

  // ----- What was committed, told from the steps alone -----

  /** The inserts of committed transactions, in order; `open` are those of the transaction under
      way, which a commit keeps and an error or an abort drops. */
  function Committed(open: seq<Fields>, steps: seq<Step>): seq<Fields>
    decreases |steps|
  {
    if steps == [] then []
    else match steps[0]
      case InsertStep(_, f) => Committed(open + [f], steps[1..])
      case RaiseStep(_) => Committed([], steps[1..])
      case CommitStep(_) => open + Committed([], steps[1..])
      case AbortStep(_) => Committed([], steps[1..])
  }

  /** Row by row what the callers gave. */
  predicate Records(rows: seq<Row>, fs: seq<Fields>) {
    |rows| == |fs| && forall i | 0 <= i < |rows| :: Carries(rows[i], fs[i])
  }

  lemma RecordsAppend(p: Platform, chain: Chain, fs: seq<Fields>, f: Fields)
    requires Records(chain.rows, fs)
    ensures Records(Append(p, chain, f).rows, fs + [f])
  {
    FilledCarries(p, chain, f);
  }

  lemma {:induction false} RunRecords(p: Platform, d: Database, steps: seq<Step>, done: seq<Fields>, open: seq<Fields>)
    requires ValidRun(p, d, steps)
    requires Records(d.committed.rows, done) && Records(d.working.rows, done + open) && (d.owner == None ==> open == [])
    ensures Records(Run(p, d, steps).committed.rows, done + Committed(open, steps))
    decreases |steps|
  {
    if steps == [] {
      assert done + [] == done;
    } else {
      var next := Apply(p, d, steps[0]);
      match steps[0] {
        case InsertStep(tx, f) =>
          RecordsAppend(p, d.working, done + open, f);
          assert done + open + [f] == done + (open + [f]);
          RunRecords(p, next, steps[1..], done, open + [f]);
        case CommitStep(tx) =>
          assert done + open + [] == done + open;
          RunRecords(p, next, steps[1..], done + open, []);
          assert done + open + Committed([], steps[1..]) == done + (open + Committed([], steps[1..]));
        case RaiseStep(tx) =>
          assert done + [] == done;
          RunRecords(p, next, steps[1..], done, []);
        case AbortStep(tx) =>
          assert done + [] == done;
          RunRecords(p, next, steps[1..], done, []);
      }
    }
  }

  /** In every run the committed rows are, in order, the inserts of the committed transactions and no
      others, each with what its caller gave. */
  lemma CommittedRowsAreInserts(p: Platform, steps: seq<Step>)
    requires ValidRun(p, NewDatabase, steps)
    ensures Records(Run(p, NewDatabase, steps).committed.rows, Committed([], steps))
  {
    RunRecords(p, NewDatabase, steps, [], []);
    assert [] + Committed([], steps) == Committed([], steps);
  }

  // ----- Equal heads -----

  function Payloads(rows: seq<Row>): (ps: seq<string>)
    ensures |ps| == |rows|
  {
    seq(|rows|, i requires 0 <= i < |rows| => rows[i].payload)
  }

  function Shortened(chain: Chain): Chain
    requires chain.rows != []
  {
    var n := |chain.rows| - 1;
    Chain(chain.rows[..n], n, HashBefore(chain.rows, n))
  }

  lemma ShortenedIsValid(p: Platform, chain: Chain)
    requires ValidChain(p, chain) && chain.rows != []
    ensures ValidChain(p, Shortened(chain))
  {
    var rows := chain.rows[..|chain.rows| - 1];
    forall i | 0 <= i < |rows| ensures Linked(p, rows, i) { assert Linked(p, chain.rows, i); }
  }

  /** Two valid chains with the same last hash carry the same payload history, link by link;
      otherwise their rows exhibit a collision of the digest, or, if one chain is longer, a text
      whose digest is the sixty-four zeros that every chain starts from. */
  lemma {:induction false} EqualHashesEqualHistories(p: Platform, a: Chain, b: Chain) returns (x: string, y: string)
    requires Sixty4(p) && ValidChain(p, a) && ValidChain(p, b) && a.lastHash == b.lastHash
    ensures || Payloads(a.rows) == Payloads(b.rows)
            || (x != y && p.sha256(x) == p.sha256(y))
            || (|a.rows| != |b.rows| && p.sha256(x) == GENESIS)
    decreases |a.rows|
  {
    x, y := "", "";
    if a.rows == [] && b.rows != [] {
      x := LastInput(p, b);
    } else if a.rows != [] && b.rows == [] {
      x := LastInput(p, a);
    } else if a.rows != [] {
      var n, k := |a.rows| - 1, |b.rows| - 1;
      assert Linked(p, a.rows, n) && Linked(p, b.rows, k);
      var ra, rb := a.rows[n], b.rows[k];
      x, y := ra.previousHash + ra.payload, rb.previousHash + rb.payload;
      if x == y {
        PreviousHashLength(p, a, n);
        PreviousHashLength(p, b, k);
        assert x[..64] == ra.previousHash && y[..64] == rb.previousHash;
        assert x[64..] == ra.payload && y[64..] == rb.payload;
        ShortenedIsValid(p, a);
        ShortenedIsValid(p, b);
        x, y := EqualHashesEqualHistories(p, Shortened(a), Shortened(b));
        assert Payloads(a.rows) == Payloads(a.rows[..n]) + [ra.payload];
        assert Payloads(b.rows) == Payloads(b.rows[..k]) + [rb.payload];
      }
    }
  }

  /** The text whose digest is the head. */
  lemma LastInput(p: Platform, chain: Chain) returns (x: string)
    requires ValidChain(p, chain) && chain.rows != []
    ensures p.sha256(x) == chain.lastHash
  {
    var n := |chain.rows| - 1;
    assert Linked(p, chain.rows, n);
    x := chain.rows[n].previousHash + chain.rows[n].payload;
  }

  /** Two valid chains with the same head row carry the same payload history, or exhibit a
      collision. */
  lemma EqualHeadsEqualHistories(p: Platform, a: Chain, b: Chain) returns (x: string, y: string)
    requires Sixty4(p) && ValidChain(p, a) && ValidChain(p, b)
    requires a.lastSequence == b.lastSequence && a.lastHash == b.lastHash
    ensures Payloads(a.rows) == Payloads(b.rows) || (x != y && p.sha256(x) == p.sha256(y))
  {
    x, y := EqualHashesEqualHistories(p, a, b);
  }

  lemma PreviousHashLength(p: Platform, chain: Chain, i: nat)
    requires Sixty4(p) && ValidChain(p, chain) && i < |chain.rows|
    ensures |chain.rows[i].previousHash| == 64
  {
    assert Linked(p, chain.rows, i);
    if i > 0 { assert Linked(p, chain.rows, i - 1); }
  }

  // ----- The backfill -----

  /** The trigger over a sequence of inserts. */
  function Replay(p: Platform, chain: Chain, fs: seq<Fields>): (r: Chain)
    ensures |r.rows| == |chain.rows| + |fs|
  {
    if fs == [] then chain else Append(p, Replay(p, chain, fs[..|fs| - 1]), fs[|fs| - 1])
  }

  /** What the old inserts gave: no command, phase or request columns. */
  function Legacy(f: Fields): Fields { f.(commandId := "", phase := "", requestId := "") }

  function LegacyRows(rows: seq<Row>): (fs: seq<Fields>)
    ensures |fs| == |rows|
  {
    seq(|rows|, i requires 0 <= i < |rows| => Legacy(rows[i].fields))
  }

  lemma ReplayOneMore(p: Platform, fs: seq<Fields>, i: nat)
    requires i < |fs|
    ensures Replay(p, EmptyChain, fs[..i + 1]) == Append(p, Replay(p, EmptyChain, fs[..i]), fs[i])
  {
    assert fs[..i + 1][..i] == fs[..i];
  }

  /** The update that precedes the loop. */
  method FillLegacy(table: array<Row>)
    modifies table
    ensures forall j | 0 <= j < table.Length :: table[j].fields == Filled(Legacy(old(table[j]).fields))
  {
    for i := 0 to table.Length
      invariant forall j | 0 <= j < i :: table[j].fields == Filled(Legacy(old(table[j]).fields))
      invariant forall j | i <= j < table.Length :: table[j] == old(table[j])
    {
      var f := table[i].fields;
      table[i] := table[i].(fields := f.(commandId := f.id, phase := "event", requestId := f.id));
    }
  }

  /** The migration, on the rows in order of creation: the same chain, row by row, as if the
      trigger had been there from the first insert. */
  method Backfill(p: Platform, table: array<Row>) returns (lastSequence: nat, lastHash: string)
    modifies table
    ensures var chain := Replay(p, EmptyChain, LegacyRows(old(table[..])));
            table[..] == chain.rows && lastSequence == chain.lastSequence && lastHash == chain.lastHash
  {
    ghost var legacy := LegacyRows(table[..]);
    FillLegacy(table);
    var previousHash, nextSequence := GENESIS, 0;
    for i := 0 to table.Length
      invariant forall j | i <= j < table.Length :: table[j].fields == Filled(legacy[j])
      invariant Replay(p, EmptyChain, legacy[..i]) == Chain(table[..i], nextSequence, previousHash)
    {
      ReplayOneMore(p, legacy, i);
      ghost var done := table[..i];
      nextSequence := nextSequence + 1;
      var payload := p.canonical(table[i].fields);
      var eventHash := p.sha256(previousHash + payload);
      table[i] := table[i].(sequence := nextSequence, previousHash := previousHash, payload := payload, eventHash := eventHash);
      previousHash := eventHash;
      assert table[..i + 1] == done + [table[i]];
    }
    assert legacy[..table.Length] == legacy && table[..table.Length] == table[..];
    return nextSequence, previousHash;
  }

  lemma {:induction false} ReplayIsValid(p: Platform, fs: seq<Fields>)
    ensures ValidChain(p, Replay(p, EmptyChain, fs))
  {
    if fs != [] {
      ReplayIsValid(p, fs[..|fs| - 1]);
      AppendKeepsValid(p, Replay(p, EmptyChain, fs[..|fs| - 1]), fs[|fs| - 1]);
    }
  }
}
