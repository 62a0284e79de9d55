/**
 * The row loop of the partner import and its report (wizard.py:166-319):
 * each row is prepared and upserted; a row that raises is counted as an
 * error with its row number and carried on past; the tallies become the
 * wizard's note and the notification shown to the user.
 */
module PartnerRun {
  import opened Common
  import opened PartnerModel
  import opened PartnerImport
  import opened PartnerUpsert

  // ---------------------------------------------------------------------
  // One row

  /** `row.get(col, 'N/A')`: the raw, unstripped cell. */
  function RawOr(row: Row, col: string): string {
    if col in row then row[col] else "N/A"
  }

  /** `partner_data.get(f, 'N/A')` for a text field. */
  function TextOr(d: map<Field, Value>, f: Field): string {
    if f in d && d[f].Text? then d[f].s else "N/A"
  }

  /** How a created or updated partner is listed in the note. */
  function Label(d: map<Field, Value>): string {
    TextOr(d, Name) + " (Codice: " + TextOr(d, Ref) + ")"
  }

  /** How a failed row is listed: its position among the records, counting
      from 2 (`enumerate(reader, start=2)`), the raw name and code cells, and
      the error text. */
  function RowError(rowNum: nat, row: Row, msg: string): string {
    "Row " + NatToString(rowNum) + " - " + RawOr(row, "Nome Completo") + " (Codice: " + RawOr(row, "Codice") + "): " + msg
  }

  /** The lists the loop accumulates. */
  datatype Tally = Tally(created: seq<string>, updated: seq<string>, errors: seq<string>)

  /** The tallies and the stored partners between rows. */
  datatype RunState = RunState(tally: Tally, records: seq<Partner>, nextId: nat)

  /** The loop body for the row numbered `rowNum`, given what preparing
      the row gave. */
  function RowStep(st: RunState, rowNum: nat, row: Row, prep: Outcome<map<Field, Value>>, faults: HostFaults): RunState {
    var t := st.tally;
    match prep
    case Fail(m) => RunState(Tally(t.created, t.updated, t.errors + [RowError(rowNum, row, m)]), st.records, st.nextId)
    case Ok(d) =>
      var u := UpsertSpec(st.records, st.nextId, d, faults);
      match u.outcome
      case Fail(m) => RunState(Tally(t.created, t.updated, t.errors + [RowError(rowNum, row, m)]), u.records, u.nextId)
      case Ok(Created) => RunState(Tally(t.created + [Label(d)], t.updated, t.errors), u.records, u.nextId)
      case Ok(Updated) => RunState(Tally(t.created, t.updated + [Label(d)], t.errors), u.records, u.nextId)
  }

  /** The loop over the first `n` rows, numbered from 2, each with what
      preparing it gave and its own database answers. */
  function ImportUpTo(rows: seq<Row>, preps: seq<Outcome<map<Field, Value>>>, faults: seq<HostFaults>, st: RunState, n: nat): RunState
    requires |preps| == |rows| && |faults| == |rows| && n <= |rows|
  {
    if n == 0 then st
    else RowStep(ImportUpTo(rows, preps, faults, st, n - 1), n + 1, rows[n - 1], preps[n - 1], faults[n - 1])
  }

  /** No rows, no change. */
  lemma RunEmpty(rows: seq<Row>, preps: seq<Outcome<map<Field, Value>>>, faults: seq<HostFaults>, st: RunState)
    requires |preps| == |rows| && |faults| == |rows|
    ensures ImportUpTo(rows, preps, faults, st, 0) == st
  {
  }

  /** Every row prepared. */
  function PrepareAll(rows: seq<Row>, lk: Lookups): (r: seq<Outcome<map<Field, Value>>>)
    ensures |r| == |rows| && forall j | 0 <= j < |rows| :: r[j] == PrepareSpec(rows[j], lk)
  {
    seq(|rows|, j requires 0 <= j < |rows| => PrepareSpec(rows[j], lk))
  }

  /** The loop over all rows. */
  function ImportRun(rows: seq<Row>, faults: seq<HostFaults>, lk: Lookups, st: RunState): RunState
    requires |faults| == |rows|
  {
    ImportUpTo(rows, PrepareAll(rows, lk), faults, st, |rows|)
  }

  // ---------------------------------------------------------------------
  // What preparing decides about a row's code

  /** A row fails exactly when its code is blank, and otherwise yields a
      record carrying the stripped code as text. */
  predicate CodeFacts(row: Row, prep: Outcome<map<Field, Value>>) {
    && (prep.Fail? <==> !Nonblank(row, "Codice"))
    && (prep.Fail? ==> prep.msg == "Codice is required")
    && (prep.Ok? ==> Ref in prep.value && prep.value[Ref] == Text(Cell(row, "Codice")) && Cell(row, "Codice") != "")
  }

  lemma PrepareCodeFacts(row: Row, lk: Lookups)
    ensures CodeFacts(row, PrepareSpec(row, lk))
  {
    PrepareFailsIffNoCode(row, lk);
    CellStripped(row, "Codice");
    if Nonblank(row, "Codice") {
      PrepareOutcome(row, lk);
    }
  }

  /** The facts hold for every prepared row. */
  predicate AllCodeFacts(rows: seq<Row>, preps: seq<Outcome<map<Field, Value>>>) {
    |preps| == |rows| && forall j | 0 <= j < |rows| :: CodeFacts(rows[j], preps[j])
  }

  lemma PrepareAllCodeFacts(rows: seq<Row>, lk: Lookups)
    ensures AllCodeFacts(rows, PrepareAll(rows, lk))
  {
    forall j | 0 <= j < |rows| ensures CodeFacts(rows[j], PrepareAll(rows, lk)[j]) {
      PrepareCodeFacts(rows[j], lk);
    }
  }

  /** The same for the first `n` rows, one row at a time. */
  predicate FactsUpTo(rows: seq<Row>, preps: seq<Outcome<map<Field, Value>>>, n: nat)
    requires |preps| == |rows| && n <= |rows|
  {
    n == 0 || (CodeFacts(rows[n - 1], preps[n - 1]) && FactsUpTo(rows, preps, n - 1))
  }

  lemma {:induction false} FactsUpToAll(rows: seq<Row>, preps: seq<Outcome<map<Field, Value>>>, n: nat)
    requires AllCodeFacts(rows, preps) && n <= |rows|
    ensures FactsUpTo(rows, preps, n)
  {
    if n > 0 {
      FactsUpToAll(rows, preps, n - 1);
    }
  }

  /** No create among the first `n` rows is refused. */
  predicate AcceptedUpTo(faults: seq<HostFaults>, n: nat)
    requires n <= |faults|
  {
    n == 0 || (faults[n - 1].createError.None? && AcceptedUpTo(faults, n - 1))
  }

  lemma {:induction false} AcceptedUpToAll(faults: seq<HostFaults>, n: nat)
    requires n <= |faults| && forall j | 0 <= j < |faults| :: faults[j].createError.None?
    ensures AcceptedUpTo(faults, n)
  {
    if n > 0 {
      AcceptedUpToAll(faults, n - 1);
    }
  }

  /** Each of the first `n` rows was prepared. */
  predicate PreparedUpTo(preps: seq<Outcome<map<Field, Value>>>, n: nat)
    requires n <= |preps|
  {
    n == 0 || (preps[n - 1].Ok? && PreparedUpTo(preps, n - 1))
  }

  lemma {:induction false} PreparedUpToAll(preps: seq<Outcome<map<Field, Value>>>, n: nat)
    requires n <= |preps| && forall j | 0 <= j < |preps| :: preps[j].Ok?
    ensures PreparedUpTo(preps, n)
  {
    if n > 0 {
      PreparedUpToAll(preps, n - 1);
    }
  }

  // ---------------------------------------------------------------------
  // What a row does to the tallies

  function Total(t: Tally): nat {
    |t.created| + |t.updated| + |t.errors|
  }

  /** Every row lands in exactly one list. */
  lemma RowStepCounts(st: RunState, rowNum: nat, row: Row, prep: Outcome<map<Field, Value>>, faults: HostFaults)
    ensures Total(RowStep(st, rowNum, row, prep, faults).tally) == Total(st.tally) + 1
  {
  }

  /** A row without a code is reported as an error and changes nothing else. */
  lemma RowWithoutCode(st: RunState, rowNum: nat, row: Row, lk: Lookups, faults: HostFaults)
    requires !Nonblank(row, "Codice")
    ensures RowStep(st, rowNum, row, PrepareSpec(row, lk), faults)
         == RunState(Tally(st.tally.created, st.tally.updated,
                           st.tally.errors + [RowError(rowNum, row, "Codice is required")]), st.records, st.nextId)
  {
    PrepareCodeFacts(row, lk);
  }

  /** A row with a code, when the database does not refuse a create, is
      listed as created or updated under its name and code, and created
      exactly when no stored partner has the code. */
  lemma RowWithCode(st: RunState, rowNum: nat, row: Row, prep: Outcome<map<Field, Value>>, faults: HostFaults)
    requires CodeFacts(row, prep) && Nonblank(row, "Codice") && faults.createError.None?
    ensures var r := RowStep(st, rowNum, row, prep, faults);
      && r.tally.errors == st.tally.errors
      && ((r.tally.created == st.tally.created + [Label(prep.value)] && r.tally.updated == st.tally.updated)
          || (r.tally.created == st.tally.created && r.tally.updated == st.tally.updated + [Label(prep.value)]))
      && (r.tally.created != st.tally.created <==>
            forall j | 0 <= j < |st.records| :: RefOf(st.records[j]) != Cell(row, "Codice"))
  {
    UpsertCreatesIffNew(st.records, st.nextId, prep.value, faults);
  }

  /** The error list of a prepared row, when no create is refused, is unchanged. */
  lemma RowWithCodeNoError(st: RunState, rowNum: nat, row: Row, prep: Outcome<map<Field, Value>>, faults: HostFaults)
    requires CodeFacts(row, prep) && prep.Ok? && faults.createError.None?
    ensures RowStep(st, rowNum, row, prep, faults).tally.errors == st.tally.errors
  {
    UpsertCreatesIffNew(st.records, st.nextId, prep.value, faults);
  }

  /** The same, as a step of the run. */
  lemma RunStepNoError(rows: seq<Row>, preps: seq<Outcome<map<Field, Value>>>, faults: seq<HostFaults>, st: RunState, n: nat)
    requires |preps| == |rows| && |faults| == |rows| && 0 < n <= |rows|
    requires CodeFacts(rows[n - 1], preps[n - 1]) && preps[n - 1].Ok? && faults[n - 1].createError.None?
    ensures ImportUpTo(rows, preps, faults, st, n - 1).tally.errors == st.tally.errors ==>
              ImportUpTo(rows, preps, faults, st, n).tally.errors == st.tally.errors
  {
    RowWithCodeNoError(ImportUpTo(rows, preps, faults, st, n - 1), n + 1, rows[n - 1], preps[n - 1], faults[n - 1]);
  }

  /** One more row adds one to the tallies. */
  lemma RunStepCounts(rows: seq<Row>, preps: seq<Outcome<map<Field, Value>>>, faults: seq<HostFaults>, st: RunState, n: nat)
    requires |preps| == |rows| && |faults| == |rows| && 0 < n <= |rows|
    ensures Total(ImportUpTo(rows, preps, faults, st, n).tally) == Total(ImportUpTo(rows, preps, faults, st, n - 1).tally) + 1
  {
    RowStepCounts(ImportUpTo(rows, preps, faults, st, n - 1), n + 1, rows[n - 1], preps[n - 1], faults[n - 1]);
  }

  /** The tallies account for every row. */
  lemma {:induction false} RunCounts(rows: seq<Row>, preps: seq<Outcome<map<Field, Value>>>, faults: seq<HostFaults>, st: RunState, n: nat)
    requires |preps| == |rows| && |faults| == |rows| && n <= |rows|
    ensures Total(ImportUpTo(rows, preps, faults, st, n).tally) == Total(st.tally) + n
  {
    if n == 0 {
      RunEmpty(rows, preps, faults, st);
    } else {
      RunStepCounts(rows, preps, faults, st, n);
      RunCounts(rows, preps, faults, st, n - 1);
    }
  }

  /** When every row is prepared and no create is refused, no row is an error. */
  lemma {:induction false} RunWithoutErrors(rows: seq<Row>, preps: seq<Outcome<map<Field, Value>>>, faults: seq<HostFaults>, st: RunState, n: nat)
    requires |preps| == |rows| && |faults| == |rows| && n <= |rows|
    requires FactsUpTo(rows, preps, n) && PreparedUpTo(preps, n) && AcceptedUpTo(faults, n)
    ensures ImportUpTo(rows, preps, faults, st, n).tally.errors == st.tally.errors
  {
    if n == 0 {
      RunEmpty(rows, preps, faults, st);
    } else {
      RunWithoutErrors(rows, preps, faults, st, n - 1);
      RunStepNoError(rows, preps, faults, st, n);
    }
  }

  /** A well-formed table stays well formed with distinct codes. */
  predicate TableOk(st: RunState) {
    IdsBelow(st.records, st.nextId) && RefsDistinct(st.records)
  }

  lemma RowStepKeepsTable(st: RunState, rowNum: nat, row: Row, prep: Outcome<map<Field, Value>>, faults: HostFaults)
    requires CodeFacts(row, prep)
    ensures TableOk(st) ==> TableOk(RowStep(st, rowNum, row, prep, faults))
  {
    if TableOk(st) && prep.Ok? {
      UpsertKeepsIds(st.records, st.nextId, prep.value, faults);
      UpsertKeepsRefsDistinct(st.records, st.nextId, prep.value, faults);
    }
  }

  /** One more row keeps the table well formed. */
  lemma RunStepKeepsTable(rows: seq<Row>, preps: seq<Outcome<map<Field, Value>>>, faults: seq<HostFaults>, st: RunState, n: nat)
    requires |preps| == |rows| && |faults| == |rows| && 0 < n <= |rows|
    requires CodeFacts(rows[n - 1], preps[n - 1])
    ensures TableOk(ImportUpTo(rows, preps, faults, st, n - 1)) ==> TableOk(ImportUpTo(rows, preps, faults, st, n))
  {
    RowStepKeepsTable(ImportUpTo(rows, preps, faults, st, n - 1), n + 1, rows[n - 1], preps[n - 1], faults[n - 1]);
  }

  lemma {:induction false} RunKeepsTable(rows: seq<Row>, preps: seq<Outcome<map<Field, Value>>>, faults: seq<HostFaults>, st: RunState, n: nat)
    requires |preps| == |rows| && |faults| == |rows| && n <= |rows|
    requires FactsUpTo(rows, preps, n) && TableOk(st)
    ensures TableOk(ImportUpTo(rows, preps, faults, st, n))
  {
    if n == 0 {
      RunEmpty(rows, preps, faults, st);
    } else {
      RunStepKeepsTable(rows, preps, faults, st, n);
      RunKeepsTable(rows, preps, faults, st, n - 1);
    }
  }

  /** However the rows and the database's answers go, partner codes stay
      unique: the import never creates a second partner with a code
      already stored, so the uniqueness constraint holds afterwards. */
  lemma RunKeepsCodesUnique(rows: seq<Row>, faults: seq<HostFaults>, lk: Lookups, st: RunState)
    requires |faults| == |rows| && TableOk(st)
    ensures TableOk(ImportRun(rows, faults, lk, st))
    ensures CheckCodiceUnique(ImportRun(rows, faults, lk, st).records, ImportRun(rows, faults, lk, st).records).None?
  {
    PrepareAllCodeFacts(rows, lk);
    FactsUpToAll(rows, PrepareAll(rows, lk), |rows|);
    RunKeepsTable(rows, PrepareAll(rows, lk), faults, st, |rows|);
    TablePassesIffRefsDistinct(ImportRun(rows, faults, lk, st).records);
  }

  /** The counts add up to the number of rows, and with every code given
      and no create refused there are no errors. */
  lemma RunTally(rows: seq<Row>, faults: seq<HostFaults>, lk: Lookups, st: RunState)
    requires |faults| == |rows|
    ensures Total(ImportRun(rows, faults, lk, st).tally) == Total(st.tally) + |rows|
    ensures (forall j | 0 <= j < |rows| :: Nonblank(rows[j], "Codice") && faults[j].createError.None?) ==>
              ImportRun(rows, faults, lk, st).tally.errors == st.tally.errors
  {
    RunCounts(rows, PrepareAll(rows, lk), faults, st, |rows|);
    if forall j | 0 <= j < |rows| :: Nonblank(rows[j], "Codice") && faults[j].createError.None? {
      RunWithCodesWithoutErrors(rows, faults, lk, st);
    }
  }

  lemma RunWithCodesWithoutErrors(rows: seq<Row>, faults: seq<HostFaults>, lk: Lookups, st: RunState)
    requires |faults| == |rows|
    requires forall j | 0 <= j < |rows| :: Nonblank(rows[j], "Codice") && faults[j].createError.None?
    ensures ImportRun(rows, faults, lk, st).tally.errors == st.tally.errors
  {
    var preps := PrepareAll(rows, lk);
    PrepareAllCodeFacts(rows, lk);
    FactsUpToAll(rows, preps, |rows|);
    forall j | 0 <= j < |preps| ensures preps[j].Ok? {
      assert CodeFacts(rows[j], preps[j]) && Nonblank(rows[j], "Codice");
    }
    PreparedUpToAll(preps, |rows|);
    AcceptedUpToAll(faults, |rows|);
    RunWithoutErrors(rows, preps, faults, st, |rows|);
  }

  // ---------------------------------------------------------------------
  // Importing the same file twice

  /** Some stored partner has code `v`. */
  predicate CodeStored(records: seq<Partner>, v: Value) {
    exists i | 0 <= i < |records| :: Ref in records[i].vals && records[i].vals[Ref] == v
  }

  /** The codes of the first `n` rows that have one are stored. */
  predicate RowCodesStored(rows: seq<Row>, n: nat, records: seq<Partner>) {
    forall j | 0 <= j < n && j < |rows| :: Nonblank(rows[j], "Codice") ==> CodeStored(records, Text(Cell(rows[j], "Codice")))
  }

  /** An upsert never removes or changes a stored code. */
  lemma UpsertKeepsStoredCodes(records: seq<Partner>, nextId: nat, data: map<Field, Value>, faults: HostFaults, v: Value)
    requires CodeStored(records, v)
    ensures CodeStored(UpsertSpec(records, nextId, data, faults).records, v)
  {
    var u := UpsertSpec(records, nextId, data, faults);
    var i :| 0 <= i < |records| && Ref in records[i].vals && records[i].vals[Ref] == v;
    var d := Popped(data);
    if |u.records| == |records| + 1 {
      assert u.records[i] == records[i];
    } else if SearchKey(d).Some? {
      var key := SearchKey(d).value;
      var found := FindFirst(records, key.0, key.1);
      if found.Some? && !faults.writeFails {
        var k := found.value;
        assert key.0 == Ref ==> records[k].vals[Ref] == d[Ref];
        assert Ref in u.records[i].vals && u.records[i].vals[Ref] == v;
      }
    }
  }

  /** The upsert of a record with a code leaves that code stored unless
      the create is refused. */
  lemma UpsertStoresCode(records: seq<Partner>, nextId: nat, d: map<Field, Value>, faults: HostFaults)
    requires Ref in d && faults.createError.None?
    ensures CodeStored(UpsertSpec(records, nextId, d, faults).records, d[Ref])
  {
    var v := d[Ref];
    var u := UpsertSpec(records, nextId, d, faults);
    assert SearchKey(Popped(d)) == Some((Ref, v));
    var found := FindFirst(records, Ref, v);
    if found.Some? {
      var k := found.value;
      assert Ref in u.records[k].vals && u.records[k].vals[Ref] == v;
    } else {
      var n := |records|;
      assert Ref in u.records[n].vals && u.records[n].vals[Ref] == v;
    }
  }

  lemma RowStepKeepsStoredCodes(st: RunState, rowNum: nat, row: Row, prep: Outcome<map<Field, Value>>, faults: HostFaults, v: Value)
    requires CodeStored(st.records, v)
    ensures CodeStored(RowStep(st, rowNum, row, prep, faults).records, v)
  {
    if prep.Ok? {
      UpsertKeepsStoredCodes(st.records, st.nextId, prep.value, faults, v);
    }
  }

  /** The codes of several rows stay stored over one more row. */
  lemma RowStepKeepsRowCodes(st: RunState, rowNum: nat, row: Row, prep: Outcome<map<Field, Value>>, faults: HostFaults, rows: seq<Row>, m: nat)
    requires RowCodesStored(rows, m, st.records)
    ensures RowCodesStored(rows, m, RowStep(st, rowNum, row, prep, faults).records)
  {
    forall j | 0 <= j < m && j < |rows| && Nonblank(rows[j], "Codice")
      ensures CodeStored(RowStep(st, rowNum, row, prep, faults).records, Text(Cell(rows[j], "Codice")))
    {
      RowStepKeepsStoredCodes(st, rowNum, row, prep, faults, Text(Cell(rows[j], "Codice")));
    }
  }

  /** One more row keeps the earlier codes stored and stores its own. */
  lemma RunStepStoresCodes(rows: seq<Row>, preps: seq<Outcome<map<Field, Value>>>, faults: seq<HostFaults>, st: RunState, n: nat)
    requires |preps| == |rows| && |faults| == |rows| && 0 < n <= |rows|
    requires CodeFacts(rows[n - 1], preps[n - 1]) && faults[n - 1].createError.None?
    ensures RowCodesStored(rows, n - 1, ImportUpTo(rows, preps, faults, st, n - 1).records) ==>
              RowCodesStored(rows, n, ImportUpTo(rows, preps, faults, st, n).records)
  {
    StoresCodesStep(ImportUpTo(rows, preps, faults, st, n - 1), n + 1, rows[n - 1], preps[n - 1], faults[n - 1], rows, n - 1);
  }

  /** After the first `n` rows, with no create refused, their codes are stored. */
  lemma {:induction false} RunStoresCodes(rows: seq<Row>, preps: seq<Outcome<map<Field, Value>>>, faults: seq<HostFaults>, st: RunState, n: nat)
    requires |preps| == |rows| && |faults| == |rows| && n <= |rows|
    requires FactsUpTo(rows, preps, n) && AcceptedUpTo(faults, n)
    ensures RowCodesStored(rows, n, ImportUpTo(rows, preps, faults, st, n).records)
  {
    if n == 0 {
      RunEmpty(rows, preps, faults, st);
    } else {
      RunStepStoresCodes(rows, preps, faults, st, n);
      RunStoresCodes(rows, preps, faults, st, n - 1);
    }
  }

  /** One more row of the run keeps the earlier rows' codes and stores its own. */
  lemma StoresCodesStep(st: RunState, rowNum: nat, row: Row, prep: Outcome<map<Field, Value>>, faults: HostFaults, rows: seq<Row>, m: nat)
    requires m < |rows| && row == rows[m] && CodeFacts(row, prep) && faults.createError.None?
    ensures RowCodesStored(rows, m, st.records) ==> RowCodesStored(rows, m + 1, RowStep(st, rowNum, row, prep, faults).records)
  {
    if RowCodesStored(rows, m, st.records) {
      RowStepKeepsRowCodes(st, rowNum, row, prep, faults, rows, m);
      RowStepStoresCode(st, rowNum, row, prep, faults);
      ExtendRowCodes(rows, m, RowStep(st, rowNum, row, prep, faults).records);
    }
  }

  /** A row with a code, when the create is not refused, leaves its code stored. */
  lemma RowStepStoresCode(st: RunState, rowNum: nat, row: Row, prep: Outcome<map<Field, Value>>, faults: HostFaults)
    requires CodeFacts(row, prep) && faults.createError.None?
    ensures Nonblank(row, "Codice") ==> CodeStored(RowStep(st, rowNum, row, prep, faults).records, Text(Cell(row, "Codice")))
  {
    if Nonblank(row, "Codice") {
      UpsertStoresCode(st.records, st.nextId, prep.value, faults);
    }
  }

  /** The codes of one more row. */
  lemma ExtendRowCodes(rows: seq<Row>, m: nat, records: seq<Partner>)
    requires m < |rows| && RowCodesStored(rows, m, records)
    requires Nonblank(rows[m], "Codice") ==> CodeStored(records, Text(Cell(rows[m], "Codice")))
    ensures RowCodesStored(rows, m + 1, records)
  {
  }

  /** A row whose code is already stored is never created. */
  lemma RowWithStoredCode(st: RunState, rowNum: nat, row: Row, prep: Outcome<map<Field, Value>>, faults: HostFaults)
    requires CodeFacts(row, prep) && CodeStored(st.records, Text(Cell(row, "Codice")))
    ensures RowStep(st, rowNum, row, prep, faults).tally.created == st.tally.created
  {
    if prep.Ok? {
      var d := prep.value;
      var v := Text(Cell(row, "Codice"));
      assert SearchKey(Popped(d)) == Some((Ref, v));
      var i :| 0 <= i < |st.records| && Ref in st.records[i].vals && st.records[i].vals[Ref] == v;
      FindFirstSpec(st.records, Ref, v);
    }
  }

  /** One more row of a file whose codes are stored creates nothing and keeps them. */
  lemma RunStepOverStored(rows: seq<Row>, preps: seq<Outcome<map<Field, Value>>>, faults: seq<HostFaults>, st: RunState, n: nat)
    requires |preps| == |rows| && |faults| == |rows| && 0 < n <= |rows|
    requires CodeFacts(rows[n - 1], preps[n - 1])
    ensures RowCodesStored(rows, |rows|, ImportUpTo(rows, preps, faults, st, n - 1).records) ==>
              && ImportUpTo(rows, preps, faults, st, n).tally.created == ImportUpTo(rows, preps, faults, st, n - 1).tally.created
              && RowCodesStored(rows, |rows|, ImportUpTo(rows, preps, faults, st, n).records)
  {
    OverStoredStep(ImportUpTo(rows, preps, faults, st, n - 1), n + 1, rows[n - 1], preps[n - 1], faults[n - 1], rows, n - 1);
  }

  /** A run over rows whose codes are all stored creates nothing and keeps them stored. */
  lemma {:induction false} RunOverStoredCodes(rows: seq<Row>, preps: seq<Outcome<map<Field, Value>>>, faults: seq<HostFaults>, st: RunState, n: nat)
    requires |preps| == |rows| && |faults| == |rows| && n <= |rows|
    requires FactsUpTo(rows, preps, n) && RowCodesStored(rows, |rows|, st.records)
    ensures ImportUpTo(rows, preps, faults, st, n).tally.created == st.tally.created
    ensures RowCodesStored(rows, |rows|, ImportUpTo(rows, preps, faults, st, n).records)
  {
    if n == 0 {
      RunEmpty(rows, preps, faults, st);
    } else {
      RunStepOverStored(rows, preps, faults, st, n);
      RunOverStoredCodes(rows, preps, faults, st, n - 1);
    }
  }

  /** A row of a file whose codes are all stored creates nothing and keeps them stored. */
  lemma OverStoredStep(st: RunState, rowNum: nat, row: Row, prep: Outcome<map<Field, Value>>, faults: HostFaults, rows: seq<Row>, m: nat)
    requires m < |rows| && row == rows[m] && CodeFacts(row, prep)
    ensures RowCodesStored(rows, |rows|, st.records) ==>
              && RowStep(st, rowNum, row, prep, faults).tally.created == st.tally.created
              && RowCodesStored(rows, |rows|, RowStep(st, rowNum, row, prep, faults).records)
  {
    if RowCodesStored(rows, |rows|, st.records) {
      if Nonblank(row, "Codice") {
        assert CodeStored(st.records, Text(Cell(rows[m], "Codice")));
        RowWithStoredCode(st, rowNum, row, prep, faults);
      }
      RowStepKeepsRowCodes(st, rowNum, row, prep, faults, rows, |rows|);
    }
  }

  /** Importing a file again after an import in which no create was
      refused creates no partner: every row finds the partner its code
      names. */
  lemma ReimportCreatesNothing(rows: seq<Row>, first: seq<HostFaults>, again: seq<HostFaults>, lk: Lookups, st: RunState, st2: RunState)
    requires |first| == |rows| && |again| == |rows|
    requires forall j | 0 <= j < |rows| :: first[j].createError.None?
    requires st2.records == ImportRun(rows, first, lk, st).records
    ensures ImportRun(rows, again, lk, st2).tally.created == st2.tally.created
  {
    PrepareAllCodeFacts(rows, lk);
    FactsUpToAll(rows, PrepareAll(rows, lk), |rows|);
    AcceptedUpToAll(first, |rows|);
    RunStoresCodes(rows, PrepareAll(rows, lk), first, st, |rows|);
    RunOverStoredCodes(rows, PrepareAll(rows, lk), again, st2, |rows|);
  }

  // ---------------------------------------------------------------------
  // The note and the notification (wizard.py:271-307)

  /** The line of one listed item. */
  function Bullet(item: string): string {
    "- " + item + "\n"
  }

  /** The first `n` items, each on its own "- " line. */
  function Lines(items: seq<string>, n: nat): string
    requires n <= |items|
  {
    if n == 0 then "" else Lines(items, n - 1) + Bullet(items[n - 1])
  }

  /** How many items a section lists: the first ten. */
  function ShownCount(items: seq<string>): nat {
    if |items| > 10 then 10 else |items|
  }

  /** A section of the note: nothing for no items; otherwise its header,
      the first ten items, and how many more there are when there are more. */
  function Section(header: string, items: seq<string>, noun: string): string {
    if items == [] then "" else Heading(header) + Lines(items, ShownCount(items)) + Overflow(items, noun)
  }

  /** The header line of a non-empty section. */
  function Heading(header: string): string {
    "\n" + header + ":\n"
  }

  /** How many items were not listed, when there are more than ten. */
  function Overflow(items: seq<string>, noun: string): string {
    if |items| > 10 then "... e altri " + NatToString(|items| - 10) + " " + noun + "\n" else ""
  }

  /** The note the import leaves on the wizard. */
  function ResultNote(t: Tally): string {
    "Import completed:\n"
    + "- Partner creati: " + NatToString(|t.created|) + "\n"
    + "- Partner aggiornati: " + NatToString(|t.updated|) + "\n"
    + "- Errori: " + NatToString(|t.errors|) + "\n"
    + Section("Partner creati", t.created, "partner creati")
    + Section("Partner aggiornati", t.updated, "partner aggiornati")
    + Section("Errori riscontrati", t.errors, "errori")
  }

  /** Every listed item has its own line, in order: the first `n` lines are
      the first `i` lines, item `i`'s line, and the lines between. */
  lemma {:induction false} ItemLine(items: seq<string>, i: nat, n: nat)
    requires i < n <= |items|
    ensures exists rest: string :: Lines(items, n) == Lines(items, i) + Bullet(items[i]) + rest
  {
    if n == i + 1 {
      assert Lines(items, n) == Lines(items, i) + Bullet(items[i]) + "";
    } else {
      ItemLine(items, i, n - 1);
      var rest: string :| Lines(items, n - 1) == Lines(items, i) + Bullet(items[i]) + rest;
      assert Lines(items, n) == Lines(items, i) + Bullet(items[i]) + (rest + Bullet(items[n - 1]));
    }
  }

  /** The lines of the first `n` items depend on those items alone. */
  lemma {:induction false} LinesOfPrefix(a: seq<string>, b: seq<string>, n: nat)
    requires n <= |a| && n <= |b| && a[..n] == b[..n]
    ensures Lines(a, n) == Lines(b, n)
  {
    if n > 0 {
      assert a[..n - 1] == a[..n][..n - 1] && b[..n - 1] == b[..n][..n - 1];
      assert a[n - 1] == a[..n][n - 1] && b[n - 1] == b[..n][n - 1];
      LinesOfPrefix(a, b, n - 1);
    }
  }

  /** Only the first ten entries of a list reach its section: two lists of
      the same length that agree on those give the same text. */
  lemma SectionShowsFirstTen(header: string, a: seq<string>, b: seq<string>, noun: string)
    requires |a| == |b| && a[..ShownCount(a)] == b[..ShownCount(b)]
    ensures Section(header, a, noun) == Section(header, b, noun)
  {
    LinesOfPrefix(a, b, ShownCount(a));
  }

  /** The note depends on each list only through its length and its first
      ten entries. */
  lemma ResultNoteShowsFirstTen(t: Tally, u: Tally)
    requires |t.created| == |u.created| && t.created[..ShownCount(t.created)] == u.created[..ShownCount(u.created)]
    requires |t.updated| == |u.updated| && t.updated[..ShownCount(t.updated)] == u.updated[..ShownCount(u.updated)]
    requires |t.errors| == |u.errors| && t.errors[..ShownCount(t.errors)] == u.errors[..ShownCount(u.errors)]
    ensures ResultNote(t) == ResultNote(u)
  {
    SectionShowsFirstTen("Partner creati", t.created, u.created, "partner creati");
    SectionShowsFirstTen("Partner aggiornati", t.updated, u.updated, "partner aggiornati");
    SectionShowsFirstTen("Errori riscontrati", t.errors, u.errors, "errori");
  }

  /** The item loop of a section: one line per item, for the first `n`. */
  method AppendLines(msg: string, items: seq<string>, n: nat) returns (r: string)
    requires n <= |items|
    ensures r == msg + Lines(items, n)
  {
    r := msg;
    for i := 0 to n
      invariant r == msg + Lines(items, i)
    {
      r := r + Bullet(items[i]);
    }
  }

  /** The section code of the source: a header, then up to ten lines, then
      the overflow line, appended to the note. */
  method AppendSection(msg: string, header: string, items: seq<string>, noun: string) returns (r: string)
    ensures r == msg + Section(header, items, noun)
  {
    var section := "";
    if items != [] {
      section := AppendLines(Heading(header), items, ShownCount(items));
      section := section + Overflow(items, noun);
    }
    r := msg + section;
  }

  datatype Notification = Notification(title: string, message: string, success: bool)

  /** The notification: counts of created and updated partners, the error
      count only when there are errors, and success exactly when there are none. */
  function Notify(t: Tally): (n: Notification)
    ensures n.title == "Import Completato"
    ensures n.success <==> |t.errors| == 0
    ensures var head := "Creati: " + NatToString(|t.created|) + ", Aggiornati: " + NatToString(|t.updated|);
      n.message == head + (if |t.errors| > 0 then ", Errori: " + NatToString(|t.errors|) else "")
  {
    var msg := "Creati: " + NatToString(|t.created|) + ", Aggiornati: " + NatToString(|t.updated|);
    Notification("Import Completato", if |t.errors| > 0 then msg + ", Errori: " + NatToString(|t.errors|) else msg, |t.errors| == 0)
  }

  /** The counts in the notification can be read back. */
  lemma NotifyReadsBack(t: Tally)
    ensures DecimalValue(NatToString(|t.created|)) == |t.created|
    ensures DecimalValue(NatToString(|t.updated|)) == |t.updated|
    ensures DecimalValue(NatToString(|t.errors|)) == |t.errors|
  {
    NatToStringValue(|t.created|);
    NatToStringValue(|t.updated|);
    NatToStringValue(|t.errors|);
  }

  // ---------------------------------------------------------------------
  // The wizard

  class ImportWizard {
    var note: string

    constructor()
      ensures note == ""
    {
      note := "";
    }

    /** `_import_partners` on parsed rows: prepare and upsert each row,
        counting a row that raises as an error and going on, then write the
        note and return the notification. */
    method ImportPartners(rows: seq<Row>, faults: seq<HostFaults>, lk: Lookups, table: PartnerTable) returns (n: Notification)
      requires |faults| == |rows| && table.Valid()
      modifies this, table
      ensures table.Valid()
      ensures var r := ImportRun(rows, faults, lk, RunState(Tally([], [], []), old(table.records), old(table.nextId)));
        && table.records == r.records && table.nextId == r.nextId
        && note == ResultNote(r.tally) && n == Notify(r.tally)
    {
      var created: seq<string> := [];
      var updated: seq<string> := [];
      var errors: seq<string> := [];
      ghost var st0 := RunState(Tally([], [], []), table.records, table.nextId);
      for i := 0 to |rows|
        invariant table.Valid()
        invariant RunState(Tally(created, updated, errors), table.records, table.nextId)
               == ImportUpTo(rows, PrepareAll(rows, lk), faults, st0, i)
      {
        var row := rows[i];
        var prepared := PreparePartner(row, lk);
        match prepared {
          case Fail(m) =>
            errors := errors + [RowError(i + 2, row, m)];
          case Ok(d) =>
            var outcome := table.CreateOrUpdate(d, faults[i]);
            match outcome {
              case Fail(m) =>
                errors := errors + [RowError(i + 2, row, m)];
              case Ok(action) =>
                if action == Created {
                  created := created + [Label(d)];
                } else {
                  updated := updated + [Label(d)];
                }
            }
        }
      }
      var t := Tally(created, updated, errors);
      var msg := "Import completed:\n";
      msg := msg + "- Partner creati: " + NatToString(|created|) + "\n";
      msg := msg + "- Partner aggiornati: " + NatToString(|updated|) + "\n";
      msg := msg + "- Errori: " + NatToString(|errors|) + "\n";
      msg := AppendSection(msg, "Partner creati", created, "partner creati");
      msg := AppendSection(msg, "Partner aggiornati", updated, "partner aggiornati");
      msg := AppendSection(msg, "Errori riscontrati", errors, "errori");
      note := msg;
      n := Notify(t);
    }
  }
}
