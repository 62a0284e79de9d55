/**
 * Creating or updating one prepared partner (wizard.py:1364-1416) and
 * writing its VAT number and fiscal code afterwards with direct SQL
 * (wizard.py:1418-1476). The stored partners are a table the import
 * changes in place; what the database refuses is an input.
 */
module PartnerUpsert {
  import opened Common
  import opened PartnerModel
  import opened PartnerImport

  /** What became of one direct SQL write: done, or refused with the
      database's error text. */
  datatype WriteResult = Written | Refused(reason: string)

  /** The database's answers for one upsert: whether the ORM write of an
      existing partner raises, the error an ORM create raises if any, and
      the outcome of the VAT and fiscal-code writes. */
  datatype HostFaults = HostFaults(writeFails: bool, createError: Option<string>, vatWrite: WriteResult, cfWrite: WriteResult)

  /** The answers of a database that accepts everything. */
  const NoFaults := HostFaults(false, None, Written, Written)

  datatype Action = Created | Updated

  // ---------------------------------------------------------------------
  // Notes appended to the comment (wizard.py:1436-1446, 1462-1472)

  /** `CASE WHEN comment IS NULL OR comment = '' THEN msg ELSE comment || msg END`. */
  function AppendComment(vals: map<Field, Value>, msg: string): (r: map<Field, Value>)
    ensures TextField(r, Comment) == TextField(vals, Comment) + msg
    ensures forall f | f != Comment :: (f in r <==> f in vals) && (f in r ==> r[f] == vals[f])
  {
    var c := TextField(vals, Comment);
    vals[Comment := Text(if c == "" then msg else c + msg)]
  }

  function VatMessage(reason: string): string {
    "Partita IVA non valida: " + reason + "\n"
  }

  /** The fiscal-code note quotes the value that was refused. */
  function CfMessage(cf: Value): string {
    "Codice Fiscale non valido: " + (if cf.Text? then cf.s else "") + "\n"
  }

  /** The value popped from the prepared data, when it is truthy. */
  predicate Given(v: Option<Value>) {
    v.Some? && Truthy(v.value)
  }

  // ---------------------------------------------------------------------
  // The VAT and fiscal-code writes

  /** `_update_partner_vat_cf_sql` as written, on the new partner's values.
      The VAT write is committed on success; on refusal it is rolled back
      and a note is appended but not committed. A refused fiscal-code
      write rolls back to the last commit, so it also discards that
      uncommitted VAT note. */
  function HatchAsWritten(vals: map<Field, Value>, vat: Option<Value>, cf: Option<Value>, vw: WriteResult, cw: WriteResult): map<Field, Value> {
    // the last committed state, and the state the next statement sees
    var committed := if Given(vat) && vw.Written? then vals[Vat := vat.value] else vals;
    var working :=
      if !Given(vat) then vals
      else match vw
        case Written => vals[Vat := vat.value]
        case Refused(e) => AppendComment(vals, VatMessage(e));
    if !Given(cf) then working
    else match cw
      case Written => working[CodiceFiscale := cf.value]
      case Refused(_) => AppendComment(committed, CfMessage(cf.value))
  }

  /** One field written, or its refusal noted in the comment. */
  function WriteOrNote(vals: map<Field, Value>, f: Field, v: Option<Value>, w: WriteResult, msg: string): map<Field, Value> {
    if !Given(v) then vals
    else match w
      case Written => vals[f := v.value]
      case Refused(_) => AppendComment(vals, msg)
  }

  /** The note a refused VAT write leaves. */
  function VatNote(vat: Option<Value>, vw: WriteResult): string {
    if Given(vat) && vw.Refused? then VatMessage(vw.reason) else ""
  }

  /** The note a refused fiscal-code write leaves. */
  function CfNote(cf: Option<Value>, cw: WriteResult): string {
    if Given(cf) && cw.Refused? then CfMessage(cf.value) else ""
  }

  /** The writes as the method's documentation describes them: each value
      is written, or its refusal is appended to the comment, and both
      notes survive when both are refused. */
  function Hatch(vals: map<Field, Value>, vat: Option<Value>, cf: Option<Value>, vw: WriteResult, cw: WriteResult): map<Field, Value> {
    var v1 := WriteOrNote(vals, Vat, vat, vw, VatMessage(if vw.Refused? then vw.reason else ""));
    WriteOrNote(v1, CodiceFiscale, cf, cw, if Given(cf) then CfMessage(cf.value) else "")
  }

  /** Each value is written or its refusal noted, in that order, and no
      other field changes. */
  lemma HatchSpec(vals: map<Field, Value>, vat: Option<Value>, cf: Option<Value>, vw: WriteResult, cw: WriteResult)
    ensures var r := Hatch(vals, vat, cf, vw, cw);
      && TextField(r, Comment) == TextField(vals, Comment) + VatNote(vat, vw) + CfNote(cf, cw)
      && (Given(vat) && vw.Written? ==> Vat in r && r[Vat] == vat.value)
      && (!(Given(vat) && vw.Written?) ==> (Vat in r <==> Vat in vals) && (Vat in r ==> r[Vat] == vals[Vat]))
      && (Given(cf) && cw.Written? ==> CodiceFiscale in r && r[CodiceFiscale] == cf.value)
      && (!(Given(cf) && cw.Written?) ==>
            (CodiceFiscale in r <==> CodiceFiscale in vals) && (CodiceFiscale in r ==> r[CodiceFiscale] == vals[CodiceFiscale]))
      && (forall f | f !in {Vat, CodiceFiscale, Comment} :: (f in r <==> f in vals) && (f in r ==> r[f] == vals[f]))
  {
    var v1 := WriteOrNote(vals, Vat, vat, vw, VatMessage(if vw.Refused? then vw.reason else ""));
    assert TextField(v1, Comment) == TextField(vals, Comment) + VatNote(vat, vw);
  }

  /** The two versions agree unless both writes are refused. */
  lemma HatchAsWrittenAgrees(vals: map<Field, Value>, vat: Option<Value>, cf: Option<Value>, vw: WriteResult, cw: WriteResult)
    requires !(Given(vat) && vw.Refused? && Given(cf) && cw.Refused?)
    ensures HatchAsWritten(vals, vat, cf, vw, cw) == Hatch(vals, vat, cf, vw, cw)
  {
  }

  /** When both are refused, the code as written keeps only the
      fiscal-code note: the VAT note is lost. */
  lemma HatchAsWrittenLosesVatNote(vals: map<Field, Value>, vat: Option<Value>, cf: Option<Value>, vw: WriteResult, cw: WriteResult)
    requires Given(vat) && vw.Refused? && Given(cf) && cw.Refused?
    ensures TextField(HatchAsWritten(vals, vat, cf, vw, cw), Comment) == TextField(vals, Comment) + CfMessage(cf.value)
    ensures TextField(Hatch(vals, vat, cf, vw, cw), Comment)
         == TextField(vals, Comment) + VatMessage(vw.reason) + CfMessage(cf.value)
    ensures HatchAsWritten(vals, vat, cf, vw, cw) != Hatch(vals, vat, cf, vw, cw)
  {
    assert |TextField(HatchAsWritten(vals, vat, cf, vw, cw), Comment)| < |TextField(Hatch(vals, vat, cf, vw, cw), Comment)|;
  }

  // ---------------------------------------------------------------------
  // Finding the existing partner (wizard.py:1374-1381)

  /** The search domain: by code when the data has one, else by name. */
  function SearchKey(data: map<Field, Value>): Option<(Field, Value)> {
    if Ref in data then Some((Ref, data[Ref]))
    else if Name in data then Some((Name, data[Name]))
    else None
  }

  /** The first stored partner whose field `f` equals `v` (`search(domain, limit=1)`). */
  function FindFirst(records: seq<Partner>, f: Field, v: Value): (r: Option<nat>)
    ensures r.Some? ==> r.value < |records| && f in records[r.value].vals && records[r.value].vals[f] == v
    decreases |records|
  {
    if |records| == 0 then None
    else if f in records[|records| - 1].vals && records[|records| - 1].vals[f] == v then
      match FindFirst(records[..|records| - 1], f, v)
      case Some(i) => Some(i)
      case None => Some(|records| - 1)
    else FindFirst(records[..|records| - 1], f, v)
  }

  /** Nothing before what is found matches, and nothing is found exactly
      when nothing matches. */
  lemma {:induction false} FindFirstSpec(records: seq<Partner>, f: Field, v: Value)
    ensures var r := FindFirst(records, f, v);
      && (r.Some? ==> forall j | 0 <= j < r.value :: !(f in records[j].vals && records[j].vals[f] == v))
      && (r.None? <==> forall j | 0 <= j < |records| :: !(f in records[j].vals && records[j].vals[f] == v))
    decreases |records|
  {
    if |records| > 0 {
      var init := records[..|records| - 1];
      FindFirstSpec(init, f, v);
      assert forall j | 0 <= j < |init| :: records[j] == init[j];
    }
  }

  // ---------------------------------------------------------------------
  // The upsert as a function of the table

  datatype UpsertResult = UpsertResult(outcome: Outcome<Action>, records: seq<Partner>, nextId: nat)

  /** The prepared data without VAT and fiscal code, which are written apart. */
  function Popped(data: map<Field, Value>): map<Field, Value> {
    data - {Vat, CodiceFiscale}
  }

  function Pop(data: map<Field, Value>, f: Field): Option<Value> {
    if f in data then Some(data[f]) else None
  }

  /** `_create_or_update_partner`: write the popped data over the first
      partner found (a refused write is rolled back and still reported as
      an update), or create a partner with the next id and then write VAT
      and fiscal code. A missing name without a code raises KeyError, and
      a refused create raises; both come back as the wrapped error. */
  function UpsertSpec(records: seq<Partner>, nextId: nat, data: map<Field, Value>, faults: HostFaults): UpsertResult {
    var d := Popped(data);
    match SearchKey(d)
    case None => UpsertResult(Fail("Error creating/updating partner: 'name'"), records, nextId)
    case Some(key) =>
      match FindFirst(records, key.0, key.1)
      case Some(i) =>
        UpsertResult(Ok(Updated),
          if faults.writeFails then records else records[i := Partner(records[i].id, records[i].vals + d)],
          nextId)
      case None =>
        if faults.createError.Some? then
          UpsertResult(Fail("Error creating/updating partner: " + faults.createError.value), records, nextId)
        else
          var vals := Hatch(d, Pop(data, Vat), Pop(data, CodiceFiscale), faults.vatWrite, faults.cfWrite);
          UpsertResult(Ok(Created), records + [Partner(nextId, vals)], nextId + 1)
  }

  /** Ids are positive, below the next id, and distinct. */
  predicate IdsBelow(records: seq<Partner>, nextId: nat) {
    && 0 < nextId
    && (forall i | 0 <= i < |records| :: 0 < records[i].id < nextId)
    && (forall i, j | 0 <= i < j < |records| :: records[i].id != records[j].id)
  }

  /** The code a prepared record is searched by. */
  predicate HasCode(data: map<Field, Value>) {
    Ref in data && data[Ref].Text? && data[Ref].s != ""
  }

  /** The upsert keeps the ids well formed. */
  lemma UpsertKeepsIds(records: seq<Partner>, nextId: nat, data: map<Field, Value>, faults: HostFaults)
    requires IdsBelow(records, nextId)
    ensures var u := UpsertSpec(records, nextId, data, faults);
      IdsBelow(u.records, u.nextId) && nextId <= u.nextId
  {
    var u := UpsertSpec(records, nextId, data, faults);
    if |u.records| == |records| + 1 {
      var n := |records|;
      assert u.records[..n] == records && u.records[n].id == nextId && u.nextId == nextId + 1;
      forall i, j | 0 <= i < j < |u.records| ensures u.records[i].id != u.records[j].id {
        if j < n {
          assert u.records[i] == records[i] && u.records[j] == records[j];
        } else {
          assert u.records[i] == records[i];
        }
      }
    } else {
      assert |u.records| == |records| && u.nextId == nextId;
      forall i | 0 <= i < |records| ensures u.records[i].id == records[i].id {
      }
    }
  }

  /** A record with a code creates a partner exactly when no stored partner
      has that code; the table grows by one then and keeps its size
      otherwise. */
  lemma UpsertCreatesIffNew(records: seq<Partner>, nextId: nat, data: map<Field, Value>, faults: HostFaults)
    requires HasCode(data) && faults.createError.None?
    ensures var u := UpsertSpec(records, nextId, data, faults);
      && u.outcome.Ok?
      && (u.outcome.value == Created <==> forall j | 0 <= j < |records| :: RefOf(records[j]) != data[Ref].s)
      && |u.records| == |records| + (if u.outcome.value == Created then 1 else 0)
  {
    var d := Popped(data);
    assert SearchKey(d) == Some((Ref, data[Ref]));
    var found := FindFirst(records, Ref, data[Ref]);
    FindFirstSpec(records, Ref, data[Ref]);
    if found.None? {
      forall j | 0 <= j < |records| ensures RefOf(records[j]) != data[Ref].s {
        assert !(Ref in records[j].vals && records[j].vals[Ref] == data[Ref]);
      }
    } else {
      assert RefOf(records[found.value]) == data[Ref].s;
    }
  }

  /** Every code is unchanged when the upsert creates nothing. */
  lemma UpsertKeepsRefs(records: seq<Partner>, nextId: nat, data: map<Field, Value>, faults: HostFaults)
    requires UpsertSpec(records, nextId, data, faults).outcome != Ok(Created)
    ensures var u := UpsertSpec(records, nextId, data, faults);
      |u.records| == |records|
      && forall j | 0 <= j < |records| :: RefOf(u.records[j]) == RefOf(records[j]) && u.records[j].id == records[j].id
  {
    var d := Popped(data);
    if SearchKey(d).Some? {
      var key := SearchKey(d).value;
      var found := FindFirst(records, key.0, key.1);
      if found.Some? && !faults.writeFails {
        var i := found.value;
        var u := UpsertSpec(records, nextId, data, faults);
        assert key.0 == Ref ==> records[i].vals[Ref] == d[Ref];
        assert RefOf(u.records[i]) == RefOf(records[i]);
      }
    }
  }

  /** A created partner carries the code of the data, if any, and no
      stored partner had it. */
  lemma UpsertCreatesFreshRef(records: seq<Partner>, nextId: nat, data: map<Field, Value>, faults: HostFaults)
    requires Ref in data ==> data[Ref].Text?
    requires UpsertSpec(records, nextId, data, faults).outcome == Ok(Created)
    ensures var u := UpsertSpec(records, nextId, data, faults);
      && u.records[..|records|] == records && |u.records| == |records| + 1
      && u.records[|records|].id == nextId
      && (RefOf(u.records[|records|]) == "" || forall j | 0 <= j < |records| :: RefOf(records[j]) != RefOf(u.records[|records|]))
  {
    var u := UpsertSpec(records, nextId, data, faults);
    var n := |records|;
    var p := u.records[n];
    if Ref in data {
      assert RefOf(p) == data[Ref].s;
      assert SearchKey(Popped(data)) == Some((Ref, data[Ref]));
      FindFirstSpec(records, Ref, data[Ref]);
      if RefOf(p) != "" {
        forall j | 0 <= j < n ensures RefOf(records[j]) != RefOf(p) {
          assert !(Ref in records[j].vals && records[j].vals[Ref] == data[Ref]);
        }
      }
    } else {
      assert RefOf(p) == "";
    }
  }

  /** An update found the partner by its code, so the code does not change,
      and a created partner's code was new: the codes of all partners stay
      distinct. */
  lemma UpsertKeepsRefsDistinct(records: seq<Partner>, nextId: nat, data: map<Field, Value>, faults: HostFaults)
    requires IdsBelow(records, nextId) && RefsDistinct(records)
    requires Ref in data ==> data[Ref].Text?
    ensures RefsDistinct(UpsertSpec(records, nextId, data, faults).records)
  {
    var u := UpsertSpec(records, nextId, data, faults);
    if u.outcome == Ok(Created) {
      UpsertCreatesFreshRef(records, nextId, data, faults);
      var n := |records|;
      forall i, j | 0 <= i < |u.records| && 0 <= j < |u.records| && u.records[i].id != u.records[j].id && RefOf(u.records[i]) != ""
        ensures RefOf(u.records[i]) != RefOf(u.records[j])
      {
        if i < n && j < n {
          assert u.records[i] == records[i] && u.records[j] == records[j];
        } else if i < n {
          assert u.records[i] == records[i];
        } else if j < n {
          assert u.records[j] == records[j];
        }
      }
    } else {
      UpsertKeepsRefs(records, nextId, data, faults);
    }
  }

  /** Writing the same values twice is writing them once. */
  lemma MergeTwice(v: map<Field, Value>, d: map<Field, Value>)
    ensures (v + d) + d == v + d
  {
  }

  /** Without refusals, a created partner already holds the popped data. */
  lemma CreatedHoldsData(data: map<Field, Value>)
    ensures var d := Popped(data);
      Hatch(d, Pop(data, Vat), Pop(data, CodiceFiscale), Written, Written) + d
      == Hatch(d, Pop(data, Vat), Pop(data, CodiceFiscale), Written, Written)
  {
    var d := Popped(data);
    var h := Hatch(d, Pop(data, Vat), Pop(data, CodiceFiscale), Written, Written);
    assert TextField(h, Comment) == TextField(d, Comment);
    assert forall f | f in d :: f in h && h[f] == d[f];
  }

  /** Upserting the same record a second time, when the database accepted
      everything the first time and accepts the write now, finds the
      partner by its code, reports an update and changes nothing. */
  lemma UpsertAgainChangesNothing(records: seq<Partner>, nextId: nat, data: map<Field, Value>, again: HostFaults)
    requires HasCode(data) && !again.writeFails
    ensures var u := UpsertSpec(records, nextId, data, NoFaults);
      var w := UpsertSpec(u.records, u.nextId, data, again);
      w.outcome == Ok(Updated) && w.records == u.records && w.nextId == u.nextId
  {
    var u := UpsertSpec(records, nextId, data, NoFaults);
    var d := Popped(data);
    assert SearchKey(d) == Some((Ref, data[Ref]));
    var found := FindFirst(records, Ref, data[Ref]);
    FindFirstSpec(records, Ref, data[Ref]);
    var k: nat;
    if found.None? {
      var n := |records|;
      CreatedHoldsData(data);
      assert u.records[n].vals[Ref] == data[Ref];
      FindFirstSpec(u.records, Ref, data[Ref]);
      k := FindFirst(u.records, Ref, data[Ref]).value;
      assert k == n;
      assert u.records[k].vals + d == u.records[k].vals;
    } else {
      var i := found.value;
      assert u.records[i].vals[Ref] == data[Ref];
      FindFirstSpec(u.records, Ref, data[Ref]);
      k := FindFirst(u.records, Ref, data[Ref]).value;
      assert k == i;
      MergeTwice(records[i].vals, d);
    }
    assert u.records[k := Partner(u.records[k].id, u.records[k].vals + d)] == u.records;
  }

  /** An update never writes VAT number or fiscal code: they are popped
      and only written for created partners. */
  lemma UpdateKeepsVatAndCf(records: seq<Partner>, nextId: nat, data: map<Field, Value>, faults: HostFaults, i: int)
    requires 0 <= i < |records|
    requires UpsertSpec(records, nextId, data, faults).outcome == Ok(Updated)
    ensures var u := UpsertSpec(records, nextId, data, faults);
      && (Vat in u.records[i].vals <==> Vat in records[i].vals)
      && (Vat in records[i].vals ==> u.records[i].vals[Vat] == records[i].vals[Vat])
      && (CodiceFiscale in u.records[i].vals <==> CodiceFiscale in records[i].vals)
      && (CodiceFiscale in records[i].vals ==> u.records[i].vals[CodiceFiscale] == records[i].vals[CodiceFiscale])
  {
  }

  // ---------------------------------------------------------------------
  // The stored partners as a mutable table

  class PartnerTable {
    var records: seq<Partner>
    var nextId: nat

    predicate Valid()
      reads this
    {
      IdsBelow(records, nextId)
    }

    constructor(initial: seq<Partner>, next: nat)
      requires IdsBelow(initial, next)
      ensures Valid() && records == initial && nextId == next
    {
      records := initial;
      nextId := next;
    }

    /** `_create_or_update_partner` on the table. */
    method CreateOrUpdate(data: map<Field, Value>, faults: HostFaults) returns (outcome: Outcome<Action>)
      requires Valid()
      modifies this
      ensures Valid()
      ensures var u := UpsertSpec(old(records), old(nextId), data, faults);
        outcome == u.outcome && records == u.records && nextId == u.nextId
    {
      UpsertKeepsIds(records, nextId, data, faults);
      var vat := if Vat in data then Some(data[Vat]) else None;
      var cf := if CodiceFiscale in data then Some(data[CodiceFiscale]) else None;
      var d := data - {Vat, CodiceFiscale};
      assert d == Popped(data) && vat == Pop(data, Vat) && cf == Pop(data, CodiceFiscale);
      var key: (Field, Value);
      if Ref in d {
        key := (Ref, d[Ref]);
      } else if Name in d {
        key := (Name, d[Name]);
      } else {
        return Fail("Error creating/updating partner: 'name'");
      }
      assert SearchKey(d) == Some(key);
      var existing := FindFirst(records, key.0, key.1);
      if existing.Some? {
        if !faults.writeFails {
          Write(existing.value, d);
        }
        return Ok(Updated);
      }
      if faults.createError.Some? {
        return Fail("Error creating/updating partner: " + faults.createError.value);
      }
      Create(d, vat, cf, faults);
      outcome := Ok(Created);
    }

    /** `write` of the popped data over the partner at position `i`. */
    method Write(i: nat, d: map<Field, Value>)
      requires i < |records|
      modifies this
      ensures records == old(records)[i := Partner(old(records)[i].id, old(records)[i].vals + d)]
      ensures nextId == old(nextId)
    {
      records := records[i := Partner(records[i].id, records[i].vals + d)];
    }

    /** `create` with the popped data, then the separate writes of VAT and
        fiscal code on the new partner. */
    method Create(d: map<Field, Value>, vat: Option<Value>, cf: Option<Value>, faults: HostFaults)
      modifies this
      ensures records == old(records) + [Partner(old(nextId), Hatch(d, vat, cf, faults.vatWrite, faults.cfWrite))]
      ensures nextId == old(nextId) + 1
    {
      var created := Partner(nextId, d);
      records := records + [created];
      nextId := nextId + 1;
      var n := |records| - 1;
      records := records[n := Partner(records[n].id, Hatch(records[n].vals, vat, cf, faults.vatWrite, faults.cfWrite))];
      assert records == old(records) + [Partner(old(nextId), Hatch(d, vat, cf, faults.vatWrite, faults.cfWrite))];
    }
  }
}
