/**
 * The partner import of the wizard (dbm/wizard/wizard.py): each CSV row
 * is turned into partner values in three passes over the column mapping
 * plus a finishing step, then created or updated by partner code, with
 * VAT number and fiscal code written afterwards on created partners; the
 * outcomes are tallied into a report.
 */
module PartnerImport {
  import opened Common
  import opened Normalise
  import opened PartnerModel

  /** A parsed CSV row: column header to cell text. */
  type Row = map<string, string>


  /** The column-to-field mapping of the partner import, in its order
      (wizard.py:214-230). Two columns feed the comment. */
  const Mapping: seq<(string, Field)> := [
    ("Codice", Ref), ("Nome Completo", Name), ("Indirizzo", Street), ("CAP", Zip),
    ("Città", City), ("Prov.", StateId), ("NAZIONE", CountryId), ("Partita IVA", Vat),
    ("Codice fiscale", CodiceFiscale), ("Num.tel.1", Phone), ("Cell.", Mobile),
    ("E-mail", Email), ("Internet", Website), ("Num.tel.2", Comment), ("Fax", Comment)]

  /** `col in row and row[col].strip()`. */
  predicate Nonblank(row: Row, col: string) {
    col in row && Strip(row[col]) != ""
  }

  /** The stripped cell, "" when the column is missing. */
  function Cell(row: Row, col: string): string {
    if col in row then Strip(row[col]) else ""
  }

  // ---------------------------------------------------------------------
  // Lookups the host database answers

  /** A `res.country.state` record. */
  datatype CountryState = CountryState(id: nat, code: string, country: nat)

  /** Countries by code, and the states in search order. */
  datatype Lookups = Lookups(countries: map<string, nat>, states: seq<CountryState>)

  /** The first state with `code`, within `country` when one is given
      (wizard.py:1273-1283). */
  function FindState(states: seq<CountryState>, code: string, country: Option<nat>): (r: Option<CountryState>)
    ensures r.Some? ==> r.value in states && r.value.code == code && (country.Some? ==> r.value.country == country.value)
    ensures r.None? ==> forall i | 0 <= i < |states| ::
              !(states[i].code == code && (country.None? || states[i].country == country.value))
    ensures r.Some? ==> exists i | 0 <= i < |states| ::
              && states[i] == r.value
              && forall j | 0 <= j < i :: !(states[j].code == code && (country.None? || states[j].country == country.value))
  {
    if |states| == 0 then None
    else if states[0].code == code && (country.None? || states[0].country == country.value) then Some(states[0])
    else
      var r := FindState(states[1..], code, country);
      assert forall i | 1 <= i < |states| :: states[i] == states[1..][i - 1];
      if r.Some? then
        var k :| 0 <= k < |states[1..]| && states[1..][k] == r.value
                 && forall j | 0 <= j < k :: !(states[1..][j].code == code && (country.None? || states[1..][j].country == country.value));
        assert states[k + 1] == r.value;
        r
      else r
  }

  // ---------------------------------------------------------------------
  // The three passes of `_prepare_partner_data` (wizard.py:1243-1303)

  /** What the first pass writes for one mapping entry: the country found
      by code, a five-digit postal code, or the stripped text; nothing for
      state, VAT and phone, left to the later passes. */
  function FirstPassValue(e: (string, Field), row: Row, lk: Lookups): Option<Value> {
    if !Nonblank(row, e.0) then None
    else
      var v := Cell(row, e.0);
      if e.1 == CountryId then (if v in lk.countries then Some(RecordId(lk.countries[v])) else None)
      else if e.1 == StateId || e.1 == Vat || e.1 == Phone then None
      else if e.1 == Zip then (if ZipAccepted(v) then Some(Text(v)) else None)
      else Some(Text(v))
  }

  function FirstPass(ms: seq<(string, Field)>, row: Row, lk: Lookups): map<Field, Value>
    decreases |ms|
  {
    if ms == [] then map[]
    else
      FirstPassApply(FirstPass(ms[..|ms| - 1], row, lk), ms[|ms| - 1], row, lk)
  }

  function FirstPassApply(d: map<Field, Value>, e: (string, Field), row: Row, lk: Lookups): map<Field, Value> {
    match FirstPassValue(e, row, lk)
    case Some(v) => d[e.1 := v]
    case None => d
  }

  /** The country the first pass found, if its id is truthy. */
  function CountryOf(d: map<Field, Value>): Option<nat> {
    if CountryId in d && d[CountryId].RecordId? && d[CountryId].id != 0 then Some(d[CountryId].id) else None
  }

  function SecondPassStep(d: map<Field, Value>, e: (string, Field), row: Row, lk: Lookups): map<Field, Value> {
    if Nonblank(row, e.0) && e.1 == StateId then
      match FindState(lk.states, Cell(row, e.0), CountryOf(d))
      case Some(st) => d[StateId := RecordId(st.id)]
      case None => d
    else d
  }

  function SecondPass(ms: seq<(string, Field)>, d0: map<Field, Value>, row: Row, lk: Lookups): map<Field, Value>
    decreases |ms|
  {
    if ms == [] then d0
    else SecondPassStep(SecondPass(ms[..|ms| - 1], d0, row, lk), ms[|ms| - 1], row, lk)
  }

  function ThirdPassStep(d: map<Field, Value>, e: (string, Field), row: Row): map<Field, Value> {
    if Nonblank(row, e.0) && (e.1 == Vat || e.1 == Phone) && !(e.1 in d && Truthy(d[e.1])) then
      d[e.1 := Text(Cell(row, e.0))]
    else d
  }

  function ThirdPass(ms: seq<(string, Field)>, d0: map<Field, Value>, row: Row): map<Field, Value>
    decreases |ms|
  {
    if ms == [] then d0
    else ThirdPassStep(ThirdPass(ms[..|ms| - 1], d0, row), ms[|ms| - 1], row)
  }

  /** The values collected by the three passes. */
  function Collected(row: Row, lk: Lookups): map<Field, Value> {
    ThirdPass(Mapping, SecondPass(Mapping, FirstPass(Mapping, row, lk), row, lk), row)
  }

  // ---------------------------------------------------------------------
  // Defaults and validation (wizard.py:1305-1360)

  /** The comment parts for the second phone and the fax. */
  function Notes(row: Row): seq<string> {
    (if Nonblank(row, "Num.tel.2") then ["Num.tel.2: " + Cell(row, "Num.tel.2")] else [])
    + (if Nonblank(row, "Fax") then ["Fax: " + Cell(row, "Fax")] else [])
  }

  /** `', '.join(parts)`. */
  function JoinComma(parts: seq<string>): string
    decreases |parts|
  {
    if |parts| == 0 then "" else if |parts| == 1 then parts[0] else parts[0] + ", " + JoinComma(parts[1..])
  }

  /** A missing or blank name falls back to the code (wizard.py:1305-1307). */
  function WithDefaultName(d: map<Field, Value>): map<Field, Value> {
    if Name !in d || Strip(TextField(d, Name)) == "" then
      d[Name := if Ref in d then d[Ref] else Text("N/A")]
    else d
  }

  /** The fixed company values, Italy as country when it exists, and the
      comment built from the second phone and the fax (wizard.py:1341-1360). */
  function Completed(d: map<Field, Value>, row: Row, lk: Lookups): map<Field, Value> {
    var d4 := d[IsCompany := Flag(true)][CompanyType := Text("company")];
    var d5 := if "IT" in lk.countries then d4[CountryId := RecordId(lk.countries["IT"])] else d4;
    if Notes(row) != [] then d5[Comment := Text(JoinComma(Notes(row)))] else d5
  }

  function Finish(d: map<Field, Value>, row: Row, lk: Lookups): Outcome<map<Field, Value>> {
    var d1 := WithDefaultName(d);
    if Ref !in d1 || Strip(TextField(d1, Ref)) == "" then Fail("Codice is required")
    else Ok(Completed(ValidateVat(ValidateEmail(d1, Email), Vat), row, lk))
  }

  /** `_prepare_partner_data` as a function of the row and the lookups. */
  function PrepareSpec(row: Row, lk: Lookups): Outcome<map<Field, Value>> {
    Finish(Collected(row, lk), row, lk)
  }

  /** `_prepare_partner_data` (wizard.py:1237-1362): the three passes over
      the mapping fill a dictionary in place, then defaults are set and
      invalid values deleted. */
  method PreparePartner(row: Row, lk: Lookups) returns (r: Outcome<map<Field, Value>>)
    ensures r == PrepareSpec(row, lk)
  {
    var data := RunFirstPass(Mapping, row, lk);
    data := RunSecondPass(Mapping, data, row, lk);
    data := RunThirdPass(Mapping, data, row);
    r := ApplyDefaults(data, row, lk);
  }

  /** The first loop over the mapping (wizard.py:1243-1271). */
  method RunFirstPass(ms: seq<(string, Field)>, row: Row, lk: Lookups) returns (data: map<Field, Value>)
    ensures data == FirstPass(ms, row, lk)
  {
    data := map[];
    for i := 0 to |ms|
      invariant data == FirstPass(ms[..i], row, lk)
    {
      data := FirstPassEntry(data, ms[i], row, lk);
      assert ms[..i + 1][..i] == ms[..i];
    }
    assert ms[..|ms|] == ms;
  }

  /** One turn of the first loop: the cell for one mapping entry. */
  method FirstPassEntry(data: map<Field, Value>, e: (string, Field), row: Row, lk: Lookups) returns (d: map<Field, Value>)
    ensures d == FirstPassApply(data, e, row, lk)
  {
    d := data;
    var col, field := e.0, e.1;
    if Nonblank(row, col) {
      var value := Cell(row, col);
      if field == CountryId {
        if value in lk.countries {
          d := d[CountryId := RecordId(lk.countries[value])];
        }
      } else if field != StateId && field != Vat && field != Phone {
        if field == Zip {
          if PyIsDigit(value) && |value| == 5 {
            d := d[Zip := Text(value)];
          }
        } else {
          d := d[field := Text(value)];
        }
      }
    }
  }

  /** The second loop: the state, searched within the country when one
      was found (wizard.py:1273-1284). */
  method RunSecondPass(ms: seq<(string, Field)>, d0: map<Field, Value>, row: Row, lk: Lookups)
    returns (data: map<Field, Value>)
    ensures data == SecondPass(ms, d0, row, lk)
  {
    data := d0;
    for i := 0 to |ms|
      invariant data == SecondPass(ms[..i], d0, row, lk)
    {
      var col, field := ms[i].0, ms[i].1;
      if Nonblank(row, col) && field == StateId {
        var value := Cell(row, col);
        var state := FindState(lk.states, value, CountryOf(data));
        if state.Some? {
          data := data[StateId := RecordId(state.value.id)];
        }
      }
      assert ms[..i + 1][..i] == ms[..i];
    }
    assert ms[..|ms|] == ms;
  }

  /** The third loop: VAT and phone, unless already set (wizard.py:1286-1303). */
  method RunThirdPass(ms: seq<(string, Field)>, d0: map<Field, Value>, row: Row) returns (data: map<Field, Value>)
    ensures data == ThirdPass(ms, d0, row)
  {
    data := d0;
    for i := 0 to |ms|
      invariant data == ThirdPass(ms[..i], d0, row)
    {
      ghost var before := data;
      var col, field := ms[i].0, ms[i].1;
      if Nonblank(row, col) {
        var value := Cell(row, col);
        if field == Vat && !(Vat in data && Truthy(data[Vat])) {
          data := data[Vat := Text(value)];
        } else if field == Phone && !(Phone in data && Truthy(data[Phone])) {
          data := data[Phone := Text(value)];
        }
      }
      assert data == ThirdPassStep(before, ms[i], row);
      assert ms[..i + 1][..i] == ms[..i];
    }
    assert ms[..|ms|] == ms;
  }

  /** Defaults, the required code, and the deletion of invalid e-mail and
      VAT values (wizard.py:1305-1360). */
  method ApplyDefaults(d: map<Field, Value>, row: Row, lk: Lookups) returns (r: Outcome<map<Field, Value>>)
    ensures r == Finish(d, row, lk)
  {
    var data := d;
    if Name !in data || Strip(TextField(data, Name)) == "" {
      data := data[Name := if Ref in data then data[Ref] else Text("N/A")];
    }
    if Ref !in data || Strip(TextField(data, Ref)) == "" {
      return Fail("Codice is required");
    }
    if Email in data && data[Email].Text? && data[Email].s != "" && !EmailAccepted(data[Email].s) {
      data := data - {Email};
    }
    if Vat in data && data[Vat].Text? && data[Vat].s != "" && !VatAccepted(data[Vat].s) {
      data := data - {Vat};
    }
    data := Complete(data, row, lk);
    r := Ok(data);
  }

  /** The company flags, Italy as country and the comment from the second
      phone and the fax (wizard.py:1341-1360). */
  method Complete(d: map<Field, Value>, row: Row, lk: Lookups) returns (data: map<Field, Value>)
    ensures data == Completed(d, row, lk)
  {
    data := d[IsCompany := Flag(true)];
    data := data[CompanyType := Text("company")];
    if "IT" in lk.countries {
      data := data[CountryId := RecordId(lk.countries["IT"])];
    }
    var notes: seq<string> := [];
    if Nonblank(row, "Num.tel.2") {
      notes := notes + ["Num.tel.2: " + Cell(row, "Num.tel.2")];
    }
    if Nonblank(row, "Fax") {
      notes := notes + ["Fax: " + Cell(row, "Fax")];
    }
    if notes != [] {
      data := data[Comment := Text(JoinComma(notes))];
    }
  }

  // ---------------------------------------------------------------------
  // What a row yields, field by field

  /** The stripped cell as text, when it is not blank. */
  function Plain(row: Row, col: string): Option<Value> {
    if Nonblank(row, col) then Some(Text(Cell(row, col))) else None
  }

  /** The country the first pass finds from the NAZIONE column. */
  function RowCountry(row: Row, lk: Lookups): Option<Value> {
    if Nonblank(row, "NAZIONE") && Cell(row, "NAZIONE") in lk.countries then
      Some(RecordId(lk.countries[Cell(row, "NAZIONE")]))
    else None
  }

  /** The truthy id of that country, which narrows the state search. */
  function RowCountryId(row: Row, lk: Lookups): Option<nat> {
    match RowCountry(row, lk)
    case Some(v) => if v.RecordId? && v.id != 0 then Some(v.id) else None
    case None => None
  }

  /** The value each field of a prepared partner has, stated column by
      column: an independent reading of `_prepare_partner_data`. */
  function PreparedField(row: Row, lk: Lookups, f: Field): Option<Value> {
    match f
    case Ref => Plain(row, "Codice")
    case Name => if Nonblank(row, "Nome Completo") then Plain(row, "Nome Completo") else Plain(row, "Codice")
    case Street => Plain(row, "Indirizzo")
    case Zip => if Nonblank(row, "CAP") && ZipAccepted(Cell(row, "CAP")) then Plain(row, "CAP") else None
    case City => Plain(row, "Città")
    case StateId =>
      if Nonblank(row, "Prov.") then
        match FindState(lk.states, Cell(row, "Prov."), RowCountryId(row, lk))
        case Some(st) => Some(RecordId(st.id))
        case None => None
      else None
    case CountryId => if "IT" in lk.countries then Some(RecordId(lk.countries["IT"])) else RowCountry(row, lk)
    case Vat => if Nonblank(row, "Partita IVA") && VatAccepted(Cell(row, "Partita IVA")) then Plain(row, "Partita IVA") else None
    case CodiceFiscale => Plain(row, "Codice fiscale")
    case Phone => Plain(row, "Num.tel.1")
    case Mobile => Plain(row, "Cell.")
    case Email => if Nonblank(row, "E-mail") && EmailAccepted(Cell(row, "E-mail")) then Plain(row, "E-mail") else None
    case Website => Plain(row, "Internet")
    case Comment => if Notes(row) != [] then Some(Text(JoinComma(Notes(row)))) else None
    case IsCompany => Some(Flag(true))
    case CompanyType => Some(Text("company"))
  }

  /** What the passes collect before defaults and validation. */
  function CollectedField(row: Row, lk: Lookups, f: Field): Option<Value> {
    match f
    case Zip => if Nonblank(row, "CAP") && ZipAccepted(Cell(row, "CAP")) then Plain(row, "CAP") else None
    case StateId => PreparedField(row, lk, StateId)
    case CountryId => RowCountry(row, lk)
    case Comment => if Nonblank(row, "Fax") then Plain(row, "Fax") else Plain(row, "Num.tel.2")
    case IsCompany => None
    case CompanyType => None
    case _ => Plain(row, ColumnOf(f))
  }

  /** The column of a field fed by one column. */
  function ColumnOf(f: Field): string {
    match f
    case Ref => "Codice"
    case Name => "Nome Completo"
    case Street => "Indirizzo"
    case Zip => "CAP"
    case City => "Città"
    case StateId => "Prov."
    case CountryId => "NAZIONE"
    case Vat => "Partita IVA"
    case CodiceFiscale => "Codice fiscale"
    case Phone => "Num.tel.1"
    case Mobile => "Cell."
    case Email => "E-mail"
    case Website => "Internet"
    case _ => ""
  }

  /** Every field but the comment and the company flags is fed by exactly
      one mapping entry, the one reading its column. */
  lemma MappingEntry(f: Field)
    requires f !in {Comment, IsCompany, CompanyType}
    ensures 0 <= EntryOf(f) < |Mapping| && Mapping[EntryOf(f)] == (ColumnOf(f), f)
    ensures forall j | 0 <= j < |Mapping| :: Mapping[j].1 == f ==> j == EntryOf(f)
  {
    var k := EntryOf(f);
    assert k == 0 || k == 1 || k == 2 || k == 3 || k == 4 || k == 5 || k == 6 || k == 7
        || k == 8 || k == 9 || k == 10 || k == 11 || k == 12;
    forall j | 0 <= j < |Mapping| && Mapping[j].1 == f ensures j == k {
      assert j == 0 || j == 1 || j == 2 || j == 3 || j == 4 || j == 5 || j == 6 || j == 7
          || j == 8 || j == 9 || j == 10 || j == 11 || j == 12 || j == 13 || j == 14;
    }
  }

  /** What the first pass reads for a field it writes from its column. */
  lemma FirstPassValueOf(row: Row, lk: Lookups, f: Field)
    requires f !in {Comment, IsCompany, CompanyType, StateId, Vat, Phone}
    ensures FirstPassValue((ColumnOf(f), f), row, lk) == CollectedField(row, lk, f)
  {
  }

  // ---------------------------------------------------------------------
  // How each pass treats one field

  /** A field no entry writes in the first pass stays unset. */
  lemma {:induction false} FirstPassUnset(ms: seq<(string, Field)>, row: Row, lk: Lookups, f: Field)
    requires forall j | 0 <= j < |ms| :: ms[j].1 == f ==> FirstPassValue(ms[j], row, lk).None?
    ensures f !in FirstPass(ms, row, lk)
  {
    if ms != [] {
      FirstPassUnset(ms[..|ms| - 1], row, lk, f);
    }
  }

  /** A field named by one entry gets what that entry writes. */
  lemma {:induction false} FirstPassSingle(ms: seq<(string, Field)>, row: Row, lk: Lookups, f: Field, k: int)
    requires 0 <= k < |ms| && ms[k].1 == f
    requires forall j | 0 <= j < |ms| :: ms[j].1 == f ==> j == k
    ensures f in FirstPass(ms, row, lk) <==> FirstPassValue(ms[k], row, lk).Some?
    ensures f in FirstPass(ms, row, lk) ==> FirstPass(ms, row, lk)[f] == FirstPassValue(ms[k], row, lk).value
  {
    var n := |ms| - 1;
    if k == n {
      FirstPassUnset(ms[..n], row, lk, f);
    } else {
      FirstPassSingle(ms[..n], row, lk, f, k);
    }
  }

  /** The second pass writes the state and nothing else. */
  lemma {:induction false} SecondPassFrame(ms: seq<(string, Field)>, d0: map<Field, Value>, row: Row, lk: Lookups)
    ensures forall f | f != StateId :: (f in SecondPass(ms, d0, row, lk) <==> f in d0)
              && (f in d0 ==> SecondPass(ms, d0, row, lk)[f] == d0[f])
    ensures CountryOf(SecondPass(ms, d0, row, lk)) == CountryOf(d0)
  {
    if ms != [] {
      SecondPassFrame(ms[..|ms| - 1], d0, row, lk);
    }
  }

  lemma {:induction false} SecondPassUnset(ms: seq<(string, Field)>, d0: map<Field, Value>, row: Row, lk: Lookups)
    requires StateId !in d0
    requires forall j | 0 <= j < |ms| :: ms[j].1 != StateId
    ensures StateId !in SecondPass(ms, d0, row, lk)
  {
    if ms != [] {
      SecondPassUnset(ms[..|ms| - 1], d0, row, lk);
    }
  }

  /** The state is looked up from the one entry naming it, within the
      country found in the first pass. */
  lemma {:induction false} SecondPassSingle(ms: seq<(string, Field)>, d0: map<Field, Value>, row: Row, lk: Lookups, k: int)
    requires StateId !in d0
    requires 0 <= k < |ms| && ms[k].1 == StateId
    requires forall j | 0 <= j < |ms| :: ms[j].1 == StateId ==> j == k
    ensures var r := SecondPass(ms, d0, row, lk);
      var found := FindState(lk.states, Cell(row, ms[k].0), CountryOf(d0));
      && (StateId in r <==> Nonblank(row, ms[k].0) && found.Some?)
      && (StateId in r ==> r[StateId] == RecordId(found.value.id))
  {
    var n := |ms| - 1;
    SecondPassFrame(ms[..n], d0, row, lk);
    if k == n {
      SecondPassUnset(ms[..n], d0, row, lk);
    } else {
      SecondPassSingle(ms[..n], d0, row, lk, k);
    }
  }

  /** The third pass writes VAT and phone and nothing else. */
  lemma {:induction false} ThirdPassFrame(ms: seq<(string, Field)>, d0: map<Field, Value>, row: Row)
    ensures forall f | f != Vat && f != Phone :: (f in ThirdPass(ms, d0, row) <==> f in d0)
              && (f in d0 ==> ThirdPass(ms, d0, row)[f] == d0[f])
  {
    if ms != [] {
      ThirdPassFrame(ms[..|ms| - 1], d0, row);
    }
  }

  lemma {:induction false} ThirdPassUnset(ms: seq<(string, Field)>, d0: map<Field, Value>, row: Row, f: Field)
    requires f !in d0
    requires forall j | 0 <= j < |ms| :: ms[j].1 != f
    ensures f !in ThirdPass(ms, d0, row)
  {
    if ms != [] {
      ThirdPassUnset(ms[..|ms| - 1], d0, row, f);
    }
  }

  /** VAT and phone get the stripped cell of the one entry naming them. */
  lemma {:induction false} ThirdPassSingle(ms: seq<(string, Field)>, d0: map<Field, Value>, row: Row, f: Field, k: int)
    requires f == Vat || f == Phone
    requires f !in d0
    requires 0 <= k < |ms| && ms[k].1 == f
    requires forall j | 0 <= j < |ms| :: ms[j].1 == f ==> j == k
    ensures f in ThirdPass(ms, d0, row) <==> Nonblank(row, ms[k].0)
    ensures f in ThirdPass(ms, d0, row) ==> ThirdPass(ms, d0, row)[f] == Text(Cell(row, ms[k].0))
  {
    var n := |ms| - 1;
    if k == n {
      ThirdPassUnset(ms[..n], d0, row, f);
    } else {
      ThirdPassSingle(ms[..n], d0, row, f, k);
    }
  }

  // ---------------------------------------------------------------------
  // The concrete mapping

  /** The mapping entry feeding a single-column field. */
  function EntryOf(f: Field): int {
    match f
    case Ref => 0
    case Name => 1
    case Street => 2
    case Zip => 3
    case City => 4
    case StateId => 5
    case CountryId => 6
    case Vat => 7
    case CodiceFiscale => 8
    case Phone => 9
    case Mobile => 10
    case Email => 11
    case Website => 12
    case _ => -1
  }

  /** No entry writes the company flags, and only the last two write the comment. */
  lemma MappingTargets()
    ensures forall j | 0 <= j < |Mapping| :: Mapping[j].1 != IsCompany && Mapping[j].1 != CompanyType
    ensures forall j | 0 <= j < 13 :: Mapping[j].1 != Comment
    ensures Mapping[13] == ("Num.tel.2", Comment) && Mapping[14] == ("Fax", Comment)
  {
    forall j | 0 <= j < |Mapping| ensures Mapping[j].1 != IsCompany && Mapping[j].1 != CompanyType {
      assert j == 0 || j == 1 || j == 2 || j == 3 || j == 4 || j == 5 || j == 6 || j == 7
          || j == 8 || j == 9 || j == 10 || j == 11 || j == 12 || j == 13 || j == 14;
    }
    forall j | 0 <= j < 13 ensures Mapping[j].1 != Comment {
      assert j == 0 || j == 1 || j == 2 || j == 3 || j == 4 || j == 5 || j == 6 || j == 7
          || j == 8 || j == 9 || j == 10 || j == 11 || j == 12;
    }
  }

  /** The passes collect for `f` what `CollectedField` describes. */
  predicate CollectsField(row: Row, lk: Lookups, f: Field) {
    && (f in Collected(row, lk) <==> CollectedField(row, lk, f).Some?)
    && (f in Collected(row, lk) ==> Collected(row, lk)[f] == CollectedField(row, lk, f).value)
  }

  /** The country found by the first pass is the one NAZIONE names. */
  lemma FirstPassCountry(row: Row, lk: Lookups)
    ensures CountryOf(FirstPass(Mapping, row, lk)) == RowCountryId(row, lk)
  {
    MappingEntry(CountryId);
    FirstPassSingle(Mapping, row, lk, CountryId, 6);
  }

  /** A field the first pass writes from its one column keeps that value. */
  lemma CollectedFromFirstPass(row: Row, lk: Lookups, f: Field)
    requires f !in {Comment, IsCompany, CompanyType, StateId, Vat, Phone}
    ensures CollectsField(row, lk, f)
  {
    var d1 := FirstPass(Mapping, row, lk);
    var d2 := SecondPass(Mapping, d1, row, lk);
    SecondPassFrame(Mapping, d1, row, lk);
    ThirdPassFrame(Mapping, d2, row);
    MappingEntry(f);
    FirstPassValueOf(row, lk, f);
    FirstPassSingle(Mapping, row, lk, f, EntryOf(f));
  }

  /** The comment holds the fax, or else the second phone. */
  lemma CollectedComment(row: Row, lk: Lookups)
    ensures CollectsField(row, lk, Comment)
  {
    var d1 := FirstPass(Mapping, row, lk);
    var d2 := SecondPass(Mapping, d1, row, lk);
    SecondPassFrame(Mapping, d1, row, lk);
    ThirdPassFrame(Mapping, d2, row);
    MappingTargets();
    var m13 := Mapping[..13];
    var m14 := Mapping[..14];
    assert m14[..13] == m13 && Mapping[..14] == m14 && m14[13] == Mapping[13];
    FirstPassUnset(m13, row, lk, Comment);
  }

  /** The passes leave the company flags unset. */
  lemma CollectedFlags(row: Row, lk: Lookups, f: Field)
    requires f == IsCompany || f == CompanyType
    ensures f !in Collected(row, lk)
  {
    var d1 := FirstPass(Mapping, row, lk);
    var d2 := SecondPass(Mapping, d1, row, lk);
    SecondPassFrame(Mapping, d1, row, lk);
    ThirdPassFrame(Mapping, d2, row);
    MappingTargets();
    FirstPassUnset(Mapping, row, lk, f);
  }

  /** The state is the one the second pass finds. */
  lemma CollectedState(row: Row, lk: Lookups)
    ensures CollectsField(row, lk, StateId)
  {
    var d1 := FirstPass(Mapping, row, lk);
    var d2 := SecondPass(Mapping, d1, row, lk);
    ThirdPassFrame(Mapping, d2, row);
    MappingEntry(StateId);
    FirstPassUnset(Mapping, row, lk, StateId);
    FirstPassCountry(row, lk);
    SecondPassSingle(Mapping, d1, row, lk, 5);
  }

  /** VAT and phone are the stripped cells the third pass writes. */
  lemma CollectedVatPhone(row: Row, lk: Lookups, f: Field)
    requires f == Vat || f == Phone
    ensures CollectsField(row, lk, f)
  {
    var d1 := FirstPass(Mapping, row, lk);
    var d2 := SecondPass(Mapping, d1, row, lk);
    MappingEntry(f);
    FirstPassUnset(Mapping, row, lk, f);
    SecondPassFrame(Mapping, d1, row, lk);
    ThirdPassSingle(Mapping, d2, row, f, EntryOf(f));
  }

  /** What the three passes collect, field by field. */
  lemma CollectedIs(row: Row, lk: Lookups, f: Field)
    ensures CollectsField(row, lk, f)
  {
    if f == Comment {
      CollectedComment(row, lk);
    } else if f == IsCompany || f == CompanyType {
      CollectedFlags(row, lk, f);
      assert CollectedField(row, lk, f) == None;
    } else if f == StateId {
      CollectedState(row, lk);
    } else if f == Vat || f == Phone {
      CollectedVatPhone(row, lk, f);
    } else {
      CollectedFromFirstPass(row, lk, f);
    }
  }

  /** A non-blank cell is its own strip. */
  lemma CellStripped(row: Row, col: string)
    ensures Strip(Cell(row, col)) == Cell(row, col)
    ensures Nonblank(row, col) <==> Cell(row, col) != ""
  {
    if col in row {
      StripIdempotent(row[col]);
    }
  }

  /** After the name default, the code is the Codice cell and the name is
      the Nome Completo cell, or the code when that is blank. */
  lemma DefaultNameIs(row: Row, lk: Lookups)
    ensures var d1 := WithDefaultName(Collected(row, lk));
      && (Ref in d1 <==> Nonblank(row, "Codice"))
      && (Ref in d1 ==> d1[Ref] == Text(Cell(row, "Codice")) && Strip(TextField(d1, Ref)) == Cell(row, "Codice"))
      && (Nonblank(row, "Codice") ==> Name in d1 && d1[Name] == PreparedField(row, lk, Name).value)
      && forall f | f != Name :: (f in d1 <==> CollectedField(row, lk, f).Some?)
                               && (f in d1 ==> d1[f] == CollectedField(row, lk, f).value)
  {
    forall f
      ensures f in Collected(row, lk) <==> CollectedField(row, lk, f).Some?
      ensures f in Collected(row, lk) ==> Collected(row, lk)[f] == CollectedField(row, lk, f).value
    {
      CollectedIs(row, lk, f);
    }
    CellStripped(row, "Codice");
    CellStripped(row, "Nome Completo");
  }

  /** `_prepare_partner_data` raises exactly when the row has no code. */
  lemma PrepareFailsIffNoCode(row: Row, lk: Lookups)
    ensures PrepareSpec(row, lk).Fail? <==> !Nonblank(row, "Codice")
    ensures PrepareSpec(row, lk).Fail? ==> PrepareSpec(row, lk).msg == "Codice is required"
  {
    DefaultNameIs(row, lk);
    CellStripped(row, "Codice");
  }

  /** The e-mail survives validation exactly when its cell is accepted. */
  lemma ValidatedEmail(row: Row, lk: Lookups)
    ensures var d2 := ValidateEmail(WithDefaultName(Collected(row, lk)), Email);
      && (Email in d2 <==> PreparedField(row, lk, Email).Some?)
      && (Email in d2 ==> d2[Email] == PreparedField(row, lk, Email).value)
  {
    DefaultNameIs(row, lk);
    CellStripped(row, "E-mail");
  }

  /** The VAT number survives validation exactly when its cell is accepted. */
  lemma ValidatedVat(row: Row, lk: Lookups)
    ensures var d3 := ValidateVat(ValidateEmail(WithDefaultName(Collected(row, lk)), Email), Vat);
      && (Vat in d3 <==> PreparedField(row, lk, Vat).Some?)
      && (Vat in d3 ==> d3[Vat] == PreparedField(row, lk, Vat).value)
  {
    DefaultNameIs(row, lk);
    CellStripped(row, "Partita IVA");
  }

  /** After validation, e-mail and VAT are kept only when accepted. */
  lemma ValidatedIs(row: Row, lk: Lookups)
    requires Nonblank(row, "Codice")
    ensures var d3 := ValidateVat(ValidateEmail(WithDefaultName(Collected(row, lk)), Email), Vat);
      && (forall f | f in {Name, Email, Vat} :: (f in d3 <==> PreparedField(row, lk, f).Some?)
                                            && (f in d3 ==> d3[f] == PreparedField(row, lk, f).value))
      && (forall f | f !in {Name, Email, Vat} :: (f in d3 <==> CollectedField(row, lk, f).Some?)
                                             && (f in d3 ==> d3[f] == CollectedField(row, lk, f).value))
  {
    DefaultNameIs(row, lk);
    ValidatedEmail(row, lk);
    ValidatedVat(row, lk);
  }

  /** The finishing values overwrite the company flags, the country when
      Italy exists and the comment when there are notes, and nothing else. */
  lemma CompletedIs(d: map<Field, Value>, row: Row, lk: Lookups)
    ensures var r := Completed(d, row, lk);
      && r[IsCompany] == Flag(true) && r[CompanyType] == Text("company")
      && ("IT" in lk.countries ==> r[CountryId] == RecordId(lk.countries["IT"]))
      && (Notes(row) != [] ==> r[Comment] == Text(JoinComma(Notes(row))))
      && forall f | !(f == IsCompany || f == CompanyType || (f == CountryId && "IT" in lk.countries)
                      || (f == Comment && Notes(row) != [])) ::
           (f in r <==> f in d) && (f in r ==> r[f] == d[f])
  {
  }

  /** With a code, the outcome is the completed, validated record. */
  lemma PrepareValue(row: Row, lk: Lookups)
    requires Nonblank(row, "Codice")
    ensures PrepareSpec(row, lk)
         == Ok(Completed(ValidateVat(ValidateEmail(WithDefaultName(Collected(row, lk)), Email), Vat), row, lk))
  {
    PrepareFailsIffNoCode(row, lk);
  }

  lemma PreparedFieldIs(row: Row, lk: Lookups, f: Field)
    requires Nonblank(row, "Codice")
    ensures PrepareSpec(row, lk).Ok?
    ensures f in PrepareSpec(row, lk).value <==> PreparedField(row, lk, f).Some?
    ensures f in PrepareSpec(row, lk).value ==> PrepareSpec(row, lk).value[f] == PreparedField(row, lk, f).value
  {
    PrepareValue(row, lk);
    ValidatedIs(row, lk);
    var d3 := ValidateVat(ValidateEmail(WithDefaultName(Collected(row, lk)), Email), Vat);
    CompletedFieldIs(d3, row, lk, f);
  }

  /** Completing a validated record gives `PreparedField`, field by field. */
  lemma CompletedFieldIs(d3: map<Field, Value>, row: Row, lk: Lookups, f: Field)
    requires f in {Name, Email, Vat} ==>
      (f in d3 <==> PreparedField(row, lk, f).Some?) && (f in d3 ==> d3[f] == PreparedField(row, lk, f).value)
    requires f !in {Name, Email, Vat} ==>
      (f in d3 <==> CollectedField(row, lk, f).Some?) && (f in d3 ==> d3[f] == CollectedField(row, lk, f).value)
    ensures f in Completed(d3, row, lk) <==> PreparedField(row, lk, f).Some?
    ensures f in Completed(d3, row, lk) ==> Completed(d3, row, lk)[f] == PreparedField(row, lk, f).value
  {
    if f == Comment {
      assert Comment in d3 <==> Nonblank(row, "Fax") || Nonblank(row, "Num.tel.2");
    } else if f == IsCompany || f == CompanyType || f == CountryId {
    } else {
      CompletedKeeps(d3, row, lk, f);
      if f !in {Name, Email, Vat} {
        PreparedIsCollected(row, lk, f);
      }
    }
  }

  /** Completing leaves the fields it does not set as they were. */
  lemma CompletedKeeps(d: map<Field, Value>, row: Row, lk: Lookups, f: Field)
    requires f !in {Comment, IsCompany, CompanyType, CountryId}
    ensures f in Completed(d, row, lk) <==> f in d
    ensures f in d ==> Completed(d, row, lk)[f] == d[f]
  {
  }

  /** The fields that defaults and validation leave alone are as collected. */
  lemma PreparedIsCollected(row: Row, lk: Lookups, f: Field)
    requires f !in {Comment, IsCompany, CompanyType, CountryId, Name, Email, Vat}
    ensures PreparedField(row, lk, f) == CollectedField(row, lk, f)
  {
  }

  /** Otherwise it yields the record `PreparedField` describes, field by field. */
  lemma PrepareOutcome(row: Row, lk: Lookups)
    requires Nonblank(row, "Codice")
    ensures PrepareSpec(row, lk).Ok?
    ensures forall f ::
              && (f in PrepareSpec(row, lk).value <==> PreparedField(row, lk, f).Some?)
              && (f in PrepareSpec(row, lk).value ==> PrepareSpec(row, lk).value[f] == PreparedField(row, lk, f).value)
  {
    PrepareFailsIffNoCode(row, lk);
    forall f
      ensures (f in PrepareSpec(row, lk).value <==> PreparedField(row, lk, f).Some?)
      ensures (f in PrepareSpec(row, lk).value ==> PrepareSpec(row, lk).value[f] == PreparedField(row, lk, f).value)
    {
      PreparedFieldIs(row, lk, f);
    }
  }

  /** The postal code is kept exactly when the stripped CAP cell is five
      Python digits, and then it is that cell (wizard.py:1258-1262). */
  lemma PreparedZip(row: Row, lk: Lookups)
    requires Nonblank(row, "Codice")
    ensures PrepareSpec(row, lk).Ok?
    ensures Zip in PrepareSpec(row, lk).value <==> ZipAccepted(Cell(row, "CAP"))
    ensures Zip in PrepareSpec(row, lk).value ==> PrepareSpec(row, lk).value[Zip] == Text(Cell(row, "CAP"))
  {
    PrepareOutcome(row, lk);
    assert ZipAccepted(Cell(row, "CAP")) ==> Nonblank(row, "CAP");
  }

  /** Consequences a reader of the import relies on. */
  lemma PreparedPhoneKeepsPunctuation(row: Row, lk: Lookups)
    requires Nonblank(row, "Codice") && Nonblank(row, "Num.tel.1")
    ensures PrepareSpec(row, lk).Ok? && Phone in PrepareSpec(row, lk).value
    ensures PrepareSpec(row, lk).value[Phone] == Text(Cell(row, "Num.tel.1"))
  {
    PrepareOutcome(row, lk);
    assert PreparedField(row, lk, Phone).Some?;
  }
}
