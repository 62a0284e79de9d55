/**
 * The partner record of the import and the constraint the module adds to
 * it: a non-empty partner code (`ref`) must be unique across all partners
 * (dbm/models/partner.py).
 */
module PartnerModel {
  import opened Common

  /** The fields of `res.partner` the import writes. */
  datatype Field =
    | Ref | Name | Street | Zip | City | StateId | CountryId | Vat | CodiceFiscale
    | Phone | Mobile | Email | Website | Comment | IsCompany | CompanyType

  /** A stored partner: its database id and its field values. A field that
      is absent is unset (False in the ORM). */
  datatype Partner = Partner(id: nat, vals: map<Field, Value>)

  /** The text of a character field; an unset or non-text field reads as "". */
  function TextField(vals: map<Field, Value>, f: Field): string {
    if f in vals && vals[f].Text? then vals[f].s else ""
  }

  /** The partner code. */
  function RefOf(p: Partner): string {
    TextField(p.vals, Ref)
  }

  /** The duplicate search of the constraint (partner.py:25-28) finds a
      partner: another id with the same code. */
  predicate HasDuplicate(table: seq<Partner>, p: Partner) {
    exists i | 0 <= i < |table| :: table[i].id != p.id && RefOf(table[i]) == RefOf(p)
  }

  /** The constraint raises for `p` (partner.py:24-29). */
  predicate RefCheckFails(table: seq<Partner>, p: Partner) {
    RefOf(p) != "" && HasDuplicate(table, p)
  }

  function DuplicateRefMessage(ref: string): string {
    "Partner with codice '" + ref + "' already exists. Please use a unique codice."
  }

  /** `_check_codice_unique` on the records `recs` against the stored
      partners `table`: None when it passes, otherwise the message of the
      error it raises for the first failing record. */
  function CheckCodiceUnique(recs: seq<Partner>, table: seq<Partner>): (r: Option<string>)
    ensures r.None? <==> forall i | 0 <= i < |recs| :: !RefCheckFails(table, recs[i])
    ensures r.Some? ==> exists i | 0 <= i < |recs| ::
              && RefCheckFails(table, recs[i])
              && r.value == DuplicateRefMessage(RefOf(recs[i]))
              && forall j | 0 <= j < i :: !RefCheckFails(table, recs[j])
    ensures (forall i | 0 <= i < |recs| :: RefOf(recs[i]) == "") ==> r.None?
  {
    if |recs| == 0 then None
    else if RefCheckFails(table, recs[0]) then Some(DuplicateRefMessage(RefOf(recs[0])))
    else
      var r := CheckCodiceUnique(recs[1..], table);
      assert forall i | 1 <= i < |recs| :: recs[i] == recs[1..][i - 1];
      if r.Some? then
        var k :| 0 <= k < |recs[1..]| && RefCheckFails(table, recs[1..][k])
                 && r.value == DuplicateRefMessage(RefOf(recs[1..][k]))
                 && forall j | 0 <= j < k :: !RefCheckFails(table, recs[1..][j]);
        assert recs[k + 1] == recs[1..][k];
        r
      else r
  }

  /** A record is never its own duplicate: alone in the table it passes. */
  lemma SingletonPasses(p: Partner)
    ensures CheckCodiceUnique([p], [p]).None?
  {
    assert !HasDuplicate([p], p);
  }

  /** The non-empty codes of differently-numbered partners are distinct. */
  predicate RefsDistinct(table: seq<Partner>) {
    forall i, j | 0 <= i < |table| && 0 <= j < |table| ::
      table[i].id != table[j].id && RefOf(table[i]) != "" ==> RefOf(table[i]) != RefOf(table[j])
  }

  /** Checking the whole table passes exactly when its non-empty codes are
      pairwise distinct. */
  lemma TablePassesIffRefsDistinct(table: seq<Partner>)
    ensures CheckCodiceUnique(table, table).None? <==> RefsDistinct(table)
  {
    if CheckCodiceUnique(table, table).None? {
      forall i, j | 0 <= i < |table| && 0 <= j < |table| && table[i].id != table[j].id && RefOf(table[i]) != ""
        ensures RefOf(table[i]) != RefOf(table[j])
      {
        assert !RefCheckFails(table, table[i]);
      }
    } else {
      var i :| 0 <= i < |table| && RefCheckFails(table, table[i]);
      var j :| 0 <= j < |table| && table[j].id != table[i].id && RefOf(table[j]) == RefOf(table[i]);
      assert !RefsDistinct(table);
    }
  }
}
