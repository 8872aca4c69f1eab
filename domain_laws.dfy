/**
 * Properties of the domain controller model: the records determine the
 * name, a new domain is listed and readable, an update falls back to the
 * current values and is what a read returns, and a soft delete hides the
 * domain and cannot be repeated.
 */
module DomainLaws {
  import opened Common
  import opened DomainStore

  /** The name can be read back from its MX record, so different names get different records. */
  lemma RecordsDetermineName(a: string, b: string)
    ensures DomainOfRecords(GenerateDnsRecords(a)) == Some(a)
    ensures GenerateDnsRecords(a) == GenerateDnsRecords(b) ==> a == b
  {
  }

  /** A new domain is listed for its owner and read back by its id. */
  lemma CreateThenRead(t: Domains, userId: Option<string>, name: Option<string>, row: DomainRow, t': Domains)
    requires WellFormed(t)
    requires DomainCreated(t, userId, name, Ok(row), t')
    ensures row.userId == userId.value && row.name == name.value && !row.verified && !row.deleted
    ensures row in AllDomains(t', userId).value
    ensures DomainById(t', userId, row.id) == Ok(row)
  {
    var n := |t.rows|;
    assert t'.rows[n] == row;
    assert forall i :: 0 <= i < n ==> t'.rows[i].id < row.id;
  }

  /**
   * An update keeps the current name or flag where the request has none
   * and regenerates the records from the resulting name.
   */
  lemma UpdateFallsBack(t: Domains, userId: Option<string>, id: nat, name: Option<string>, verified: Option<bool>,
                        v: DomainRow, t': Domains)
    requires DomainUpdated(t, userId, id, name, verified, Ok(v), t')
    ensures var current := DomainById(t, userId, id).value;
            v.name == (if name.Some? then name.value else current.name)
            && v.verified == (if verified.Some? then verified.value else current.verified)
            && v.dns == GenerateDnsRecords(v.name) && v.id == id && v.userId == userId.value && !v.deleted
  {
  }

  /** After an update, reading the domain returns the revised row. */
  lemma UpdateThenRead(t: Domains, userId: Option<string>, id: nat, name: Option<string>, verified: Option<bool>,
                       v: DomainRow, t': Domains)
    requires UniqueIds(t.rows)
    requires DomainUpdated(t, userId, id, name, verified, Ok(v), t')
    ensures DomainById(t', userId, id) == Ok(v)
  {
    var u := userId.value;
    var current := LiveDomain(t.rows, id, u).value;
    assert v == Revised(current, name, verified);
    assert t' == t.(rows := SetDomain(t.rows, id, v));
    var k :| 0 <= k < |t.rows| && t.rows[k] == current;
    assert t'.rows[k] == v;
    SetDomainKeepsIds(t.rows, id, v);
    LiveFoundAt(t'.rows, k, id, u);
  }

  lemma SetDomainKeepsIds(rows: seq<DomainRow>, id: nat, v: DomainRow)
    requires UniqueIds(rows)
    ensures UniqueIds(SetDomain(rows, id, v))
  {
    var xs := SetDomain(rows, id, v);
    assert forall i :: 0 <= i < |xs| ==> xs[i].id == rows[i].id;
  }

  /** With distinct ids, the live row at `k` is the one the lookup finds. */
  lemma LiveFoundAt(rows: seq<DomainRow>, k: nat, id: nat, u: string)
    requires UniqueIds(rows) && k < |rows| && Live(rows[k], id, u)
    ensures LiveDomain(rows, id, u) == Some(rows[k])
  {
    var found := LiveDomain(rows, id, u).value;
    var j :| 0 <= j < |rows| && rows[j] == found;
  }

  /** A present but empty name passes `??`, so an update may blank a name that creation would refuse. */
  lemma EmptyNameDiverges(t: Domains, userId: Option<string>, id: nat, verified: Option<bool>,
                          r: Result<DomainRow>, t': Domains, r': Result<DomainRow>, t'': Domains)
    requires DomainUpdated(t, userId, id, Some(""), verified, r, t')
    requires DomainCreated(t, userId, Some(""), r', t'')
    requires r.Ok?
    ensures r.value.name == "" && r.value.dns.mx == "mx."
    ensures r' == Err(BadRequest)
  {
  }

  /** After a soft delete the domain is neither listed nor readable, and deleting it again answers 404. */
  lemma DeleteHidesAndIsFinal(t: Domains, userId: Option<string>, id: nat, t': Domains, r: Result<()>, t'': Domains)
    requires DomainDeleted(t, userId, id, Ok(()), t')
    requires DomainDeleted(t', userId, id, r, t'')
    ensures DomainById(t', userId, id) == Err(NotFound)
    ensures forall x :: x in AllDomains(t', userId).value ==> x.id != id
    ensures r == Err(NotFound) && t'' == t'
    ensures |t'.rows| == |t.rows|
            && forall i :: 0 <= i < |t.rows| ==> t'.rows[i] == t.rows[i] || (Live(t.rows[i], id, userId.value) && t'.rows[i] == t.rows[i].(deleted := true))
  {
    var u := userId.value;
    assert t' == t.(rows := SoftDelete(t.rows, id, u));
    SoftDeleteHides(t.rows, id, u);
  }

  lemma SoftDeleteHides(rows: seq<DomainRow>, id: nat, u: string)
    ensures LiveDomain(SoftDelete(rows, id, u), id, u).None?
  {
    var xs := SoftDelete(rows, id, u);
    forall i | 0 <= i < |xs| ensures !Live(xs[i], id, u) {
    }
  }
}
