/**
 * The domain controller: a user registers mail domains, each stored with
 * the four DNS records derived from its name, edits them with
 * null-coalescing fallbacks, and deletes them softly by setting
 * `is_deleted`. `nextId` stands for the serial behind `domain.id`.
 */
module DomainStore {
  import opened Common

  /** The records `generateDNSRecords` derives from a domain name. */
  datatype DnsRecords = DnsRecords(mx: string, spf: string, dkim: string, dmarc: string)

  /** A row of `domain`; the timestamps are not modelled. */
  datatype DomainRow = DomainRow(id: nat, name: string, userId: string, verified: bool, dns: DnsRecords, deleted: bool)

  datatype Domains = Domains(rows: seq<DomainRow>, nextId: nat)

  const MxPrefix: string := "mx."

  /** `generateDNSRecords`: the MX host, the SPF include, the DKIM selector host and the DMARC policy for `d`. */
  function GenerateDnsRecords(d: string): (r: DnsRecords)
    ensures MxPrefix <= r.mx && r.mx[|MxPrefix|..] == d
    ensures r.spf == "v=spf1 include:" + d + " ~all"
    ensures r.dkim == "default._domainkey." + d
    ensures r.dmarc == "v=DMARC1; p=none; rua=mailto:dmarc@" + d
  {
    DnsRecords(MxPrefix + d, "v=spf1 include:" + d + " ~all", "default._domainkey." + d,
               "v=DMARC1; p=none; rua=mailto:dmarc@" + d)
  }

  /** The domain name an MX host record was derived from. */
  function DomainOfRecords(r: DnsRecords): Option<string>
  {
    if MxPrefix <= r.mx then Some(r.mx[|MxPrefix|..]) else None
  }

  predicate UniqueIds(rows: seq<DomainRow>)
  {
    forall i, j :: 0 <= i < j < |rows| ==> rows[i].id != rows[j].id
  }

  /** Every row carries the records of its own name; ids are distinct and below the serial counter. */
  predicate WellFormed(t: Domains)
  {
    (forall i :: 0 <= i < |t.rows| ==> t.rows[i].dns == GenerateDnsRecords(t.rows[i].name) && t.rows[i].id < t.nextId)
    && UniqueIds(t.rows)
  }

  /** `WHERE id = $1 AND user_id = $2 AND is_deleted = FALSE`. */
  predicate Live(row: DomainRow, id: nat, userId: string)
  {
    row.id == id && row.userId == userId && !row.deleted
  }

  function LiveDomain(rows: seq<DomainRow>, id: nat, userId: string): (r: Option<DomainRow>)
    ensures r.None? <==> forall i :: 0 <= i < |rows| ==> !Live(rows[i], id, userId)
    ensures r.Some? ==> r.value in rows && Live(r.value, id, userId)
  {
    if rows == [] then None
    else if Live(rows[0], id, userId) then Some(rows[0])
    else
      var r := LiveDomain(rows[1..], id, userId);
      assert forall i :: 1 <= i < |rows| ==> rows[i] == rows[1..][i - 1];
      r
  }

  // ---------------------------------------------------------------------
  // createDomain
  // ---------------------------------------------------------------------

  /**
   * `createDomain`: 401 without a user, 400 without a name; otherwise a
   * row that is neither verified nor deleted, with the name's records.
   */
  ghost predicate DomainCreated(t: Domains, userId: Option<string>, name: Option<string>, r: Result<DomainRow>, t': Domains)
  {
    if !Truthy(userId) then r == Err(Unauthorized) && t' == t
    else if !Truthy(name) then r == Err(BadRequest) && t' == t
    else
      var row := DomainRow(t.nextId, name.value, userId.value, false, GenerateDnsRecords(name.value), false);
      r == Ok(row) && t' == Domains(t.rows + [row], t.nextId + 1)
  }

  // ---------------------------------------------------------------------
  // getAllDomains and getDomainById
  // ---------------------------------------------------------------------

  function LiveOf(rows: seq<DomainRow>, userId: string): (r: seq<DomainRow>)
    ensures forall x :: x in r <==> x in rows && x.userId == userId && !x.deleted
  {
    if rows == [] then []
    else (if rows[0].userId == userId && !rows[0].deleted then [rows[0]] else []) + LiveOf(rows[1..], userId)
  }

  /** `getAllDomains`: 401 without a user, else the caller's domains that are not deleted, in table order. */
  function AllDomains(t: Domains, userId: Option<string>): (r: Result<seq<DomainRow>>)
    ensures !Truthy(userId) <==> r == Err(Unauthorized)
    ensures r.Ok? ==> forall x :: x in r.value <==> x in t.rows && x.userId == userId.value && !x.deleted
  {
    if !Truthy(userId) then Err(Unauthorized) else Ok(LiveOf(t.rows, userId.value))
  }

  /** `getDomainById`: 401 without a user, the caller's live domain with the id, or 404. */
  function DomainById(t: Domains, userId: Option<string>, id: nat): (r: Result<DomainRow>)
    ensures !Truthy(userId) ==> r == Err(Unauthorized)
    ensures Truthy(userId) ==> (r.Ok? <==> exists i :: 0 <= i < |t.rows| && Live(t.rows[i], id, userId.value))
    ensures r.Ok? ==> r.value in t.rows && Live(r.value, id, userId.value)
    ensures Truthy(userId) && r.Err? ==> r.failure == NotFound
  {
    if !Truthy(userId) then Err(Unauthorized)
    else
      match LiveDomain(t.rows, id, userId.value)
      case None => Err(NotFound)
      case Some(row) => Ok(row)
  }

  // ---------------------------------------------------------------------
  // updateDomain
  // ---------------------------------------------------------------------

  /** `domain_name ?? current.domain_name` and `is_verify ?? current.is_verify`, then fresh records. */
  function Revised(current: DomainRow, name: Option<string>, verified: Option<bool>): DomainRow
  {
    var n := if name.Some? then name.value else current.name;
    current.(name := n, verified := if verified.Some? then verified.value else current.verified,
             dns := GenerateDnsRecords(n))
  }

  /** `UPDATE domain SET … WHERE id = $1`: every row with the id takes the revised columns. */
  function SetDomain(rows: seq<DomainRow>, id: nat, v: DomainRow): (r: seq<DomainRow>)
    ensures |r| == |rows|
    ensures forall i :: 0 <= i < |rows| ==> r[i] == if rows[i].id == id then v.(id := rows[i].id, userId := rows[i].userId, deleted := rows[i].deleted) else rows[i]
  {
    if rows == [] then []
    else [if rows[0].id == id then v.(id := rows[0].id, userId := rows[0].userId, deleted := rows[0].deleted) else rows[0]]
         + SetDomain(rows[1..], id, v)
  }

  /**
   * `updateDomain`: 401 without a user, 404 unless the caller has a live
   * domain with the id; otherwise the name and flag fall back to the
   * current values when absent or null, and the records are regenerated.
   */
  ghost predicate DomainUpdated(t: Domains, userId: Option<string>, id: nat, name: Option<string>, verified: Option<bool>,
                                r: Result<DomainRow>, t': Domains)
  {
    if !Truthy(userId) then r == Err(Unauthorized) && t' == t
    else
      match LiveDomain(t.rows, id, userId.value)
      case None => r == Err(NotFound) && t' == t
      case Some(current) =>
        var v := Revised(current, name, verified);
        r == Ok(v) && t' == t.(rows := SetDomain(t.rows, id, v))
  }

  // ---------------------------------------------------------------------
  // deleteDomain
  // ---------------------------------------------------------------------

  /** `UPDATE domain SET is_deleted = TRUE WHERE id = $1 AND user_id = $2 AND is_deleted = FALSE`. */
  function SoftDelete(rows: seq<DomainRow>, id: nat, userId: string): (r: seq<DomainRow>)
    ensures |r| == |rows|
    ensures forall i :: 0 <= i < |rows| ==> r[i] == if Live(rows[i], id, userId) then rows[i].(deleted := true) else rows[i]
  {
    if rows == [] then []
    else [if Live(rows[0], id, userId) then rows[0].(deleted := true) else rows[0]] + SoftDelete(rows[1..], id, userId)
  }

  /** `deleteDomain`: 401 without a user, 404 when no live domain of the caller has the id; otherwise marked deleted. */
  ghost predicate DomainDeleted(t: Domains, userId: Option<string>, id: nat, r: Result<()>, t': Domains)
  {
    if !Truthy(userId) then r == Err(Unauthorized) && t' == t
    else if LiveDomain(t.rows, id, userId.value).None? then r == Err(NotFound) && t' == t
    else r == Ok(()) && t' == t.(rows := SoftDelete(t.rows, id, userId.value))
  }

  // ---------------------------------------------------------------------
  // The table as a class
  // ---------------------------------------------------------------------

  class DomainDb {
    var rows: seq<DomainRow>
    var nextId: nat

    function State(): Domains
      reads this
    {
      Domains(rows, nextId)
    }

    predicate Valid()
      reads this
    {
      WellFormed(State())
    }

    constructor (t: Domains)
      requires WellFormed(t)
      ensures Valid() && State() == t
    {
      rows, nextId := t.rows, t.nextId;
    }

    method CreateDomain(userId: Option<string>, name: Option<string>) returns (r: Result<DomainRow>)
      requires Valid()
      modifies this
      ensures Valid()
      ensures DomainCreated(old(State()), userId, name, r, State())
    {
      if !Truthy(userId) {
        return Err(Unauthorized);
      }
      if !Truthy(name) {
        return Err(BadRequest);
      }
      var row := DomainRow(nextId, name.value, userId.value, false, GenerateDnsRecords(name.value), false);
      var xs := rows + [row];
      assert forall i :: 0 <= i < |rows| ==> xs[i] == rows[i];
      rows, nextId := xs, nextId + 1;
      r := Ok(row);
    }

    method UpdateDomain(userId: Option<string>, id: nat, name: Option<string>, verified: Option<bool>)
      returns (r: Result<DomainRow>)
      requires Valid()
      modifies this
      ensures Valid()
      ensures DomainUpdated(old(State()), userId, id, name, verified, r, State())
    {
      if !Truthy(userId) {
        return Err(Unauthorized);
      }
      var current := LiveDomain(rows, id, userId.value);
      if current.None? {
        return Err(NotFound);
      }
      var v := Revised(current.value, name, verified);
      SetDomainKeepsWellFormed(State(), id, v);
      rows := SetDomain(rows, id, v);
      r := Ok(v);
    }

    method DeleteDomain(userId: Option<string>, id: nat) returns (r: Result<()>)
      requires Valid()
      modifies this
      ensures Valid()
      ensures DomainDeleted(old(State()), userId, id, r, State())
    {
      if !Truthy(userId) {
        return Err(Unauthorized);
      }
      if LiveDomain(rows, id, userId.value).None? {
        return Err(NotFound);
      }
      SoftDeleteKeepsWellFormed(State(), id, userId.value);
      rows := SoftDelete(rows, id, userId.value);
      r := Ok(());
    }
  }

  /** Marking rows deleted leaves every name, record and id where it was. */
  lemma SoftDeleteKeepsWellFormed(t: Domains, id: nat, userId: string)
    requires WellFormed(t)
    ensures WellFormed(t.(rows := SoftDelete(t.rows, id, userId)))
  {
    var xs := SoftDelete(t.rows, id, userId);
    forall i | 0 <= i < |xs| ensures xs[i].dns == t.rows[i].dns && xs[i].name == t.rows[i].name && xs[i].id == t.rows[i].id {
    }
  }

  /** Writing a row that carries its own name's records keeps every row consistent with its records. */
  lemma SetDomainKeepsWellFormed(t: Domains, id: nat, v: DomainRow)
    requires WellFormed(t) && v.dns == GenerateDnsRecords(v.name)
    ensures WellFormed(t.(rows := SetDomain(t.rows, id, v)))
  {
    var xs := SetDomain(t.rows, id, v);
    forall i | 0 <= i < |xs| ensures xs[i].dns == GenerateDnsRecords(xs[i].name) && xs[i].id == t.rows[i].id {
    }
  }
}
