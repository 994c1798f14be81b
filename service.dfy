/** The parking service over an in-memory record store: a map from id to row
    and the next id the store will assign (ids start at 1 and are never
    reused). */
module ParkingStore {
  import opened Outcomes
  import opened Text
  import opened ParkingRules
  import opened ParkingRecords

  /** A row as this service leaves it: stored under its own id, below the next
      id, with a stored-form category and a fee that agrees with the fee rule. */
  predicate StoredAt(k: int, r: Record, nextId: int)
  {
    1 <= k < nextId && r.id == k && IsStoredJenis(r.jenisKendaraan) && FeeConsistent(r)
  }

  class ParkingService {
    var records: map<int, Record>
    var nextId: int

    ghost predicate Valid()
      reads this
    {
      nextId >= 1 && forall k :: k in records ==> StoredAt(k, records[k], nextId)
    }

    /** An empty store. */
    constructor ()
      ensures Valid() && records == map[] && nextId == 1
    {
      records := map[];
      nextId := 1;
    }

    /** `create`: stores a new row under a fresh id, entered at `now`, with
        the category in stored form and the fee for the given category and
        duration. The arguments satisfy the create DTO's constraints. */
    method Create(platNomor: string, jenisKendaraan: string, durasi: int, now: Timestamp)
      returns (r: Record)
      requires Valid()
      requires IsSimpleJenis(jenisKendaraan) && durasi >= 1
      modifies this
      ensures Valid()
      ensures r.id == old(nextId) && r.id !in old(records) && nextId == old(nextId) + 1
      ensures records == old(records)[r.id := r]
      ensures r.platNomor == platNomor && r.entryTime == now && r.exitTime == None
      ensures r.durasi == durasi
      ensures r.jenisKendaraan == if jenisKendaraan == "roda2" then "RODA2" else "RODA4"
      ensures r.total == HitungTotal(Some(jenisKendaraan), Some(durasi))
      ensures SumTotals(records) == old(SumTotals(records)) + r.total
    {
      SimpleJenisRoundTrip(jenisKendaraan);
      var enumJenis := MapJenisToEnum(Some(jenisKendaraan));
      var simple := EnumToSimpleJenis(enumJenis);
      var jenisForCalc := if simple.Some? then simple else Some(jenisKendaraan);
      var total := HitungTotal(jenisForCalc, Some(durasi));
      r := Record(nextId, platNomor, enumJenis.GetOr(""), now, None, durasi, total);
      SumTotalsAdd(records, nextId, r);
      records := records[nextId := r];
      nextId := nextId + 1;
    }

    /** `findOne`: the row stored under `id`, or NotFound. */
    method FindOne(id: int) returns (res: Result<Record>)
      ensures id in records ==> res == Ok(records[id])
      ensures id !in records ==> res == Err(NotFound)
    {
      if id in records {
        res := Ok(records[id]);
      } else {
        res := Err(NotFound);
      }
    }

    /** `update`: NotFound leaves the store as it was; otherwise the row is
        merged with the supplied fields, its fee recomputed, and no other row
        changes. */
    method Update(id: int, body: UpdateBody) returns (res: Result<Record>)
      requires Valid()
      modifies this
      ensures Valid() && nextId == old(nextId)
      ensures id !in old(records) ==> res == Err(NotFound) && records == old(records)
      ensures id in old(records) ==>
        && res.Ok?
        && records == old(records)[id := res.value]
        && UpdatedAs(old(records)[id], body, res.value)
        && SumTotals(records) == old(SumTotals(records)) - old(records)[id].total + res.value.total
    {
      var found := FindOne(id);
      if found.Err? {
        return found;
      }
      var existing := found.value;
      EnumRoundTrip(existing.jenisKendaraan);

      var existingJenisSimple := EnumToSimpleJenis(Some(existing.jenisKendaraan));
      var bodyJenisEnum := MapJenisToEnum(body.jenisKendaraan);
      var newJenisEnum := bodyJenisEnum.GetOr(existing.jenisKendaraan);
      EnumRoundTrip(newJenisEnum);
      var mappedNew := EnumToSimpleJenis(Some(newJenisEnum));
      var newJenisSimple := if mappedNew.Some? then mappedNew else existingJenisSimple;
      var newDurasi := body.durasi.GetOr(existing.durasi);
      var total := HitungTotal(newJenisSimple, Some(newDurasi));

      var payload := Payload(
        if body.platNomor.Some? && body.platNomor.value != "" then body.platNomor else None,
        bodyJenisEnum,
        if body.durasi.Some? then Some(newDurasi) else None,
        total,
        body.exitTime);
      var updated := Apply(existing, payload);
      SumTotalsReplace(records, id, updated);
      records := records[id := updated];
      res := Ok(updated);
    }

    /** `remove`: NotFound leaves the store as it was; otherwise exactly the
        row under `id` is deleted and returned. */
    method Remove(id: int) returns (res: Result<Record>)
      requires Valid()
      modifies this
      ensures Valid() && nextId == old(nextId)
      ensures id !in old(records) ==> res == Err(NotFound) && records == old(records)
      ensures id in old(records) ==>
        && res == Ok(old(records)[id])
        && records == old(records) - {id}
        && SumTotals(records) == old(SumTotals(records)) - res.value.total
    {
      var found := FindOne(id);
      if found.Err? {
        return found;
      }
      SumTotalsRemove(records, id);
      records := records - {id};
      res := found;
    }

    /** `findAll`: the rows matching the query's filters, in ascending id
        order, after skipping (page - 1) * limit rows and taking at most limit.
        Page defaults to 1 and limit to 10. */
    method FindAll(q: Query) returns (rows: seq<Record>)
      requires Valid()
      requires q.page.GetOr(1) >= 1 && q.limit.GetOr(10) >= 0
      ensures rows == Window(MatchingIn(records, 1, nextId, WhereOf(q)),
                             Offset(q.page.GetOr(1), q.limit.GetOr(10)), q.limit.GetOr(10))
    {
      var page := q.page.GetOr(1);
      var limit := q.limit.GetOr(10);
      var w := WhereOf(q);
      var matched: seq<Record> := [];
      var k := 1;
      while k < nextId
        invariant 1 <= k <= nextId
        invariant matched == MatchingIn(records, 1, k, w)
      {
        if k in records && Matches(records[k], w) {
          matched := matched + [records[k]];
        }
        k := k + 1;
      }
      rows := Window(matched, Offset(page, limit), limit);
    }

    /** `totalPendapatan`: the sum of the fees of all stored rows, 0 for an
        empty store. The service wraps this number as `{ total_pendapatan: ... }`;
        the model returns the number itself. */
    method TotalPendapatan() returns (total: int)
      requires Valid()
      ensures total == SumTotals(records)
      ensures records == map[] ==> total == 0
      ensures total >= 0
    {
      total := 0;
      var k := 1;
      assert Below(records, 1) == map[];
      while k < nextId
        invariant 1 <= k <= nextId
        invariant total == SumTotals(Below(records, k))
        invariant total >= 0
      {
        SumTotalsBelowStep(records, k);
        if k in records {
          total := total + records[k].total;
        }
        k := k + 1;
      }
      assert Below(records, nextId) == records;
    }
  }
}
