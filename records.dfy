/** The parking record, the shapes of the service's inputs, and the
    specification functions the store operations are proved against. */
module ParkingRecords {
  import opened Outcomes
  import opened Text
  import opened ParkingRules

  /** An instant. The model never inspects it: entry times come from the
      caller's clock, exit times from the request body. */
  type Timestamp = int

  /** One stored row: `id`, `platNomor`, `jenisKendaraan` (stored form),
      `entryTime`, optional `exitTime`, `durasi` in hours and the fee `total`. */
  datatype Record = Record(
    id: int,
    platNomor: string,
    jenisKendaraan: string,
    entryTime: Timestamp,
    exitTime: Option<Timestamp>,
    durasi: int,
    total: int)

  datatype Error = NotFound
  datatype Result<T> = Ok(value: T) | Err(error: Error)

  /** The fee of a record agrees with the fee rule applied to its own category
      and duration. */
  predicate FeeConsistent(r: Record)
  {
    r.total == HitungTotal(EnumToSimpleJenis(Some(r.jenisKendaraan)), Some(r.durasi))
  }

  /** The PATCH body: each field may be absent. `exitTime` is Some(None) when
      the body carries an explicit null. */
  datatype UpdateBody = UpdateBody(
    platNomor: Option<string>,
    jenisKendaraan: Option<string>,
    durasi: Option<int>,
    exitTime: Option<Option<Timestamp>>)

  /** The fields an update writes: None leaves the stored field alone. The fee
      is always written. */
  datatype Payload = Payload(
    platNomor: Option<string>,
    jenisKendaraan: Option<string>,
    durasi: Option<int>,
    total: int,
    exitTime: Option<Option<Timestamp>>)

  /** The store writing a payload over a row. */
  function Apply(r: Record, p: Payload): (u: Record)
    ensures u.id == r.id && u.entryTime == r.entryTime && u.total == p.total
    ensures p.platNomor.None? ==> u.platNomor == r.platNomor
    ensures p.jenisKendaraan.None? ==> u.jenisKendaraan == r.jenisKendaraan
    ensures p.durasi.None? ==> u.durasi == r.durasi
    ensures p.exitTime.None? ==> u.exitTime == r.exitTime
    ensures p.platNomor.Some? ==> u.platNomor == p.platNomor.value
    ensures p.jenisKendaraan.Some? ==> u.jenisKendaraan == p.jenisKendaraan.value
    ensures p.durasi.Some? ==> u.durasi == p.durasi.value
    ensures p.exitTime.Some? ==> u.exitTime == p.exitTime.value
  {
    Record(r.id,
           p.platNomor.GetOr(r.platNomor),
           p.jenisKendaraan.GetOr(r.jenisKendaraan),
           r.entryTime,
           p.exitTime.GetOr(r.exitTime),
           p.durasi.GetOr(r.durasi),
           p.total)
  }

  /** What a successful update leaves in place of `existing`: a non-empty
      plate, a category that maps and a supplied duration or exit time replace
      the stored ones; the id and entry time never change; the fee agrees with
      the resulting category and duration. */
  predicate UpdatedAs(existing: Record, body: UpdateBody, u: Record)
  {
    && u.id == existing.id
    && u.entryTime == existing.entryTime
    && u.platNomor == (if body.platNomor.Some? && body.platNomor.value != ""
                       then body.platNomor.value else existing.platNomor)
    && u.jenisKendaraan == MapJenisToEnum(body.jenisKendaraan).GetOr(existing.jenisKendaraan)
    && u.durasi == body.durasi.GetOr(existing.durasi)
    && u.exitTime == body.exitTime.GetOr(existing.exitTime)
    && FeeConsistent(u)
  }

  /** UpdatedAs pins down every field, so at most one record satisfies it. */
  lemma UpdatedAsUnique(existing: Record, body: UpdateBody, u1: Record, u2: Record)
    requires UpdatedAs(existing, body, u1) && UpdatedAs(existing, body, u2)
    ensures u1 == u2
  {
  }

  /** The list query: every parameter may be absent. */
  datatype Query = Query(
    page: Option<int>,
    limit: Option<int>,
    search: Option<string>,
    jenisKendaraan: Option<string>)

  /** The `where` object the list query builds. */
  datatype Where = Where(platContains: Option<string>, jenisKendaraan: Option<string>)

  /** A non-empty search becomes a plate filter; a category filter is kept only
      when it maps to a stored form. */
  function WhereOf(q: Query): (w: Where)
    ensures w.platContains.Some? <==> q.search.Some? && q.search.value != ""
    ensures w.platContains.Some? ==> w.platContains == q.search
    ensures w.jenisKendaraan == MapJenisToEnum(q.jenisKendaraan)
  {
    Where(if q.search.Some? && q.search.value != "" then q.search else None,
          if q.jenisKendaraan.Some? && q.jenisKendaraan.value != ""
          then MapJenisToEnum(q.jenisKendaraan) else None)
  }

  predicate Matches(r: Record, w: Where)
  {
    && (w.platContains.Some? ==> Contains(r.platNomor, w.platContains.value))
    && (w.jenisKendaraan.Some? ==> r.jenisKendaraan == w.jenisKendaraan.value)
  }

  /** The records with ids in [lo, hi) that match `w`, in ascending id order. */
  function MatchingIn(m: map<int, Record>, lo: int, hi: int, w: Where): seq<Record>
    decreases hi - lo
  {
    if hi <= lo then []
    else MatchingIn(m, lo, hi - 1, w) + (if hi - 1 in m && Matches(m[hi - 1], w) then [m[hi - 1]] else [])
  }

  /** Every row is stored under its own id. */
  predicate KeyedById(m: map<int, Record>)
  {
    forall k :: k in m ==> m[k].id == k
  }

  /** MatchingIn lists stored, matching rows with ids in range, ids strictly
      increasing, and misses no such row. */
  lemma {:induction false} MatchingInSpec(m: map<int, Record>, lo: int, hi: int, w: Where)
    requires KeyedById(m)
    ensures forall i :: 0 <= i < |MatchingIn(m, lo, hi, w)| ==>
      var r := MatchingIn(m, lo, hi, w)[i];
      lo <= r.id < hi && r.id in m && m[r.id] == r && Matches(r, w)
    ensures forall i, j :: 0 <= i < j < |MatchingIn(m, lo, hi, w)| ==>
      MatchingIn(m, lo, hi, w)[i].id < MatchingIn(m, lo, hi, w)[j].id
    ensures forall k :: lo <= k < hi && k in m && Matches(m[k], w) ==> m[k] in MatchingIn(m, lo, hi, w)
    decreases hi - lo
  {
    if hi > lo {
      MatchingInSpec(m, lo, hi - 1, w);
    }
  }

  /** The offset of a page: the rows of all earlier pages. */
  function Offset(page: int, limit: int): (skip: nat)
    requires page >= 1 && limit >= 0
    ensures page == 1 || limit == 0 ==> skip == 0
  {
    (page - 1) * limit
  }

  /** Each page starts where the one before it ends. */
  lemma OffsetNextPage(page: int, limit: int)
    requires page >= 1 && limit >= 0
    ensures Offset(page + 1, limit) == Offset(page, limit) + limit
  {
    assert page * limit == (page - 1) * limit + limit;
  }

  /** Offset pagination: skip `skip` rows, then take at most `take`. */
  function Window(s: seq<Record>, skip: nat, take: nat): (r: seq<Record>)
    ensures |r| <= take
    ensures |r| == if skip >= |s| then 0 else if |s| - skip < take then |s| - skip else take
    ensures forall i :: 0 <= i < |r| ==> r[i] == s[skip + i]
  {
    if skip >= |s| then [] else if skip + take >= |s| then s[skip..] else s[skip..skip + take]
  }

  /** The rows of `m` with ids below `k`. */
  function Below(m: map<int, Record>, k: int): map<int, Record>
  {
    map i | i in m && i < k :: m[i]
  }

  /** A non-empty map has a key. */
  lemma SomeKey(m: map<int, Record>)
    requires m != map[]
    ensures exists k :: k in m
  {
    if forall k :: k !in m {
      assert false;
    }
  }

  /** Moving the bound past `k` adds the row under `k`, if any, to the sum. */
  lemma SumTotalsBelowStep(m: map<int, Record>, k: int)
    ensures SumTotals(Below(m, k + 1)) == SumTotals(Below(m, k)) + (if k in m then m[k].total else 0)
  {
    if k in m {
      assert Below(m, k + 1) == Below(m, k)[k := m[k]];
      SumTotalsAdd(Below(m, k), k, m[k]);
    } else {
      assert Below(m, k + 1) == Below(m, k);
    }
  }

  /** The sum of `total` over all rows, in no particular order. */
  ghost function SumTotals(m: map<int, Record>): int
    decreases |m|
  {
    if m == map[] then 0
    else
      SomeKey(m);
      var k :| k in m;
      m[k].total + SumTotals(m - {k})
  }

  /** The sum can be split at any row, whichever row the definition picks. */
  lemma {:induction false} SumTotalsRemove(m: map<int, Record>, k: int)
    requires k in m
    ensures SumTotals(m) == m[k].total + SumTotals(m - {k})
    decreases |m|
  {
    var j :| j in m && SumTotals(m) == m[j].total + SumTotals(m - {j});
    if j != k {
      assert (m - {j}).Keys == m.Keys - {j};
      assert (m - {k}).Keys == m.Keys - {k};
      SumTotalsRemove(m - {j}, k);
      SumTotalsRemove(m - {k}, j);
      assert m - {j} - {k} == m - {k} - {j};
    }
  }

  /** Adding a row adds its fee to the sum. */
  lemma SumTotalsAdd(m: map<int, Record>, k: int, r: Record)
    requires k !in m
    ensures SumTotals(m[k := r]) == SumTotals(m) + r.total
  {
    SumTotalsRemove(m[k := r], k);
    assert m[k := r] - {k} == m;
  }

  /** Replacing a row swaps its fee in the sum. */
  lemma SumTotalsReplace(m: map<int, Record>, k: int, r: Record)
    requires k in m
    ensures SumTotals(m[k := r]) == SumTotals(m) - m[k].total + r.total
  {
    SumTotalsRemove(m[k := r], k);
    SumTotalsRemove(m, k);
    assert m[k := r] - {k} == m - {k};
  }
}
