/** A client of the service that derives these example runs from the
    operations' contracts alone: a two-hour `roda4` entry costs 10000 and,
    updated to five hours, 22000 with its plate untouched; revenue over fees
    3000 and 22000 is 25000; deleting or looking up a deleted id is NotFound. */
module ParkingScenarios {
  import opened Outcomes
  import opened ParkingRules
  import opened ParkingRecords
  import opened ParkingStore

  method CreateUpdateRemove(now: Timestamp)
  {
    var svc := new ParkingService();
    var revenue := svc.TotalPendapatan();
    assert revenue == 0;

    var car := svc.Create("B123XY", "roda4", 2, now);
    assert car.total == 10000 && car.durasi == 2 && car.jenisKendaraan == "RODA4";

    var bike := svc.Create("B7Z", "roda2", 1, now);
    assert bike.total == 3000;

    var res := svc.Update(car.id, UpdateBody(None, None, Some(5), None));
    assert res.Ok? && res.value.platNomor == "B123XY" && res.value.durasi == 5;
    EnumRoundTrip("RODA4");
    assert res.value.total == 22000;

    revenue := svc.TotalPendapatan();
    assert revenue == 25000;

    var gone := svc.Remove(bike.id);
    assert gone == Ok(bike);
    var again := svc.Remove(bike.id);
    assert again == Err(NotFound);
    var missing := svc.FindOne(bike.id);
    assert missing == Err(NotFound);
  }
}
