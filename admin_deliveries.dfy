/** The deliveries page of the back office: the submit gate of the new
    delivery form, the status update after a successful request, the status
    each row shows, the actions offered for it, and the counters. The phone
    helpers of this page are the ones of the `Phone` module. */
module AdminDeliveriesModel {
  import opened Options
  import opened Text
  import opened Js
  import opened Seqs
  import opened Phone
  import opened Fields
  import opened AdminStatus

  /** The fields of the new delivery form. */
  datatype DeliveryForm = DeliveryForm(supplierId: string, employeeId: string, driverName: string,
                                       driverPhone: string, vehicleNumber: string, status: string)

  /** `handleSubmit` up to the request: only the driver's phone is checked;
      an accepted form is sent with the phone reduced to its digits and every
      other field as typed. */
  function PrepareDelivery(form: DeliveryForm): (r: Option<DeliveryForm>)
    ensures r.Some? <==> ValidatePhone(form.driverPhone)
    ensures r.Some? ==> r.value.driverPhone == Digits(form.driverPhone) &&
                        r.value.(driverPhone := form.driverPhone) == form &&
                        IsRussianMobile(r.value.driverPhone) && AllDigits(r.value.driverPhone)
  {
    if !ValidatePhone(form.driverPhone) then None
    else
      DigitsAreDigits(form.driverPhone);
      Some(form.(driverPhone := Digits(form.driverPhone)))
  }

  /** The id the update compares: `delivery.id || delivery.Id || delivery.ID`. */
  predicate Targets(delivery: Record, deliveryId: Value)
    ensures deliveryId == IdOf(delivery) ==> Targets(delivery, deliveryId)
    ensures Truthy(Get(delivery, "id")) ==> (Targets(delivery, deliveryId) <==> LooseEq(Get(delivery, "id"), deliveryId))
  {
    LooseEqSymmetric(IdOf(delivery), deliveryId);
    LooseEq(IdOf(delivery), deliveryId)
  }

  /** `updateDeliveryStatus`: when the request succeeds, every delivery whose
      id loosely equals the target gets `Status` set and every other one is
      left as it is; when it fails nothing changes. */
  function UpdateDeliveryStatus(ds: seq<Record>, deliveryId: Value, newStatus: string, success: bool): (r: seq<Record>)
    ensures |r| == |ds|
    ensures !success ==> r == ds
    ensures forall k :: 0 <= k < |ds| ==>
              r[k] == if success && Targets(ds[k], deliveryId) then SetStatus(ds[k], newStatus) else ds[k]
  {
    if !success then ds
    else seq(|ds|, k requires 0 <= k < |ds| =>
           if Targets(ds[k], deliveryId) then SetStatus(ds[k], newStatus) else ds[k])
  }

  /** The status a row shows and the counters test:
      `getField(d, 'status') || getField(d, 'Status') || 'Unknown'`. */
  function DeliveryStatus(d: Record): (s: Value)
    ensures Truthy(s)
  {
    Or(Or(FieldOf(Some(d), "status"), FieldOf(Some(d), "Status")), Str("Unknown"))
  }

  /** After a successful update a targeted row shows the new status unless
      the record carries its own `status` value, which keeps showing. A
      row that was not targeted shows what it showed before. */
  lemma UpdatedRowShows(ds: seq<Record>, deliveryId: Value, newStatus: string, k: nat)
    requires k < |ds| && newStatus != ""
    ensures var r := UpdateDeliveryStatus(ds, deliveryId, newStatus, true);
            (Targets(ds[k], deliveryId) && Get(ds[k], "status") == Null && Get(ds[k], "STATUS") == Null ==>
               DeliveryStatus(r[k]) == Str(newStatus)) &&
            (Targets(ds[k], deliveryId) && Truthy(Get(ds[k], "status")) ==>
               DeliveryStatus(r[k]) == DeliveryStatus(ds[k]) == Get(ds[k], "status")) &&
            (!Targets(ds[k], deliveryId) ==> DeliveryStatus(r[k]) == DeliveryStatus(ds[k]))
  {
    StatusAfterSet(ds[k], newStatus);
  }

  /** The id a row's buttons send: `getField(delivery, 'id') || index + 1`. */
  function RowId(d: Record, index: nat): (id: Value)
    ensures Truthy(id)
  {
    Or(FieldOf(Some(d), "id"), Num(index + 1))
  }

  /** The row's buttons and the update agree on a record with a truthy
      `id`: its own button updates it. A record with none of `id`, `Id`
      and `ID` sends its position instead, and the update then leaves it
      as it was. */
  lemma RowButtonsTarget(ds: seq<Record>, k: nat, newStatus: string)
    requires k < |ds|
    ensures Truthy(Get(ds[k], "id")) ==>
              UpdateDeliveryStatus(ds, RowId(ds[k], k), newStatus, true)[k] == SetStatus(ds[k], newStatus)
    ensures Get(ds[k], "id") == Null && Get(ds[k], "Id") == Null && Get(ds[k], "ID") == Null ==>
              UpdateDeliveryStatus(ds, RowId(ds[k], k), newStatus, true)[k] == ds[k]
  {
    IdSpellings();
    FieldOfOrder(ds[k], "id");
    LooseEqSymmetric(Get(ds[k], "id"), Get(ds[k], "id"));
  }

  /** The status targets a row's buttons offer, in button order. */
  function DeliveryActions(status: Value): (targets: seq<string>)
    ensures forall t :: t in targets <==>
              (status == Str("Pending") && t == "In Transit") ||
              (status == Str("In Transit") && t == "Delivered") ||
              (status != Str("Delivered") && t == "Cancelled")
  {
    (if status == Str("Pending") then ["In Transit"] else []) +
    (if status == Str("In Transit") then ["Delivered"] else []) +
    (if status != Str("Delivered") then ["Cancelled"] else [])
  }

  /** The action graph: a delivery moves forward through Pending,
      In Transit and Delivered; Delivered offers nothing; a cancelled or
      unknown delivery can only be cancelled again; nothing leads back to
      Pending. */
  lemma DeliveryTransitions(status: Value)
    ensures DeliveryActions(Str("Pending")) == ["In Transit", "Cancelled"]
    ensures DeliveryActions(Str("In Transit")) == ["Delivered", "Cancelled"]
    ensures DeliveryActions(Str("Delivered")) == []
    ensures status !in {Str("Pending"), Str("In Transit"), Str("Delivered")} ==> DeliveryActions(status) == ["Cancelled"]
    ensures "Pending" !in DeliveryActions(status)
  {
  }

  /** The test behind one counter: an exact, case-sensitive match. */
  function HasDeliveryStatus(word: string): Record -> bool {
    (d: Record) => DeliveryStatus(d) == Str(word)
  }

  /** `calculateStats` without the amount sum. */
  method DeliveryStats(ds: seq<Record>) returns (pending: nat, inTransit: nat, delivered: nat)
    ensures pending == Count(ds, HasDeliveryStatus("Pending"))
    ensures inTransit == Count(ds, HasDeliveryStatus("In Transit"))
    ensures delivered == Count(ds, HasDeliveryStatus("Delivered"))
    ensures pending + inTransit + delivered <= |ds|
  {
    pending, inTransit, delivered := 0, 0, 0;
    var k := 0;
    while k < |ds|
      invariant 0 <= k <= |ds|
      invariant Tallied(ds[..k], pending, inTransit, delivered)
    {
      var status := DeliveryStatus(ds[k]);
      StatsStep(ds, k, pending, inTransit, delivered);
      if status == Str("Pending") {
        pending := pending + 1;
      }
      if status == Str("In Transit") {
        inTransit := inTransit + 1;
      }
      if status == Str("Delivered") {
        delivered := delivered + 1;
      }
      k := k + 1;
    }
    assert ds[..k] == ds;
    CountDisjoint(ds, HasDeliveryStatus("Pending"), HasDeliveryStatus("In Transit"), HasDeliveryStatus("Delivered"));
  }

  /** The three counters agree with the deliveries seen so far. */
  ghost predicate Tallied(seen: seq<Record>, pending: nat, inTransit: nat, delivered: nat) {
    pending == Count(seen, HasDeliveryStatus("Pending")) &&
    inTransit == Count(seen, HasDeliveryStatus("In Transit")) &&
    delivered == Count(seen, HasDeliveryStatus("Delivered"))
  }

  /** One step of the counting loop: the delivery at `k` adds one to the
      counter its status names. */
  lemma StatsStep(ds: seq<Record>, k: nat, pending: nat, inTransit: nat, delivered: nat)
    requires k < |ds| && Tallied(ds[..k], pending, inTransit, delivered)
    ensures var status := DeliveryStatus(ds[k]);
            Tallied(ds[..k + 1], pending + (if status == Str("Pending") then 1 else 0),
                    inTransit + (if status == Str("In Transit") then 1 else 0),
                    delivered + (if status == Str("Delivered") then 1 else 0))
  {
    CountStep(ds, k, HasDeliveryStatus("Pending"));
    CountStep(ds, k, HasDeliveryStatus("In Transit"));
    CountStep(ds, k, HasDeliveryStatus("Delivered"));
  }

  /** The counters compare case-sensitively: a delivery whose status is a
      lower-case "pending" is counted in no bucket. */
  lemma CountersCaseSensitive(d: Record)
    requires Get(d, "status") == Str("pending")
    ensures !HasDeliveryStatus("Pending")(d) && !HasDeliveryStatus("In Transit")(d) && !HasDeliveryStatus("Delivered")(d)
  {
    StatusSpellings();
    FieldOfOrder(d, "status");
  }
}
