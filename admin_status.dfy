/** The status write shared by the orders and deliveries pages: a
    successful update copies the record and sets its capitalised `Status`
    key, while every status read goes through `getField(record, 'status')`,
    which looks at `status` and `STATUS` before `Status`. */
module AdminStatus {
  import opened Options
  import opened Text
  import opened Js
  import opened Fields

  /** `{ ...record, Status: newStatus }`. */
  function SetStatus(record: Record, newStatus: string): (r: Record)
    ensures Get(r, "Status") == Str(newStatus)
    ensures forall key :: key != "Status" ==> Get(r, key) == Get(record, key)
  {
    record["Status" := Str(newStatus)]
  }

  /** The spellings `getField(record, 'status')` probes, in order. */
  lemma StatusSpellings()
    ensures FieldVariants("status") == ["status", "status", "STATUS", "Status"]
    ensures FieldVariants("Status") == ["Status", "status", "STATUS", "Status"]
  {
    assert Lower("status") == "status";
    assert Upper("status") == "STATUS";
    assert Capitalize("status") == "Status" by { assert Upper("s") == "S"; }
    assert Lower("Status") == "status" by { assert LowerChar('S') == 's'; }
    assert Upper("Status") == "STATUS";
    assert Capitalize("Status") == "Status" by { assert Upper("S") == "S"; }
  }

  /** What the status read gives after the write: the new status when the
      record has neither a `status` nor a `STATUS` value, and the old
      `status` value whenever the record has one, so that value shadows
      the update. */
  lemma StatusAfterSet(record: Record, newStatus: string)
    ensures Get(record, "status") == Null && Get(record, "STATUS") == Null ==>
              FieldOf(Some(SetStatus(record, newStatus)), "status") == Str(newStatus)
    ensures Get(record, "status") != Null ==>
              FieldOf(Some(SetStatus(record, newStatus)), "status") == Get(record, "status") &&
              FieldOf(Some(record), "status") == Get(record, "status")
    ensures Get(record, "status") == Null && Get(record, "STATUS") != Null ==>
              FieldOf(Some(SetStatus(record, newStatus)), "status") == Get(record, "STATUS")
  {
    StatusSpellings();
    var r := SetStatus(record, newStatus);
    ProbeOrder(r, FieldVariants("status"));
    ProbeOrder(record, FieldVariants("status"));
  }

  /** The same for the second read `getField(record, 'Status')`, which the
      deliveries page falls back to when the first read is falsy. */
  lemma CapitalStatusAfterSet(record: Record, newStatus: string)
    ensures FieldOf(Some(SetStatus(record, newStatus)), "Status") == Str(newStatus)
  {
    StatusSpellings();
    ProbeOrder(SetStatus(record, newStatus), FieldVariants("Status"));
  }

  /** The spellings `getField(record, 'id')` probes, in order. */
  lemma IdSpellings()
    ensures FieldVariants("id") == ["id", "id", "ID", "Id"]
  {
    assert Lower("id") == "id";
    assert Upper("id") == "ID";
    assert Capitalize("id") == "Id" by { assert Upper("i") == "I"; }
  }
}
