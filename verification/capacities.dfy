/** The producer capacity record, the registration request and the request validator that
    both revisions of the producer service run before saving anything. */
module Capacities {
  import opened Results
  import opened Text

  /** `excessVaccines` holds the doses of the pool not yet given to any order. */
  datatype Capacity = Capacity(
    id: nat,
    producerName: string,
    vaccinesQuantity: int,
    productionDeadline: string,
    excessVaccines: int)

  /** The request body; absent fields are Java nulls. */
  datatype CapacityRequest = CapacityRequest(
    producerName: Option<string>,
    vaccinesQuantity: int,
    productionDeadline: Option<string>)

  /** The request's fields once validation has passed. */
  datatype CapacityFields = CapacityFields(producerName: string, vaccinesQuantity: int, productionDeadline: string)

  const ProducerNameEmpty := "Producer name cannot be null or empty."
  const VaccinesQuantityNotPositive := "Vaccine quantity must be positive."
  const DeadlineEmpty := "Production deadline cannot be null or empty."

  /** The three checks run in source order: the first failing one names the error. */
  function ValidateCapacityRequest(req: CapacityRequest): (r: Result<CapacityFields>)
    ensures r == Err(IllegalArgument(ProducerNameEmpty)) <==> IsBlank(req.producerName)
    ensures r == Err(IllegalArgument(VaccinesQuantityNotPositive)) <==>
      !IsBlank(req.producerName) && req.vaccinesQuantity <= 0
    ensures r == Err(IllegalArgument(DeadlineEmpty)) <==>
      !IsBlank(req.producerName) && req.vaccinesQuantity > 0 && IsBlank(req.productionDeadline)
    ensures r.Ok? <==>
      !IsBlank(req.producerName) && req.vaccinesQuantity > 0 && !IsBlank(req.productionDeadline)
    ensures r.Ok? ==>
      && Some(r.value.producerName) == req.producerName
      && r.value.vaccinesQuantity == req.vaccinesQuantity
      && Some(r.value.productionDeadline) == req.productionDeadline
  {
    if IsBlank(req.producerName) then Err(IllegalArgument(ProducerNameEmpty))
    else if req.vaccinesQuantity <= 0 then Err(IllegalArgument(VaccinesQuantityNotPositive))
    else if IsBlank(req.productionDeadline) then Err(IllegalArgument(DeadlineEmpty))
    else Ok(CapacityFields(req.producerName.value, req.vaccinesQuantity, req.productionDeadline.value))
  }

  /** The sum of `excessVaccines` over the ledger. */
  function TotalExcess(caps: seq<Capacity>): int
  {
    if |caps| == 0 then 0 else caps[0].excessVaccines + TotalExcess(caps[1..])
  }

  lemma {:induction false} TotalExcessAppend(caps: seq<Capacity>, c: Capacity)
    ensures TotalExcess(caps + [c]) == TotalExcess(caps) + c.excessVaccines
  {
    if |caps| > 0 {
      assert (caps + [c])[1..] == caps[1..] + [c];
      TotalExcessAppend(caps[1..], c);
    }
  }

  /** A ledger whose excess is zero everywhere but the last entry totals that entry. */
  lemma {:induction false} TotalExcessOfZeroedPrefix(caps: seq<Capacity>)
    requires |caps| > 0
    requires forall i :: 0 <= i < |caps| - 1 ==> caps[i].excessVaccines == 0
    ensures TotalExcess(caps) == caps[|caps| - 1].excessVaccines
  {
    if |caps| > 1 {
      TotalExcessOfZeroedPrefix(caps[1..]);
    }
  }

  /** The ledger after registration books all excess on `created`: every earlier capacity is
      kept with its excess zeroed, `created` is appended, and the ledger totals its excess. */
  function Rebook(caps: seq<Capacity>, created: Capacity): (r: seq<Capacity>)
    ensures |r| == |caps| + 1 && r[|caps|] == created
    ensures forall i :: 0 <= i < |caps| ==> r[i] == caps[i].(excessVaccines := 0)
    ensures TotalExcess(r) == created.excessVaccines
  {
    var r := seq(|caps|, i requires 0 <= i < |caps| => caps[i].(excessVaccines := 0)) + [created];
    TotalExcessOfZeroedPrefix(r);
    r
  }
}
