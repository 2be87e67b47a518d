/** The stay lifecycle: entry resolves or creates the vehicle and opens a stay unless one
    is open; exit closes the open stay, prices it and records exactly one payment. */
module Stays {
  import opened Wrappers
  import opened Pricing
  import opened Records
  import opened Registry

  predicate IsOpen(s: Stay) {
    s.exitAt.None?
  }

  /** No vehicle has two open stays. */
  predicate OneOpenStayPerVehicle(ss: seq<Stay>) {
    forall i, j :: 0 <= i < j < |ss| && IsOpen(ss[i]) && IsOpen(ss[j]) ==> ss[i].vehicleId != ss[j].vehicleId
  }

  /** How many payments were recorded for the stay `stayId`. */
  function PaymentCount(ps: seq<Payment>, stayId: int): nat
  {
    if |ps| == 0 then 0
    else PaymentCount(ps[..|ps| - 1], stayId) + (if ps[|ps| - 1].stayId == stayId then 1 else 0)
  }

  /** The invariant the entry and exit handlers keep over stays and payments: ids grow,
      a vehicle has at most one open stay, every payment belongs to a stay, and a stay has
      exactly one payment once closed and none while open. */
  predicate StaysConsistent(ss: seq<Stay>, ps: seq<Payment>) {
    && StrictlyIncreasing(StayIds(ss))
    && OneOpenStayPerVehicle(ss)
    && StrictlyIncreasing(PaymentIds(ps))
    && (forall i :: 0 <= i < |ps| ==> ps[i].stayId in StayIds(ss))
    && (forall j :: 0 <= j < |ss| ==> PaymentCount(ps, ss[j].id) == if IsOpen(ss[j]) then 0 else 1)
  }

  lemma PaymentCountAppend(ps: seq<Payment>, p: Payment, stayId: int)
    ensures PaymentCount(ps + [p], stayId) == PaymentCount(ps, stayId) + if p.stayId == stayId then 1 else 0
  {
    assert (ps + [p])[..|ps|] == ps;
  }

  /** A stay no payment refers to has no payment. */
  lemma {:induction false} PaymentCountUnreferenced(ps: seq<Payment>, ids: seq<int>, stayId: int)
    requires forall i :: 0 <= i < |ps| ==> ps[i].stayId in ids
    requires stayId !in ids
    ensures PaymentCount(ps, stayId) == 0
  {
    if |ps| > 0 {
      PaymentCountUnreferenced(ps[..|ps| - 1], ids, stayId);
    }
  }

  // Entry

  /** The id of the vehicle an entry with `plate` is for: the first vehicle with that
      plate, or the one about to be created. */
  function ResolvedVehicleId(vs: seq<Vehicle>, plate: string): (id: int)
    ensures (forall i :: 0 <= i < |vs| ==> vs[i].plate != plate) ==> id == NextId(VehicleIds(vs))
    ensures PlatesUnique(vs) ==> forall i :: 0 <= i < |vs| && vs[i].plate == plate ==> id == vs[i].id
  {
    match FindPlate(vs, plate)
    case Some(i) => vs[i].id
    case None => NextId(VehicleIds(vs))
  }

  /** The vehicle table after an entry with a non-empty normalised `plate`: an unknown
      plate gets a vehicle with empty model and colour and no client. */
  function VehiclesAfterEntry(vs: seq<Vehicle>, plate: string): (r: seq<Vehicle>)
    ensures (exists i :: 0 <= i < |vs| && vs[i].plate == plate) ==> r == vs
    ensures (forall i :: 0 <= i < |vs| ==> vs[i].plate != plate) ==>
              r == vs + [Vehicle(NextId(VehicleIds(vs)), plate, "", "", None)]
  {
    if FindPlate(vs, plate).Some? then vs
    else vs + [Vehicle(NextId(VehicleIds(vs)), plate, "", "", None)]
  }

  /** The stay table after an entry of vehicle `vehicleId` at `now`: unchanged while the
      vehicle has an open stay, otherwise a new open stay with amount 0 is appended. */
  function StaysAfterEntry(ss: seq<Stay>, vehicleId: int, now: int): (r: seq<Stay>)
    ensures (exists j :: 0 <= j < |ss| && ss[j].vehicleId == vehicleId && IsOpen(ss[j])) ==> r == ss
    ensures (forall j :: 0 <= j < |ss| ==> !(ss[j].vehicleId == vehicleId && IsOpen(ss[j]))) ==>
              r == ss + [Stay(NextId(StayIds(ss)), vehicleId, now, None, None, 0, None)]
  {
    if FindOpenStay(ss, vehicleId).Some? then ss
    else ss + [Stay(NextId(StayIds(ss)), vehicleId, now, None, None, 0, None)]
  }

  /** After an entry exactly one vehicle has the plate, the one the entry resolved to;
      plates stay unique and vehicle ids keep growing. */
  lemma EntryResolvesOneVehicle(vs: seq<Vehicle>, plate: string)
    requires StrictlyIncreasing(VehicleIds(vs)) && PlatesUnique(vs)
    ensures var after := VehiclesAfterEntry(vs, plate);
      && StrictlyIncreasing(VehicleIds(after)) && PlatesUnique(after)
      && after[..|vs|] == vs
      && exists k :: 0 <= k < |after| && after[k].plate == plate && after[k].id == ResolvedVehicleId(vs, plate)
                     && forall j :: 0 <= j < |after| && j != k ==> after[j].plate != plate
  {
    var after := VehiclesAfterEntry(vs, plate);
    assert after[..|vs|] == vs;
    var k: nat;
    if FindPlate(vs, plate).Some? {
      k := FindPlate(vs, plate).value;
    } else {
      NextIdFresh(VehicleIds(vs));
      assert VehicleIds(after) == VehicleIds(vs) + [NextId(VehicleIds(vs))];
      k := |vs|;
    }
    assert after[k].plate == plate && after[k].id == ResolvedVehicleId(vs, plate);
  }

  /** After an entry the vehicle has exactly one open stay; no stay already recorded
      changes and the invariant over stays and payments is kept. */
  lemma EntryOpensOneStay(ss: seq<Stay>, ps: seq<Payment>, vehicleId: int, now: int)
    requires StaysConsistent(ss, ps)
    ensures var after := StaysAfterEntry(ss, vehicleId, now);
      && StaysConsistent(after, ps)
      && after[..|ss|] == ss
      && exists k :: 0 <= k < |after| && after[k].vehicleId == vehicleId && IsOpen(after[k])
                     && forall j :: 0 <= j < |after| && j != k && IsOpen(after[j]) ==> after[j].vehicleId != vehicleId
  {
    var after := StaysAfterEntry(ss, vehicleId, now);
    assert after[..|ss|] == ss;
    var k: nat;
    if FindOpenStay(ss, vehicleId).Some? {
      k := FindOpenStay(ss, vehicleId).value;
    } else {
      AppendOpenStayKeepsConsistent(ss, ps, after[|ss|]);
      assert after == ss + [after[|ss|]];
      k := |ss|;
    }
    assert after[k].vehicleId == vehicleId && IsOpen(after[k]);
  }

  lemma AppendOpenStayKeepsConsistent(ss: seq<Stay>, ps: seq<Payment>, s: Stay)
    requires StaysConsistent(ss, ps)
    requires s.id == NextId(StayIds(ss)) && IsOpen(s)
    requires forall j :: 0 <= j < |ss| ==> !(ss[j].vehicleId == s.vehicleId && IsOpen(ss[j]))
    ensures StaysConsistent(ss + [s], ps)
  {
    var after := ss + [s];
    NextIdFresh(StayIds(ss));
    assert StayIds(after) == StayIds(ss) + [s.id];
    PaymentCountUnreferenced(ps, StayIds(ss), s.id);
    assert forall i :: 0 <= i < |ps| ==> ps[i].stayId in StayIds(after);
    assert OneOpenStayPerVehicle(after);
  }

  /** Entering the same plate again, at any time, changes nothing more: the vehicle is the
      same and its open stay is kept. */
  lemma EntryIdempotent(vs: seq<Vehicle>, ss: seq<Stay>, plate: string, now1: int, now2: int)
    ensures var vs1 := VehiclesAfterEntry(vs, plate);
      var id := ResolvedVehicleId(vs, plate);
      var ss1 := StaysAfterEntry(ss, id, now1);
      && VehiclesAfterEntry(vs1, plate) == vs1
      && ResolvedVehicleId(vs1, plate) == id
      && StaysAfterEntry(ss1, ResolvedVehicleId(vs1, plate), now2) == ss1
  {
    var vs1 := VehiclesAfterEntry(vs, plate);
    var id := ResolvedVehicleId(vs, plate);
    var ss1 := StaysAfterEntry(ss, id, now1);
    if FindPlate(vs, plate).None? {
      assert vs1[|vs|].plate == plate;
    }
    if FindOpenStay(ss, id).None? {
      assert ss1[|ss|].vehicleId == id && IsOpen(ss1[|ss|]);
    }
  }

  // Exit

  datatype ExitError = PlateNotFound | NoOpenStay | NoActiveRule

  /** Where an exit applies: the open stay to close and the rule to price it with. */
  datatype ExitTarget = ExitTarget(stay: nat, rule: nat)

  /** The three guards of the exit handler, in the source's order. */
  function LocateExit(vs: seq<Vehicle>, ss: seq<Stay>, rs: seq<PriceRule>, plate: string): (r: Result<ExitTarget, ExitError>)
    ensures r == Failure(PlateNotFound) <==> forall i :: 0 <= i < |vs| ==> vs[i].plate != plate
    ensures r == Failure(NoOpenStay) <==>
      exists i :: 0 <= i < |vs| && vs[i].plate == plate && FindPlate(vs, plate) == Some(i)
        && forall j :: 0 <= j < |ss| ==> !(ss[j].vehicleId == vs[i].id && IsOpen(ss[j]))
    ensures r == Failure(NoActiveRule) ==> forall j :: 0 <= j < |rs| ==> !rs[j].active
    ensures r.Success? ==>
      && r.value.stay < |ss| && IsOpen(ss[r.value.stay])
      && r.value.rule < |rs| && rs[r.value.rule].active
      && FindPlate(vs, plate).Some?
      && FindOpenStay(ss, vs[FindPlate(vs, plate).value].id) == Some(r.value.stay)
      && PickRule(rs) == Some(r.value.rule)
  {
    match FindPlate(vs, plate)
    case None => Failure(PlateNotFound)
    case Some(i) =>
      match FindOpenStay(ss, vs[i].id)
      case None => Failure(NoOpenStay)
      case Some(k) =>
        match PickRule(rs)
        case None => Failure(NoActiveRule)
        case Some(ri) => Success(ExitTarget(k, ri))
  }

  /** The stay after `stay.exitAt = now` and the fee of `calcAmount` are written to it. */
  function CloseStay(s: Stay, fee: Fee, now: int): (c: Stay)
    ensures !IsOpen(c) && c.id == s.id && c.vehicleId == s.vehicleId && c.entryAt == s.entryAt
    ensures c.exitAt == Some(now) && c.amount == fee.amount
    ensures c.minutes == Some(fee.minutes) && c.ruleDesc == Some(fee.desc)
  {
    s.(exitAt := Some(now), amount := fee.amount, minutes := Some(fee.minutes), ruleDesc := Some(fee.desc))
  }

  /** The stay table after an exit: stay `k` is closed with the fee, every other stay is
      kept. */
  function StaysAfterExit(ss: seq<Stay>, k: nat, fee: Fee, now: int): (r: seq<Stay>)
    requires k < |ss|
    ensures |r| == |ss| && StayIds(r) == StayIds(ss)
    ensures r[k] == CloseStay(ss[k], fee, now)
    ensures forall j :: 0 <= j < |ss| && j != k ==> r[j] == ss[j]
  {
    ss[k := CloseStay(ss[k], fee, now)]
  }

  /** The payment table after an exit: one payment for the stay, for the fee's amount,
      attributed to the open shift if there is one. */
  function PaymentsAfterExit(ps: seq<Payment>, stayId: int, payMethod: string, now: int, amount: int,
                             shiftId: Option<int>): (r: seq<Payment>)
    ensures |r| == |ps| + 1 && r[..|ps|] == ps
    ensures r[|ps|].id == NextId(PaymentIds(ps))
    ensures r[|ps|].stayId == stayId && r[|ps|].amount == amount && r[|ps|].cashShiftId == shiftId
    ensures r[|ps|].paidAt == now && r[|ps|].payMethod == payMethod
    ensures StrictlyIncreasing(PaymentIds(ps)) ==> StrictlyIncreasing(PaymentIds(r))
  {
    ps + [Payment(NextId(PaymentIds(ps)), stayId, now, payMethod, amount, shiftId)]
  }

  /** Closing an open stay with its payment keeps the invariant: the closed stay now has
      exactly one payment, of the amount written to it, and no other stay or payment
      changes. */
  lemma ExitRecordsOnePayment(ss: seq<Stay>, ps: seq<Payment>, k: nat, fee: Fee, now: int,
                              payMethod: string, shiftId: Option<int>)
    requires StaysConsistent(ss, ps)
    requires k < |ss| && IsOpen(ss[k])
    ensures var ss' := StaysAfterExit(ss, k, fee, now);
      var ps' := PaymentsAfterExit(ps, ss[k].id, payMethod, now, fee.amount, shiftId);
      && StaysConsistent(ss', ps')
      && PaymentCount(ps, ss[k].id) == 0 && PaymentCount(ps', ss[k].id) == 1
      && ps'[..|ps|] == ps && |ps'| == |ps| + 1
      && ps'[|ps|].amount == ss'[k].amount == fee.amount && ps'[|ps|].stayId == ss'[k].id
      && (forall j :: 0 <= j < |ss| && j != k ==> ss'[j] == ss[j])
  {
    var ss' := StaysAfterExit(ss, k, fee, now);
    var ps' := PaymentsAfterExit(ps, ss[k].id, payMethod, now, fee.amount, shiftId);
    var p := ps'[|ps|];
    assert ps' == ps + [p];
    assert ps'[..|ps|] == ps;
    assert StayIds(ss') == StayIds(ss);
    NextIdFresh(PaymentIds(ps));
    assert PaymentIds(ps') == PaymentIds(ps) + [p.id];
    forall j | 0 <= j < |ss'|
      ensures PaymentCount(ps', ss'[j].id) == if IsOpen(ss'[j]) then 0 else 1
    {
      PaymentCountAppend(ps, p, ss[j].id);
      if j != k {
        assert StayIds(ss)[j] != StayIds(ss)[k];
      }
    }
    assert StayIds(ss)[k] == ss[k].id;
  }
}
