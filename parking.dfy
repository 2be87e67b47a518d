/** The in-memory dataset `db` and the handlers that change it. Each handler of the source
    loads the dataset, changes it and saves it whole; here a handler is a method on `Db`,
    with the form fields and the clock passed in. The methods accept any dataset, as the
    source does, and keep the dataset invariant `Valid()` whenever it held before. */
module Parking {
  import opened Wrappers
  import opened Text
  import opened Plates
  import opened Pricing
  import opened Records
  import opened Registry
  import opened Cash
  import opened Stays

  datatype EntryOutcome = EmptyPlate | AlreadyParked | Parked

  class Db {
    var vehicles: seq<Vehicle>
    var stays: seq<Stay>
    var priceRules: seq<PriceRule>
    var cashShifts: seq<CashShift>
    var payments: seq<Payment>
    var clients: seq<Client>

    /** Ids grow in every table, plates are unique, a vehicle has at most one open stay,
        a closed stay has exactly one payment and an open one none, and at most one cash
        shift is open. */
    ghost predicate Valid()
      reads this
    {
      && StrictlyIncreasing(VehicleIds(vehicles)) && PlatesUnique(vehicles)
      && StaysConsistent(stays, payments)
      && StrictlyIncreasing(ShiftIds(cashShifts)) && AtMostOneOpenShift(cashShifts)
      && StrictlyIncreasing(ClientIds(clients))
      && StrictlyIncreasing(RuleIds(priceRules))
    }

    /** `seedDB`: empty tables and the standard price rule. */
    constructor Seed()
      ensures Valid()
      ensures vehicles == [] && stays == [] && cashShifts == [] && payments == [] && clients == []
      ensures priceRules == [StandardRule()]
    {
      vehicles, stays, cashShifts, payments, clients := [], [], [], [], [];
      priceRules := [StandardRule()];
    }

    /** The entry form: resolve or create the vehicle by normalised plate, then open a
        stay at `now` unless the vehicle already has one open. */
    method Enter(rawPlate: string, now: int) returns (outcome: EntryOutcome)
      modifies this
      ensures var plate := NormalizePlate(rawPlate);
        if plate == [] then
          outcome == EmptyPlate && vehicles == old(vehicles) && stays == old(stays)
        else
          var vehicleId := ResolvedVehicleId(old(vehicles), plate);
          && vehicles == VehiclesAfterEntry(old(vehicles), plate)
          && stays == StaysAfterEntry(old(stays), vehicleId, now)
          && outcome == (if FindOpenStay(old(stays), vehicleId).Some? then AlreadyParked else Parked)
      ensures priceRules == old(priceRules) && cashShifts == old(cashShifts)
      ensures payments == old(payments) && clients == old(clients)
      ensures old(Valid()) ==> Valid()
    {
      ghost var wasValid := Valid();
      var plate := NormalizePlate(rawPlate);
      if plate == [] {
        return EmptyPlate;
      }
      var found := FindPlate(vehicles, plate);
      var vehicle: Vehicle;
      if found.Some? {
        vehicle := vehicles[found.value];
      } else {
        vehicle := Vehicle(NextId(VehicleIds(vehicles)), plate, "", "", None);
        vehicles := vehicles + [vehicle];
      }
      assert vehicles == VehiclesAfterEntry(old(vehicles), plate);
      assert vehicle.id == ResolvedVehicleId(old(vehicles), plate);
      if wasValid {
        EntryResolvesOneVehicle(old(vehicles), plate);
      }
      var open := FindOpenStay(stays, vehicle.id);
      if open.Some? {
        return AlreadyParked;
      }
      stays := stays + [Stay(NextId(StayIds(stays)), vehicle.id, now, None, None, 0, None)];
      assert stays == StaysAfterEntry(old(stays), vehicle.id, now);
      if wasValid {
        EntryOpensOneStay(old(stays), payments, vehicle.id, now);
      }
      outcome := Parked;
    }

    /** The exit form: find the vehicle, its open stay and the active rule (failing, and
        changing nothing, at the first that is missing), then close the stay at `now`
        with its fee and append one payment attributed to the open shift, if any. */
    method Exit(rawPlate: string, payMethod: string, now: int) returns (result: Result<Fee, ExitError>)
      modifies this
      ensures vehicles == old(vehicles) && priceRules == old(priceRules)
      ensures cashShifts == old(cashShifts) && clients == old(clients)
      ensures match LocateExit(old(vehicles), old(stays), old(priceRules), NormalizePlate(rawPlate))
        case Failure(e) =>
          result == Failure(e) && stays == old(stays) && payments == old(payments)
        case Success(t) =>
          var fee := CalcAmount(old(priceRules)[t.rule], old(stays)[t.stay].entryAt, now);
          && result == Success(fee)
          && stays == StaysAfterExit(old(stays), t.stay, fee, now)
          && payments == PaymentsAfterExit(old(payments), old(stays)[t.stay].id, payMethod, now,
                                           fee.amount, OpenShiftId(cashShifts))
      ensures old(Valid()) ==> Valid()
    {
      var plate := NormalizePlate(rawPlate);
      var located := LocateExit(vehicles, stays, priceRules, plate);
      if located.Failure? {
        return Failure(located.error);
      }
      var k := located.value.stay;
      var fee := CalcAmount(priceRules[located.value.rule], stays[k].entryAt, now);
      var shiftId := OpenShiftId(cashShifts);
      if old(Valid()) {
        ExitRecordsOnePayment(stays, payments, k, fee, now, payMethod, shiftId);
      }
      var stayId := stays[k].id;
      stays := StaysAfterExit(stays, k, fee, now);
      payments := PaymentsAfterExit(payments, stayId, payMethod, now, fee.amount, shiftId);
      result := Success(fee);
    }

    /** The client form: append a client with the next id. */
    method CreateClient(name: string, phone: string, notes: string, vipField: string)
      modifies this
      ensures clients == old(clients) + [NewClient(old(clients), name, phone, notes, vipField)]
      ensures vehicles == old(vehicles) && stays == old(stays) && priceRules == old(priceRules)
      ensures cashShifts == old(cashShifts) && payments == old(payments)
      ensures old(Valid()) ==> Valid()
    {
      ghost var wasValid := Valid();
      if wasValid {
        NewClientKeepsIdsGrowing(clients, name, phone, notes, vipField);
      }
      clients := clients + [Client(NextId(ClientIds(clients)), Trim(name), Trim(phone), Trim(notes), vipField == "1")];
    }

    /** The delete button of client `id`: remove every client with that id and set the
        client reference of the vehicles that pointed to it to null. */
    method DeleteClient(id: int)
      modifies this
      ensures clients == ClientsWithout(old(clients), id)
      ensures |vehicles| == |old(vehicles)|
      ensures forall k :: 0 <= k < |vehicles| ==> vehicles[k] == Unlinked(old(vehicles)[k], id)
      ensures stays == old(stays) && priceRules == old(priceRules)
      ensures cashShifts == old(cashShifts) && payments == old(payments)
      ensures old(Valid()) ==> Valid()
    {
      ghost var wasValid := Valid();
      clients := ClientsWithout(clients, id);
      var i := 0;
      while i < |vehicles|
        invariant 0 <= i <= |vehicles| == |old(vehicles)|
        invariant forall k :: 0 <= k < i ==> vehicles[k] == Unlinked(old(vehicles)[k], id)
        invariant forall k :: i <= k < |vehicles| ==> vehicles[k] == old(vehicles)[k]
        invariant clients == ClientsWithout(old(clients), id)
        invariant stays == old(stays) && priceRules == old(priceRules)
        invariant cashShifts == old(cashShifts) && payments == old(payments)
      {
        if vehicles[i].clientId == Some(id) {
          vehicles := vehicles[i := vehicles[i].(clientId := None)];
        }
        i := i + 1;
      }
      if wasValid {
        ClientsWithoutIncreasing(old(clients), id);
        assert VehicleIds(vehicles) == VehicleIds(old(vehicles));
      }
    }

    /** The toggle button of rule `id`. */
    method ToggleRule(id: int)
      modifies this
      ensures priceRules == RulesAfterToggle(old(priceRules), id)
      ensures vehicles == old(vehicles) && stays == old(stays) && clients == old(clients)
      ensures cashShifts == old(cashShifts) && payments == old(payments)
      ensures old(Valid()) ==> Valid()
    {
      ToggleFlipsOneFlag(priceRules, id);
      var r := FindRule(priceRules, id);
      if r.Some? {
        priceRules := priceRules[r.value := priceRules[r.value].(active := !priceRules[r.value].active)];
      }
    }

    /** The vehicle form: rejected (nothing changes) for an empty or already registered
        normalised plate, otherwise the vehicle is appended with the next id. */
    method CreateVehicle(rawPlate: string, model: string, color: string, clientId: Option<int>)
      returns (created: bool)
      modifies this
      ensures var plate := NormalizePlate(rawPlate);
        && vehicles == VehiclesAfterCreate(old(vehicles), plate, Trim(model), Trim(color), clientId)
        && (created <==> plate != [] && forall i :: 0 <= i < |old(vehicles)| ==> old(vehicles)[i].plate != plate)
      ensures stays == old(stays) && priceRules == old(priceRules) && clients == old(clients)
      ensures cashShifts == old(cashShifts) && payments == old(payments)
      ensures old(Valid()) ==> Valid()
    {
      ghost var wasValid := Valid();
      var plate := NormalizePlate(rawPlate);
      if wasValid {
        CreateVehicleKeepsPlatesUnique(vehicles, plate, Trim(model), Trim(color), clientId);
      }
      if plate == [] {
        return false;
      }
      if FindPlate(vehicles, plate).Some? {
        return false;
      }
      vehicles := vehicles + [Vehicle(NextId(VehicleIds(vehicles)), plate, Trim(model), Trim(color), clientId)];
      created := true;
    }

    /** The price form: append an active rule with the next id; an empty field is None. */
    method CreatePriceRule(name: string, firstHourValue: Option<int>, fractionMinutes: Option<int>,
                           fractionValue: Option<int>, dailyMax: Option<int>)
      modifies this
      ensures priceRules == old(priceRules) +
        [NewPriceRule(old(priceRules), name, firstHourValue, fractionMinutes, fractionValue, dailyMax)]
      ensures vehicles == old(vehicles) && stays == old(stays) && clients == old(clients)
      ensures cashShifts == old(cashShifts) && payments == old(payments)
      ensures old(Valid()) ==> Valid()
    {
      var rule := NewPriceRule(priceRules, name, firstHourValue, fractionMinutes, fractionValue, dailyMax);
      if Valid() {
        NewPriceRuleKeepsIdsGrowing(priceRules, rule);
      }
      priceRules := priceRules + [rule];
    }

    /** The open-register button: a no-op while a shift is open; otherwise a shift opened
        at `now` with the initial amount (0 when the field is empty). */
    method OpenShift(initialAmount: Option<int>, now: int) returns (started: bool)
      modifies this
      ensures cashShifts == ShiftsAfterOpen(old(cashShifts), initialAmount.GetOr(0), now)
      ensures started <==> forall i :: 0 <= i < |old(cashShifts)| ==> old(cashShifts)[i].closedAt.Some?
      ensures vehicles == old(vehicles) && stays == old(stays) && clients == old(clients)
      ensures priceRules == old(priceRules) && payments == old(payments)
      ensures old(Valid()) ==> Valid()
    {
      if Valid() {
        OpenShiftKeepsOneOpen(cashShifts, initialAmount.GetOr(0), now);
      }
      if GetOpenShift(cashShifts).Some? {
        return false;
      }
      cashShifts := cashShifts + [CashShift(NextId(ShiftIds(cashShifts)), now, None, initialAmount.GetOr(0))];
      started := true;
    }

    /** The close-register button: sets `closedAt` on the shift `getOpenShift` finds; a
        no-op when none is open. */
    method CloseShift(now: int) returns (closed: bool)
      modifies this
      ensures cashShifts == ShiftsAfterClose(old(cashShifts), now)
      ensures closed <==> exists i :: 0 <= i < |old(cashShifts)| && old(cashShifts)[i].closedAt.None?
      ensures vehicles == old(vehicles) && stays == old(stays) && clients == old(clients)
      ensures priceRules == old(priceRules) && payments == old(payments)
      ensures old(Valid()) ==> Valid()
    {
      if Valid() {
        CloseShiftClosesTheOpenOne(cashShifts, now);
      }
      var shift := GetOpenShift(cashShifts);
      if shift.None? {
        return false;
      }
      cashShifts := cashShifts[shift.value := cashShifts[shift.value].(closedAt := Some(now))];
      closed := true;
    }
  }
}

/** What a caller can conclude from the contracts alone: on the seed data, a 90-minute
    stay costs R$ 14,00 and its payment is unattributed (no shift is open); a second exit
    finds no open stay, and an unknown plate is not found. */
module Scenarios {
  import opened Wrappers
  import opened Plates
  import opened Pricing
  import opened Records
  import opened Stays
  import opened Parking

  method SeedExitScenario(plate: string, other: string, t: int)
    requires IsNormalPlate(plate) && plate != [] && IsNormalPlate(other) && other != plate
  {
    var db := new Db.Seed();
    NormalizeNormalPlate(plate);
    var entered := db.Enter(plate, t);
    assert FindPlate([], plate).None?;
    assert db.vehicles == [Vehicle(1, plate, "", "", None)];
    assert FindOpenStay([], 1).None?;
    assert db.stays == [Stay(1, 1, t, None, None, 0, None)];
    assert entered == Parked;
    ExitScenario(db, plate, other, t);
  }

  method ExitScenario(db: Db, plate: string, other: string, t: int)
    requires IsNormalPlate(plate) && IsNormalPlate(other) && other != plate
    requires db.vehicles == [Vehicle(1, plate, "", "", None)]
    requires db.stays == [Stay(1, 1, t, None, None, 0, None)]
    requires db.priceRules == [StandardRule()] && db.cashShifts == [] && db.payments == []
    modifies db
  {
    NormalizeNormalPlate(plate);
    assert PickRule(db.priceRules) == Some(0);
    assert LocateExit(db.vehicles, db.stays, db.priceRules, plate) == Success(ExitTarget(0, 0));
    StandardRuleNinetyMinutes(t);
    var exited := db.Exit(plate, "pix", t + 90 * MillisPerMinute);
    assert exited.Success? && exited.value.amount == 1400;
    assert db.payments == [Payment(1, 1, t + 90 * MillisPerMinute, "pix", 1400, None)];
    assert db.stays[0].amount == 1400 && db.stays[0].exitAt.Some?;
    RepeatedExitScenario(db, plate, other, t + 100 * MillisPerMinute);
  }

  method RepeatedExitScenario(db: Db, plate: string, other: string, t: int)
    requires IsNormalPlate(plate) && IsNormalPlate(other) && other != plate
    requires db.vehicles == [Vehicle(1, plate, "", "", None)]
    requires |db.stays| == 1 && db.stays[0].vehicleId == 1 && !IsOpen(db.stays[0])
    modifies db
  {
    NormalizeNormalPlate(plate);
    assert FindPlate(db.vehicles, plate) == Some(0);
    assert FindOpenStay(db.stays, 1) == None;
    assert LocateExit(db.vehicles, db.stays, db.priceRules, plate) == Failure(NoOpenStay);
    var again := db.Exit(plate, "pix", t);
    assert again == Failure(NoOpenStay);
    UnknownPlateScenario(db, other, t);
  }

  method UnknownPlateScenario(db: Db, other: string, t: int)
    requires IsNormalPlate(other) && |db.vehicles| == 1 && db.vehicles[0].plate != other
    modifies db
  {
    NormalizeNormalPlate(other);
    assert LocateExit(db.vehicles, db.stays, db.priceRules, other) == Failure(PlateNotFound);
    var unknown := db.Exit(other, "cash", t);
    assert unknown == Failure(PlateNotFound);
  }
}
