/** The records of the dataset, the id policy and the `find` lookups over them. */
module Records {
  import opened Wrappers
  import opened Pricing

  datatype Vehicle = Vehicle(id: int, plate: string, model: string, color: string, clientId: Option<int>)

  datatype Client = Client(id: int, name: string, phone: string, notes: string, isVip: bool)

  /** One permanence of a vehicle; open while `exitAt` is None. */
  datatype Stay = Stay(
    id: int,
    vehicleId: int,
    entryAt: int,
    exitAt: Option<int>,
    minutes: Option<int>,
    amount: int,
    ruleDesc: Option<string>)

  /** A cash-register session; open while `closedAt` is None. */
  datatype CashShift = CashShift(id: int, openedAt: int, closedAt: Option<int>, initialAmount: int)

  datatype Payment = Payment(
    id: int,
    stayId: int,
    paidAt: int,
    payMethod: string,
    amount: int,
    cashShiftId: Option<int>)

  /** Array.prototype.find as an index: the first position whose element satisfies `p`. */
  function Find<T>(s: seq<T>, p: T -> bool): (r: Option<nat>)
    ensures r.Some? ==> r.value < |s| && p(s[r.value])
    ensures r.Some? ==> forall j :: 0 <= j < r.value ==> !p(s[j])
    ensures r.None? ==> forall j :: 0 <= j < |s| ==> !p(s[j])
  {
    FindFrom(s, p, 0)
  }

  function FindFrom<T>(s: seq<T>, p: T -> bool, from: nat): (r: Option<nat>)
    requires from <= |s|
    ensures r.Some? ==> from <= r.value < |s| && p(s[r.value])
    ensures r.Some? ==> forall j :: from <= j < r.value ==> !p(s[j])
    ensures r.None? ==> forall j :: from <= j < |s| ==> !p(s[j])
    decreases |s| - from
  {
    if from == |s| then None
    else if p(s[from]) then Some(from)
    else FindFrom(s, p, from + 1)
  }

  predicate StrictlyIncreasing(ids: seq<int>) {
    forall i, j :: 0 <= i < j < |ids| ==> ids[i] < ids[j]
  }

  /** `(xs.at(-1)?.id || 0) + 1`: one more than the LAST id, 1 for an empty collection.
      (`|| 0` only matters for an id that is 0, where it gives 0 as well.) While ids grow
      it is above every id in use. */
  function NextId(ids: seq<int>): (next: int)
    ensures |ids| == 0 ==> next == 1
    ensures |ids| > 0 ==> next - 1 == ids[|ids| - 1]
    ensures StrictlyIncreasing(ids) ==> forall i :: 0 <= i < |ids| ==> ids[i] < next
  {
    if |ids| == 0 then 1 else ids[|ids| - 1] + 1
  }

  /** While ids only grow, the next id is above every id, is one more than the largest
      of them, and appending it keeps ids growing. */
  lemma NextIdFresh(ids: seq<int>)
    requires StrictlyIncreasing(ids)
    ensures forall i :: 0 <= i < |ids| ==> ids[i] < NextId(ids)
    ensures NextId(ids) !in ids
    ensures |ids| > 0 ==> NextId(ids) - 1 in ids
    ensures StrictlyIncreasing(ids + [NextId(ids)])
  {
  }

  /** The last id is not the largest one once ids are out of order, and the next id may
      then already be in use: after ids 2 and 1 the next id is 2 again. */
  lemma NextIdIsLastNotMax()
    ensures NextId([2, 1]) == 2 && 2 in [2, 1]
  {
  }

  function VehicleIds(vs: seq<Vehicle>): (ids: seq<int>)
    ensures |ids| == |vs| && forall i :: 0 <= i < |vs| ==> ids[i] == vs[i].id
  {
    seq(|vs|, i requires 0 <= i < |vs| => vs[i].id)
  }

  function ClientIds(cs: seq<Client>): (ids: seq<int>)
    ensures |ids| == |cs| && forall i :: 0 <= i < |cs| ==> ids[i] == cs[i].id
  {
    seq(|cs|, i requires 0 <= i < |cs| => cs[i].id)
  }

  function StayIds(ss: seq<Stay>): (ids: seq<int>)
    ensures |ids| == |ss| && forall i :: 0 <= i < |ss| ==> ids[i] == ss[i].id
  {
    seq(|ss|, i requires 0 <= i < |ss| => ss[i].id)
  }

  function ShiftIds(sh: seq<CashShift>): (ids: seq<int>)
    ensures |ids| == |sh| && forall i :: 0 <= i < |sh| ==> ids[i] == sh[i].id
  {
    seq(|sh|, i requires 0 <= i < |sh| => sh[i].id)
  }

  function PaymentIds(ps: seq<Payment>): (ids: seq<int>)
    ensures |ids| == |ps| && forall i :: 0 <= i < |ps| ==> ids[i] == ps[i].id
  {
    seq(|ps|, i requires 0 <= i < |ps| => ps[i].id)
  }

  function RuleIds(rs: seq<PriceRule>): (ids: seq<int>)
    ensures |ids| == |rs| && forall i :: 0 <= i < |rs| ==> ids[i] == rs[i].id
  {
    seq(|rs|, i requires 0 <= i < |rs| => rs[i].id)
  }

  /** `vehicles.find(v => v.plate === plate)`. */
  function FindPlate(vs: seq<Vehicle>, plate: string): (r: Option<nat>)
    ensures r.Some? ==> r.value < |vs| && vs[r.value].plate == plate
    ensures r.Some? ==> forall j :: 0 <= j < r.value ==> vs[j].plate != plate
    ensures r.None? ==> forall j :: 0 <= j < |vs| ==> vs[j].plate != plate
  {
    Find(vs, (v: Vehicle) => v.plate == plate)
  }

  /** `stays.find(s => s.vehicleId === vehicleId && !s.exitAt)`. */
  function FindOpenStay(ss: seq<Stay>, vehicleId: int): (r: Option<nat>)
    ensures r.Some? ==> r.value < |ss| && ss[r.value].vehicleId == vehicleId && ss[r.value].exitAt.None?
    ensures r.Some? ==> forall j :: 0 <= j < r.value ==> !(ss[j].vehicleId == vehicleId && ss[j].exitAt.None?)
    ensures r.None? ==> forall j :: 0 <= j < |ss| ==> !(ss[j].vehicleId == vehicleId && ss[j].exitAt.None?)
  {
    Find(ss, (s: Stay) => s.vehicleId == vehicleId && s.exitAt.None?)
  }

  /** `pickRule`: the first rule, in table order, that is active. */
  function PickRule(rs: seq<PriceRule>): (r: Option<nat>)
    ensures r.Some? ==> r.value < |rs| && rs[r.value].active
    ensures r.Some? ==> forall j :: 0 <= j < r.value ==> !rs[j].active
    ensures r.None? ==> forall j :: 0 <= j < |rs| ==> !rs[j].active
  {
    Find(rs, (r: PriceRule) => r.active)
  }

  /** `priceRules.find(r => r.id === id)`. */
  function FindRule(rs: seq<PriceRule>, id: int): (r: Option<nat>)
    ensures r.Some? ==> r.value < |rs| && rs[r.value].id == id
    ensures r.Some? ==> forall j :: 0 <= j < r.value ==> rs[j].id != id
    ensures r.None? ==> forall j :: 0 <= j < |rs| ==> rs[j].id != id
  {
    Find(rs, (r: PriceRule) => r.id == id)
  }

  /** `getOpenShift`: the first shift not yet closed. */
  function GetOpenShift(sh: seq<CashShift>): (r: Option<nat>)
    ensures r.Some? ==> r.value < |sh| && sh[r.value].closedAt.None?
    ensures r.Some? ==> forall j :: 0 <= j < r.value ==> sh[j].closedAt.Some?
    ensures r.None? ==> forall j :: 0 <= j < |sh| ==> sh[j].closedAt.Some?
  {
    Find(sh, (s: CashShift) => s.closedAt.None?)
  }
}
