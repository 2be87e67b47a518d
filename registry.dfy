/** The vehicle, client and price-rule tables: plate-unique vehicle creation, client
    creation and deletion (vehicle references are set to null, not deleted), rule
    creation and the activation toggle. */
module Registry {
  import opened Wrappers
  import opened Text
  import opened Pricing
  import opened Records

  /** No two vehicles share a plate: the plate is the natural key of a vehicle. */
  predicate PlatesUnique(vs: seq<Vehicle>) {
    forall i, j :: 0 <= i < j < |vs| ==> vs[i].plate != vs[j].plate
  }

  /** The vehicle table after the vehicle form is submitted with an already normalised
      plate: nothing happens for an empty plate or one already registered. */
  function VehiclesAfterCreate(vs: seq<Vehicle>, plate: string, model: string, color: string,
                               clientId: Option<int>): (r: seq<Vehicle>)
    ensures |r| == |vs| + 1 <==> plate != [] && forall i :: 0 <= i < |vs| ==> vs[i].plate != plate
    ensures |r| != |vs| + 1 ==> r == vs
    ensures |r| == |vs| + 1 ==>
              && r[..|vs|] == vs
              && r[|vs|] == Vehicle(NextId(VehicleIds(vs)), plate, model, color, clientId)
  {
    if plate == [] || FindPlate(vs, plate).Some? then vs
    else vs + [Vehicle(NextId(VehicleIds(vs)), plate, model, color, clientId)]
  }

  /** Creating a vehicle keeps plates unique and ids growing; a new, non-empty plate adds
      exactly one vehicle, at the end, and an empty or known plate changes nothing. */
  lemma CreateVehicleKeepsPlatesUnique(vs: seq<Vehicle>, plate: string, model: string, color: string,
                                       clientId: Option<int>)
    requires StrictlyIncreasing(VehicleIds(vs)) && PlatesUnique(vs)
    ensures var after := VehiclesAfterCreate(vs, plate, model, color, clientId);
      && StrictlyIncreasing(VehicleIds(after)) && PlatesUnique(after)
      && (plate == [] || (exists i :: 0 <= i < |vs| && vs[i].plate == plate) ==> after == vs)
      && (plate != [] && (forall i :: 0 <= i < |vs| ==> vs[i].plate != plate) ==>
            after == vs + [Vehicle(NextId(VehicleIds(vs)), plate, model, color, clientId)])
      && (plate != [] ==> exists k :: 0 <= k < |after| && after[k].plate == plate)
  {
    var after := VehiclesAfterCreate(vs, plate, model, color, clientId);
    if after != vs {
      var v := Vehicle(NextId(VehicleIds(vs)), plate, model, color, clientId);
      NextIdFresh(VehicleIds(vs));
      assert VehicleIds(after) == VehicleIds(vs) + [v.id];
      assert after[|vs|].plate == plate;
    } else if plate != [] {
      assert vs[FindPlate(vs, plate).value].plate == plate;
    }
  }

  /** `clients.filter(c => c.id !== id)`: no client with the id is left, and every other
      client is. ClientsWithoutCounts, ClientsWithoutSingle and ClientsWithoutAppend state
      the filter exactly, multiplicity and order included. */
  function ClientsWithout(cs: seq<Client>, id: int): (r: seq<Client>)
    ensures |r| <= |cs|
    ensures forall i :: 0 <= i < |r| ==> r[i].id != id && r[i] in cs
    ensures forall c :: c in cs && c.id != id ==> c in r
  {
    if |cs| == 0 then []
    else (if cs[0].id != id then [cs[0]] else []) + ClientsWithout(cs[1..], id)
  }

  /** Every client with another id is kept, as often as it occurs, and the clients with
      the id are dropped. */
  lemma {:induction false} ClientsWithoutCounts(cs: seq<Client>, id: int)
    ensures forall c :: multiset(ClientsWithout(cs, id))[c] == if c.id != id then multiset(cs)[c] else 0
  {
    if |cs| > 0 {
      assert cs == [cs[0]] + cs[1..];
      ClientsWithoutCounts(cs[1..], id);
    }
  }

  /** One client is kept exactly when its id is not the deleted one. */
  lemma ClientsWithoutSingle(c: Client, id: int)
    ensures ClientsWithout([c], id) == if c.id != id then [c] else []
  {
    assert [c][1..] == [];
  }

  /** The filter distributes over concatenation, so the kept clients stay in order. */
  lemma {:induction false} ClientsWithoutAppend(a: seq<Client>, b: seq<Client>, id: int)
    ensures ClientsWithout(a + b, id) == ClientsWithout(a, id) + ClientsWithout(b, id)
  {
    if |a| > 0 {
      assert (a + b)[1..] == a[1..] + b;
      ClientsWithoutAppend(a[1..], b, id);
    } else {
      assert a + b == b;
    }
  }

  /** Deleting clients keeps client ids growing, so the next id stays fresh; no id
      left is below the first id before the deletion. */
  lemma {:induction false} ClientsWithoutIncreasing(cs: seq<Client>, id: int)
    requires StrictlyIncreasing(ClientIds(cs))
    ensures var r := ClientsWithout(cs, id);
      && StrictlyIncreasing(ClientIds(r))
      && (|cs| > 0 ==> forall k :: 0 <= k < |r| ==> cs[0].id <= r[k].id)
  {
    if |cs| > 0 {
      var tail := cs[1..];
      var ids := ClientIds(cs);
      assert ClientIds(tail) == ids[1..];
      ClientsWithoutIncreasing(tail, id);
      var rt := ClientsWithout(tail, id);
      assert forall k :: 0 <= k < |rt| ==> cs[0].id < rt[k].id by {
        if |tail| > 0 {
          assert ids[0] < ids[1];
        }
      }
      if cs[0].id != id {
        assert ClientsWithout(cs, id) == [cs[0]] + rt;
        ConsIncreasing(cs[0], rt);
      } else {
        assert ClientsWithout(cs, id) == rt;
      }
    }
  }

  lemma ConsIncreasing(c: Client, cs: seq<Client>)
    requires StrictlyIncreasing(ClientIds(cs))
    requires forall k :: 0 <= k < |cs| ==> c.id < cs[k].id
    ensures StrictlyIncreasing(ClientIds([c] + cs))
  {
    var r := [c] + cs;
    forall i, j | 0 <= i < j < |r| ensures r[i].id < r[j].id {
      assert r[j] == cs[j - 1];
      if i > 0 {
        assert r[i] == cs[i - 1];
      }
    }
  }

  /** A deleted client id can come back: with clients 1 and 2, deleting client 2 makes 2
      the next client id again. */
  lemma ClientIdReusedAfterDeletingNewest()
    ensures var cs := [Client(1, "Ana", "", "", false), Client(2, "Bruno", "", "", true)];
      NextId(ClientIds(ClientsWithout(cs, 2))) == 2
  {
    var cs := [Client(1, "Ana", "", "", false), Client(2, "Bruno", "", "", true)];
    assert cs[1..][1..] == [];
    assert ClientsWithout(cs, 2) == [cs[0]];
  }

  /** What `v.clientId = null` does to one vehicle in the cascade of a client deletion. */
  function Unlinked(v: Vehicle, id: int): (u: Vehicle)
    ensures u.clientId != Some(id)
    ensures u.id == v.id && u.plate == v.plate && u.model == v.model && u.color == v.color
    ensures v.clientId != Some(id) ==> u == v
    ensures v.clientId == Some(id) ==> u.clientId == None
  {
    if v.clientId == Some(id) then v.(clientId := None) else v
  }

  /** The client form's record: trimmed texts, VIP when the select holds "1". */
  function NewClient(cs: seq<Client>, name: string, phone: string, notes: string, vipField: string): (c: Client)
    ensures c.isVip <==> vipField == "1"
    ensures c.name == Trim(name) && c.phone == Trim(phone) && c.notes == Trim(notes)
    ensures c.id == NextId(ClientIds(cs))
  {
    Client(NextId(ClientIds(cs)), Trim(name), Trim(phone), Trim(notes), vipField == "1")
  }

  /** A created client takes an id above every id in use. */
  lemma NewClientKeepsIdsGrowing(cs: seq<Client>, name: string, phone: string, notes: string, vipField: string)
    requires StrictlyIncreasing(ClientIds(cs))
    ensures forall i :: 0 <= i < |cs| ==> cs[i].id < NewClient(cs, name, phone, notes, vipField).id
    ensures StrictlyIncreasing(ClientIds(cs + [NewClient(cs, name, phone, notes, vipField)]))
  {
    var c := NewClient(cs, name, phone, notes, vipField);
    NextIdFresh(ClientIds(cs));
    assert ClientIds(cs + [c]) == ClientIds(cs) + [c.id];
  }

  /** The rule table after the toggle button of rule `id`: the first rule with that id
      flips its `active` flag; without such a rule nothing changes. */
  function RulesAfterToggle(rs: seq<PriceRule>, id: int): (r: seq<PriceRule>)
    ensures |r| == |rs|
    ensures forall j :: 0 <= j < |rs| ==> r[j] == rs[j] || r[j] == rs[j].(active := !rs[j].active)
  {
    match FindRule(rs, id)
    case None => rs
    case Some(k) => rs[k := rs[k].(active := !rs[k].active)]
  }

  /** The toggle flips exactly one flag of the first rule with that id, or none when no
      rule has it, and leaves ids as they were. */
  lemma ToggleFlipsOneFlag(rs: seq<PriceRule>, id: int)
    ensures var after := RulesAfterToggle(rs, id);
      && |after| == |rs| && RuleIds(after) == RuleIds(rs)
      && ((forall j :: 0 <= j < |rs| ==> rs[j].id != id) ==> after == rs)
      && forall j :: 0 <= j < |rs| ==>
           after[j] == (if rs[j].id == id && (forall i :: 0 <= i < j ==> rs[i].id != id)
                        then rs[j].(active := !rs[j].active) else rs[j])
  {
    var after := RulesAfterToggle(rs, id);
    assert RuleIds(after) == RuleIds(rs);
  }

  /** Toggling the same rule twice restores the table. */
  lemma ToggleTwiceRestores(rs: seq<PriceRule>, id: int)
    ensures RulesAfterToggle(RulesAfterToggle(rs, id), id) == rs
  {
    var once := RulesAfterToggle(rs, id);
    match FindRule(rs, id)
    case None =>
    case Some(k) =>
      assert once[k].id == id;
      assert forall j :: 0 <= j < k ==> once[j].id != id;
      assert FindRule(once, id) == Some(k);
  }

  /** The price form's rule: trimmed name, active, and the form's defaults for empty
      fields (0 for money, 15 minutes per fraction, no cap). */
  function NewPriceRule(rs: seq<PriceRule>, name: string, firstHourValue: Option<int>,
                        fractionMinutes: Option<int>, fractionValue: Option<int>,
                        dailyMax: Option<int>): (r: PriceRule)
    ensures r.active
    ensures r.name == Trim(name)
    ensures r.firstHourValue == if firstHourValue.Some? then firstHourValue.value else 0
    ensures r.fractionMinutes == if fractionMinutes.Some? then fractionMinutes.value else DefaultFractionMinutes
    ensures r.fractionValue == if fractionValue.Some? then fractionValue.value else 0
    ensures r.dailyMax == dailyMax
    ensures r.id == NextId(RuleIds(rs))
  {
    PriceRule(NextId(RuleIds(rs)), Trim(name), true, firstHourValue.GetOr(0),
              fractionMinutes.GetOr(DefaultFractionMinutes), fractionValue.GetOr(0), dailyMax)
  }

  /** A created rule takes an id above every id in use. */
  lemma NewPriceRuleKeepsIdsGrowing(rs: seq<PriceRule>, r: PriceRule)
    requires StrictlyIncreasing(RuleIds(rs)) && r.id == NextId(RuleIds(rs))
    ensures StrictlyIncreasing(RuleIds(rs + [r]))
  {
    NextIdFresh(RuleIds(rs));
    assert RuleIds(rs + [r]) == RuleIds(rs) + [r.id];
  }
}
