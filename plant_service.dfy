/** `plantService`: the module-level mock table of plants and its four operations. */
module PlantService {
  import opened Wrappers
  import opened Collections
  import opened Text

  datatype Plant = Plant(id: string, userId: string, name: string, location: string, mqttTopicId: string)

  /** The table's contents when the module is loaded. */
  const INITIAL_PLANTS: seq<Plant> := [
    Plant("plant_1", "user_1", "Samambaia", "Sala de Estar", "samambaia_01"),
    Plant("plant_2", "user_1", "Orquídea", "Varanda", "orquidea_05")
  ]

  /** `plants.filter(p => p.userId === userId)`: exactly the plants of that user. */
  function PlantsOfUser(plants: seq<Plant>, userId: string): (r: seq<Plant>)
    ensures |r| <= |plants|
    ensures forall i :: 0 <= i < |r| ==> r[i] in plants && r[i].userId == userId
    ensures forall i :: 0 <= i < |plants| && plants[i].userId == userId ==> plants[i] in r
  {
    Filter(plants, (p: Plant) => p.userId == userId)
  }

  /** `plants.find(p => p.id === plantId)`: the first plant with that id, if any. */
  function FindPlant(plants: seq<Plant>, plantId: string): (r: Option<Plant>)
    ensures r.None? <==> forall i :: 0 <= i < |plants| ==> plants[i].id != plantId
    ensures r.Some? ==> exists i :: 0 <= i < |plants| && plants[i] == r.value && r.value.id == plantId &&
                                    forall j :: 0 <= j < i ==> plants[j].id != plantId
  {
    Find(plants, (p: Plant) => p.id == plantId)
  }

  /** `plants.filter(p => p.id !== plantId)`: every plant except those with that id. */
  function WithoutPlant(plants: seq<Plant>, plantId: string): (r: seq<Plant>)
    ensures |r| <= |plants|
    ensures forall i :: 0 <= i < |r| ==> r[i] in plants && r[i].id != plantId
    ensures forall i :: 0 <= i < |plants| && plants[i].id != plantId ==> plants[i] in r
  {
    Filter(plants, (p: Plant) => p.id != plantId)
  }

  /** The `mqttTopicId` of a new plant: `name.toLowerCase().replace(" ", "_")`, then `_`
      and `Math.floor(Math.random() * 100)`, here the number `n`. */
  function TopicIdFor(name: string, n: nat): (topic: string)
    requires n < 100
    ensures |topic| == |name| + 1 + |Decimal(n)| && 2 <= |topic| - |name| <= 3
    ensures topic[|name|] == '_'
    ensures topic[|name| + 1..] == Decimal(n)
  {
    DecimalBelowHundred(n);
    assert (ReplaceFirst(Lower(name), ' ', '_') + "_" + Decimal(n))[|name| + 1..] == Decimal(n);
    ReplaceFirst(Lower(name), ' ', '_') + "_" + Decimal(n)
  }

  /** Lower-casing turns no character into a space and keeps every space. */
  lemma LowerKeepsSpaces(s: string)
    ensures ' ' in Lower(s) <==> ' ' in s
    ensures ' ' in s ==> FirstIndex(Lower(s), ' ') == FirstIndex(s, ' ')
  {
    LowerProperties(s);
    assert forall i :: 0 <= i < |s| ==> (Lower(s)[i] == ' ' <==> s[i] == ' ');
    if ' ' in s {
      var k := FirstIndex(s, ' ');
      assert Lower(s)[k] == ' ';
      var m := FirstIndex(Lower(s), ' ');
      assert forall i :: 0 <= i < k ==> s[..k][i] == s[i];
      assert forall i :: 0 <= i < m ==> Lower(s)[..m][i] == Lower(s)[i];
      assert s[m] == ' ';
      assert !(m < k);
      assert !(k < m);
    }
  }

  /** The topic id starts with the name, lower-cased, with only its first space replaced
      by `_`. */
  lemma TopicIdBase(name: string, n: nat)
    requires n < 100
    ensures |TopicIdFor(name, n)| > |name|
    ensures forall i :: 0 <= i < |name| ==>
              TopicIdFor(name, n)[i] == if ' ' in name && i == FirstIndex(name, ' ') then '_' else LowerChar(name[i])
  {
    LowerKeepsSpaces(name);
    var base := ReplaceFirst(Lower(name), ' ', '_');
    assert |base| == |name|;
    assert forall i :: 0 <= i < |name| ==> TopicIdFor(name, n)[i] == base[i];
  }

  /** The digits after the name's `_` read back as the random number. */
  lemma TopicIdSuffix(name: string, n: nat)
    requires n < 100
    ensures DecimalValue(TopicIdFor(name, n)[|name| + 1..]) == n
  {
    DecimalRoundTrip(n);
  }

  /** Adding a plant of `userId` adds it at the end of that user's list and leaves every
      other user's list as it was. */
  lemma {:induction false} AddShowsOnlyForOwner(plants: seq<Plant>, p: Plant, userId: string)
    ensures PlantsOfUser(plants + [p], userId) ==
            if p.userId == userId then PlantsOfUser(plants, userId) + [p] else PlantsOfUser(plants, userId)
  {
    FilterAppend(plants, [p], (q: Plant) => q.userId == userId);
    FilterSingleton(p, (q: Plant) => q.userId == userId);
  }

  /** After a delete no plant with that id is found, deleting is idempotent, and the list
      of a user loses exactly that user's plants with that id. */
  lemma {:induction false} DeleteRemovesId(plants: seq<Plant>, plantId: string)
    ensures FindPlant(WithoutPlant(plants, plantId), plantId) == None
    ensures WithoutPlant(WithoutPlant(plants, plantId), plantId) == WithoutPlant(plants, plantId)
    ensures forall userId :: PlantsOfUser(WithoutPlant(plants, plantId), userId) ==
                             WithoutPlant(PlantsOfUser(plants, userId), plantId)
  {
    var r := WithoutPlant(plants, plantId);
    FilterKeepsAll(r, (p: Plant) => p.id != plantId);
    forall userId
      ensures PlantsOfUser(WithoutPlant(plants, plantId), userId) ==
              WithoutPlant(PlantsOfUser(plants, userId), plantId)
    {
      FilterCommutes(plants, (p: Plant) => p.id != plantId, (p: Plant) => p.userId == userId);
    }
  }

  /** Deleting an id no plant has leaves the table unchanged. */
  lemma {:induction false} DeleteAbsentIsNoop(plants: seq<Plant>, plantId: string)
    requires FindPlant(plants, plantId) == None
    ensures WithoutPlant(plants, plantId) == plants
  {
    FilterKeepsAll(plants, (p: Plant) => p.id != plantId);
  }

  /** Deleting keeps the remaining plants in table order: it distributes over any split of
      the table. */
  lemma {:induction false} DeleteKeepsOrder(a: seq<Plant>, b: seq<Plant>, plantId: string)
    ensures WithoutPlant(a + b, plantId) == WithoutPlant(a, plantId) + WithoutPlant(b, plantId)
  {
    FilterAppend(a, b, (p: Plant) => p.id != plantId);
  }

  /** A new plant is found by its id unless an earlier plant already has that id. */
  lemma {:induction false} FindAfterAdd(plants: seq<Plant>, p: Plant)
    ensures FindPlant(plants + [p], p.id) == if FindPlant(plants, p.id).Some? then FindPlant(plants, p.id) else Some(p)
  {
    FindAppend(plants, p, (q: Plant) => q.id == p.id);
  }

  /** Both initial plants belong to `user_1`, and `plant_1` is the first of them. */
  lemma InitialTable()
    ensures PlantsOfUser(INITIAL_PLANTS, "user_1") == INITIAL_PLANTS
    ensures forall userId :: userId != "user_1" ==> PlantsOfUser(INITIAL_PLANTS, userId) == []
    ensures FindPlant(INITIAL_PLANTS, "plant_1") == Some(INITIAL_PLANTS[0])
  {
    FilterKeepsAll(INITIAL_PLANTS, (p: Plant) => p.userId == "user_1");
    forall userId | userId != "user_1"
      ensures PlantsOfUser(INITIAL_PLANTS, userId) == []
    {
      assert INITIAL_PLANTS[0].userId != userId && INITIAL_PLANTS[1].userId != userId;
    }
  }

  /** The mock table, mutated in place by `addPlant` (push) and reassigned by `deletePlant`. */
  class PlantStore {
    var plants: seq<Plant>

    constructor ()
      ensures plants == INITIAL_PLANTS
    {
      plants := INITIAL_PLANTS;
    }

    /** `getPlantsByUserId`; the table is not changed. */
    method GetPlantsByUserId(userId: string) returns (r: seq<Plant>)
      ensures r == PlantsOfUser(plants, userId)
    {
      r := PlantsOfUser(plants, userId);
    }

    /** `getPlantById`; the table is not changed. */
    method GetPlantById(plantId: string) returns (r: Option<Plant>)
      ensures r == FindPlant(plants, plantId)
    {
      r := FindPlant(plants, plantId);
    }

    /** `addPlant`: appends one new record at the end and returns it. `now` stands for
        `Date.now()` and `n` for `Math.floor(Math.random() * 100)`. */
    method AddPlant(userId: string, name: string, location: string, now: nat, n: nat) returns (p: Plant)
      requires n < 100
      modifies this
      ensures plants == old(plants) + [p]
      ensures p.userId == userId && p.name == name && p.location == location
      ensures p.id == "plant_" + Decimal(now) && p.mqttTopicId == TopicIdFor(name, n)
    {
      p := Plant("plant_" + Decimal(now), userId, name, location, TopicIdFor(name, n));
      plants := plants + [p];
    }

    /** `deletePlant`: keeps every record whose id differs, in order. */
    method DeletePlant(plantId: string)
      modifies this
      ensures plants == WithoutPlant(old(plants), plantId)
      ensures FindPlant(plants, plantId) == None
    {
      plants := WithoutPlant(plants, plantId);
      DeleteRemovesId(old(plants), plantId);
    }
  }
}
