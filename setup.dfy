/** `async_setup_entry` of the sensor platform: one entity for every eligible
    item of the first snapshot, in snapshot order. */
module SensorSetup {
  import opened Options
  import opened Subsequences
  import opened Items
  import opened Sensor

  /** The eligible items of a snapshot, in order, duplicates included. */
  function EligibleItems(items: seq<Item>): seq<Item> {
    if items == [] then []
    else
      var last := items[|items| - 1];
      EligibleItems(items[..|items| - 1]) + (if Eligible(last) then [last] else [])
  }

  /** The eligible items are picked out of the snapshot in their original
      order, and only eligible items are picked. */
  lemma {:induction false} EligibleItemsInOrder(items: seq<Item>)
    ensures IsSubsequence(EligibleItems(items), items)
    ensures forall it :: it in EligibleItems(items) ==> Eligible(it)
  {
    if items != [] {
      var init, last := items[..|items| - 1], items[|items| - 1];
      EligibleItemsInOrder(init);
      assert items == init + [last];
      if Eligible(last) {
        SubsequenceAppend(EligibleItems(init), init, last);
      } else {
        assert EligibleItems(items) == EligibleItems(init);
        SubsequenceExtend(EligibleItems(init), init, last);
      }
    }
  }

  /** Every eligible item gets exactly as many entities as it has occurrences
      in the snapshot (no de-duplication by name), an ineligible one none. */
  lemma {:induction false} EligibleItemsCount(items: seq<Item>, it: Item)
    ensures multiset(EligibleItems(items))[it] == if Eligible(it) then multiset(items)[it] else 0
  {
    if items != [] {
      var init, last := items[..|items| - 1], items[|items| - 1];
      EligibleItemsCount(init, it);
      assert items == init + [last];
      assert multiset(items) == multiset(init) + multiset([last]);
    }
  }

  /** An item becomes an entity exactly when it is in the snapshot and
      eligible. */
  lemma EligibleItemsMembership(items: seq<Item>, it: Item)
    ensures it in EligibleItems(items) <==> it in items && Eligible(it)
  {
    EligibleItemsCount(items, it);
    assert it in EligibleItems(items) <==> multiset(EligibleItems(items))[it] > 0;
    assert it in items <==> multiset(items)[it] > 0;
  }

  /** The entity list `async_setup_entry` hands to `async_add_entities`, built
      from `coordinator.data` (`None` when there is none). */
  method SetupEntities(data: Option<seq<Item>>) returns (entities: seq<SolarwattSensor>)
    ensures data.None? ==> entities == []
    ensures |entities| == |EligibleItems(data.GetOr([]))|
    ensures forall k :: 0 <= k < |entities| ==>
      fresh(entities[k]) && entities[k].Valid() && entities[k].BuiltFrom(EligibleItems(data.GetOr([]))[k])
    ensures forall j, k :: 0 <= j < k < |entities| ==> entities[j] != entities[k]
    ensures forall k :: 0 <= k < |entities| ==> entities[k].item.Some? && entities[k].item.value in data.GetOr([]) && Eligible(entities[k].item.value)
  {
    var items := data.GetOr([]);
    entities := [];
    var i := 0;
    while i < |items|
      invariant 0 <= i <= |items|
      invariant |entities| == |EligibleItems(items[..i])|
      invariant forall k :: 0 <= k < |entities| ==>
        fresh(entities[k]) && entities[k].Valid() && entities[k].BuiltFrom(EligibleItems(items[..i])[k])
      invariant forall j, k :: 0 <= j < k < |entities| ==> entities[j] != entities[k]
    {
      var it := items[i];
      assert items[..i + 1][..i] == items[..i];
      if Eligible(it) {
        var sensor := new SolarwattSensor(it);
        entities := entities + [sensor];
      }
      i := i + 1;
    }
    assert items[..i] == items;
    forall k | 0 <= k < |entities|
      ensures entities[k].item.Some? && entities[k].item.value in items && Eligible(entities[k].item.value)
    {
      EligibleItemsMembership(items, entities[k].item.value);
    }
  }
}
