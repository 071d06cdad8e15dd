/**
 * Pantree.Core.Inventory.Pantry: the perishable items in stock, changed in place by the
 * `ICollection<Perishable>` operations, and filtered by how soon they expire. "Today" is a
 * parameter (a day number) rather than the system clock.
 */
module Pantries {
  import opened Wrappers
  import opened Primitives
  import opened Lists
  import opened Perishables

  /**
   * `items.Where(p => p.ExpiryDate.DayNumber - today <= threshold)`: the items expiring within
   * `threshold` days of `today` (or already expired), in their order in the pantry.
   */
  function ExpiringBy(items: seq<Perishable>, today: int, threshold: int): (r: seq<Perishable>)
    ensures |r| <= |items|
    ensures forall x :: x in r <==> x in items && x.expiryDate - today <= threshold
  {
    if |items| == 0 then []
    else
      var last := items[|items| - 1];
      ExpiringBy(items[..|items| - 1], today, threshold) + (if last.expiryDate - today <= threshold then [last] else [])
  }

  /** Whether an item equals `item` under the record's equality; `List.Remove` looks for it. */
  function SameItem(item: Perishable): Perishable -> bool {
    x => PerishableEquals(x, item)
  }

  class Pantry {
    const id: Guid
    /** `Items`, in the order they were added. */
    var items: seq<Perishable>

    /** `new Pantry(contents)`: the initial items are copied in order (no contents: none). */
    constructor(newId: Guid, contents: seq<Perishable> := [])
      ensures id == newId && items == contents
    {
      id := newId;
      items := contents;
    }

    function Count(): (n: nat)
      reads this
      ensures n == |items|
    {
      |items|
    }

    /** `Add`: the item is appended. */
    method Add(item: Perishable)
      modifies this
      ensures items == old(items) + [item]
    {
      items := items + [item];
    }

    /** `AddRange`: the items are appended in order. */
    method AddRange(range: seq<Perishable>)
      modifies this
      ensures items == old(items) + range
    {
      items := items + range;
    }

    /**
     * `Remove`: the first item equal to `item` is removed and true returned; without an equal item
     * nothing changes and false is returned.
     */
    method Remove(item: Perishable) returns (removed: bool)
      modifies this
      ensures removed <==> exists i :: 0 <= i < |old(items)| && PerishableEquals(old(items)[i], item)
      ensures !removed ==> items == old(items)
      ensures removed ==> items == RemoveAt(old(items), FirstIndexOf(old(items), SameItem(item)))
    {
      var r := RemoveFirst(items, SameItem(item));
      removed, items := r.0, r.1;
    }

    /** `Clear`: no item is left. */
    method Clear()
      modifies this
      ensures items == []
    {
      items := [];
    }

    /** `Contains`: some item is equal to `item`. */
    function Contains(item: Perishable): (b: bool)
      reads this
      ensures b <==> exists i :: 0 <= i < |items| && PerishableEquals(items[i], item)
    {
      FirstIndexOf(items, SameItem(item)) >= 0
    }

    /**
     * `CopyTo`: the items are written into `target` (the source's `array`) from `arrayIndex` on,
     * and no other slot changes. An index or a length that does not fit throws, so it is excluded.
     */
    method CopyTo(target: array<Perishable>, arrayIndex: int)
      requires 0 <= arrayIndex && arrayIndex + |items| <= target.Length
      modifies target
      ensures forall i :: 0 <= i < |items| ==> target[arrayIndex + i] == items[i]
      ensures forall j :: 0 <= j < target.Length && !(arrayIndex <= j < arrayIndex + |items|) ==>
        target[j] == old(target[j])
    {
      forall j | arrayIndex <= j < arrayIndex + |items| {
        target[j] := items[j - arrayIndex];
      }
    }

    /** `GetItemsExpiringSoon(thresholdDays = 3)`: the items expiring at most `thresholdDays` days after today. */
    function ItemsExpiringSoon(today: int, thresholdDays: UInt32 := 3): (r: seq<Perishable>)
      reads this
      ensures r == ExpiringBy(items, today, thresholdDays)
    {
      ExpiringBy(items, today, thresholdDays)
    }

    /**
     * `GetItemsExpiringSoon(TimeSpan threshold)`: the threshold is the span's whole days, and
     * `Convert.ToUInt32` throws an overflow for a negative day count.
     */
    function ItemsExpiringWithin(today: int, threshold: TimeSpan): (r: Result<seq<Perishable>>)
      reads this
      ensures r.Err? <==> Days(threshold) < 0 || UINT32_MODULUS <= Days(threshold)
      ensures r.Err? ==> r.error == OverflowError
      ensures r.Ok? ==> r.value == ItemsExpiringSoon(today, Days(threshold))
    {
      var days := Days(threshold);
      if days < 0 || UINT32_MODULUS <= days then Err(OverflowError)
      else Ok(ItemsExpiringSoon(today, days))
    }

    /** `GetExpiredItems`: the items expiring today or earlier. */
    function ExpiredItems(today: int): (r: seq<Perishable>)
      reads this
      ensures r == ItemsExpiringSoon(today, 0)
      ensures forall x :: x in r <==> x in items && x.expiryDate <= today
    {
      ItemsExpiringSoon(today, 0)
    }
  }

  // ---------------------------------------------------------------------------------------------
  // Properties

  /** The filter keeps the pantry's order: filtering two runs of items is filtering each in turn. */
  lemma {:induction false} ExpiringByAppend(a: seq<Perishable>, b: seq<Perishable>, today: int, threshold: int)
    ensures ExpiringBy(a + b, today, threshold) == ExpiringBy(a, today, threshold) + ExpiringBy(b, today, threshold)
  {
    if |b| == 0 {
      assert a + b == a;
    } else {
      assert (a + b)[..|a + b| - 1] == a + b[..|b| - 1];
      ExpiringByAppend(a, b[..|b| - 1], today, threshold);
    }
  }

  /**
   * Raising the threshold never drops an item: the items within the smaller threshold are exactly
   * those of the larger threshold's result that are within the smaller one, in the same order.
   */
  lemma {:induction false} ThresholdMonotone(items: seq<Perishable>, today: int, small: int, large: int)
    requires small <= large
    ensures ExpiringBy(ExpiringBy(items, today, large), today, small) == ExpiringBy(items, today, small)
  {
    if |items| > 0 {
      var init, last := items[..|items| - 1], items[|items| - 1];
      ThresholdMonotone(init, today, small, large);
      var l := ExpiringBy(init, today, large);
      var tail := if last.expiryDate - today <= large then [last] else [];
      ExpiringByAppend(l, tail, today, small);
      assert ExpiringBy(tail, today, small) == (if last.expiryDate - today <= small then [last] else []) by {
        if |tail| == 1 {
          assert tail[..0] == [];
        }
      }
    }
  }

  /** An item already past its expiry is both expired and expiring soon, for any threshold. */
  lemma ExpiredIsExpiringSoon(p: Pantry, today: int, thresholdDays: UInt32)
    ensures forall x :: x in p.ExpiredItems(today) ==> x in p.ItemsExpiringSoon(today, thresholdDays)
  {
  }

  /** Removing an item just added to a pantry that held no equal item gives the old list back. */
  lemma {:induction false} RemoveAfterAdd(items: seq<Perishable>, item: Perishable)
    requires forall i :: 0 <= i < |items| ==> !PerishableEquals(items[i], item)
    ensures RemoveFirst(items + [item], SameItem(item)) == (true, items)
  {
    var s := items + [item];
    PerishableEqualsReflexive(item);
    assert SameItem(item)(s[|items|]);
    assert forall i :: 0 <= i < |items| ==> !SameItem(item)(s[i]);
    assert FirstIndexOf(s, SameItem(item)) == |items|;
    assert RemoveAt(s, |items|) == items;
  }
}
