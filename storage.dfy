/**
 * The order store `MemStorage`: a JavaScript `Map` from order id to order,
 * filled from the saved array of orders when the store starts, extended by
 * `createOrder`, and written back as the array of its values.
 *
 * A JavaScript `Map` iterates in insertion order, and setting a key that is
 * already present replaces its value in place. The store therefore keeps
 * two fields: the map itself and the sequence of its keys in insertion
 * order. The file reads and writes are not modelled; what the store reads
 * is a parameter of its constructor and what it writes is `GetAllOrders`.
 */
module Storage {
  import opened Wrappers
  import opened Schema

  /** `{ ...orderData, id, createdAt }` */
  function Stamp(data: OrderData, id: string, createdAt: string): (o: Order)
    ensures o.id == id && o.createdAt == createdAt
    ensures Unstamp(o) == data
  {
    Order(id, data.customerName, data.phone, data.address, data.pinCode, data.productId,
          data.productName, data.storage, data.color, data.fullPrice, data.paidAmount,
          data.remainingBalance, data.paymentType, data.paymentScreenshot, createdAt)
  }

  /** The order's fields other than its id and creation stamp. */
  function Unstamp(o: Order): OrderData {
    OrderData(o.customerName, o.phone, o.address, o.pinCode, o.productId, o.productName,
              o.storage, o.color, o.fullPrice, o.paidAmount, o.remainingBalance,
              o.paymentType, o.paymentScreenshot)
  }

  // ---------------------------------------------------------------------
  // A JavaScript Map<string, Order> as a value: keys in insertion order
  // ---------------------------------------------------------------------

  predicate Distinct(ids: seq<string>) {
    forall i, j :: 0 <= i < j < |ids| ==> ids[i] != ids[j]
  }

  /** `ids` lists the keys of `orders`, each once, and every order is filed
      under its own id. */
  ghost predicate Indexed(ids: seq<string>, orders: map<string, Order>) {
    && Distinct(ids)
    && (forall k :: k in orders <==> k in ids)
    && (forall k :: k in orders ==> orders[k].id == k)
  }

  /** The key order after `map.set(key, ...)`. */
  function SetKey(ids: seq<string>, key: string): seq<string> {
    if key in ids then ids else ids + [key]
  }

  /** `Array.from(map.values())` */
  function Values(ids: seq<string>, orders: map<string, Order>): (r: seq<Order>)
    requires forall k :: k in ids ==> k in orders
    ensures |r| == |ids|
    ensures forall i :: 0 <= i < |ids| ==> r[i] == orders[ids[i]]
  {
    if ids == [] then [] else Values(ids[..|ids| - 1], orders) + [orders[ids[|ids| - 1]]]
  }

  /** The map after `arr.forEach(order => map.set(order.id, order))`. */
  function LoadMap(orders: map<string, Order>, arr: seq<Order>): map<string, Order> {
    if arr == [] then orders
    else
      var last := arr[|arr| - 1];
      LoadMap(orders, arr[..|arr| - 1])[last.id := last]
  }

  /** The key order after the same `forEach`. */
  function LoadIds(ids: seq<string>, arr: seq<Order>): seq<string> {
    if arr == [] then ids else SetKey(LoadIds(ids, arr[..|arr| - 1]), arr[|arr| - 1].id)
  }

  /** `map.set(o.id, o)` keeps the map indexed. */
  lemma IndexedSet(ids: seq<string>, orders: map<string, Order>, o: Order)
    requires Indexed(ids, orders)
    ensures Indexed(SetKey(ids, o.id), orders[o.id := o])
  {
    if o.id !in ids {
      var ids' := ids + [o.id];
      assert forall i :: 0 <= i < |ids| ==> ids'[i] == ids[i] && ids[i] != o.id;
    }
  }

  /** Loading keeps the map indexed. */
  lemma {:induction false} LoadIndexed(ids: seq<string>, orders: map<string, Order>, arr: seq<Order>)
    requires Indexed(ids, orders)
    ensures Indexed(LoadIds(ids, arr), LoadMap(orders, arr))
  {
    if arr != [] {
      var n := |arr| - 1;
      LoadIndexed(ids, orders, arr[..n]);
      IndexedSet(LoadIds(ids, arr[..n]), LoadMap(orders, arr[..n]), arr[n]);
    }
  }

  /** The keys after loading are the old keys plus the ids of the loaded
      orders. */
  lemma {:induction false} LoadKeys(orders: map<string, Order>, arr: seq<Order>)
    ensures forall k :: k in LoadMap(orders, arr) <==> k in orders || exists i :: 0 <= i < |arr| && arr[i].id == k
  {
    if arr != [] {
      var n := |arr| - 1;
      LoadKeys(orders, arr[..n]);
      forall k | k in LoadMap(orders, arr)
        ensures k in orders || exists i :: 0 <= i < |arr| && arr[i].id == k
      {
        if k != arr[n].id && k !in orders {
          var i :| 0 <= i < n && arr[..n][i].id == k;
          assert arr[i].id == k;
        }
      }
      forall k | k !in orders && (exists i :: 0 <= i < |arr| && arr[i].id == k)
        ensures k in LoadMap(orders, arr)
      {
        var i :| 0 <= i < |arr| && arr[i].id == k;
        if i < n {
          assert arr[..n][i].id == k;
        }
      }
    }
  }

  /** Each loaded id ends up with the LAST order in the array that carries
      it: later duplicates overwrite earlier ones. */
  lemma {:induction false} LoadLastWins(orders: map<string, Order>, arr: seq<Order>, i: nat)
    requires i < |arr|
    requires forall j :: i < j < |arr| ==> arr[j].id != arr[i].id
    ensures arr[i].id in LoadMap(orders, arr) && LoadMap(orders, arr)[arr[i].id] == arr[i]
  {
    var n := |arr| - 1;
    if i < n {
      LoadLastWins(orders, arr[..n], i);
    }
  }

  /** Ids not mentioned by the loaded array keep what they had. */
  lemma {:induction false} LoadKeepsOthers(orders: map<string, Order>, arr: seq<Order>, k: string)
    requires forall j :: 0 <= j < |arr| ==> arr[j].id != k
    ensures (k in LoadMap(orders, arr) <==> k in orders)
    ensures k in orders ==> LoadMap(orders, arr)[k] == orders[k]
  {
    if arr != [] {
      LoadKeepsOthers(orders, arr[..|arr| - 1], k);
    }
  }

  lemma IndexedDropLast(ids: seq<string>, orders: map<string, Order>)
    requires Indexed(ids, orders) && ids != []
    ensures ids[|ids| - 1] !in ids[..|ids| - 1]
    ensures Indexed(ids[..|ids| - 1], orders - {ids[|ids| - 1]})
  {
    var n := |ids| - 1;
    var rest := orders - {ids[n]};
    forall x ensures x in ids[..n] ==> x in rest && x != ids[n] {
      if x in ids[..n] {
        var j :| 0 <= j < n && ids[..n][j] == x;
        assert ids[j] != ids[n];
      }
    }
    forall x | x in rest ensures x in ids[..n] {
      var j :| 0 <= j < |ids| && ids[j] == x;
      assert j != n;
      assert ids[..n][j] == x;
    }
  }

  lemma {:induction false} ValuesAgree(ids: seq<string>, m1: map<string, Order>, m2: map<string, Order>)
    requires forall k :: k in ids ==> k in m1 && k in m2 && m1[k] == m2[k]
    ensures Values(ids, m1) == Values(ids, m2)
  {
  }

  lemma LoadMapStep(arr: seq<Order>)
    requires arr != []
    ensures LoadMap(map[], arr) == LoadMap(map[], arr[..|arr| - 1])[arr[|arr| - 1].id := arr[|arr| - 1]]
  {
  }

  lemma MapRestore(m: map<string, Order>, k: string)
    requires k in m
    ensures (m - {k})[k := m[k]] == m
  {
  }

  /** Saving writes the values in key order; loading that array into an
      empty map rebuilds the same map with the same key order. */
  lemma {:induction false} SaveThenLoad(ids: seq<string>, orders: map<string, Order>)
    requires Indexed(ids, orders)
    ensures LoadMap(map[], Values(ids, orders)) == orders
    ensures LoadIds([], Values(ids, orders)) == ids
  {
    if ids == [] {
      assert orders == map[];
    } else {
      var n := |ids| - 1;
      var k := ids[n];
      var rest := orders - {k};
      IndexedDropLast(ids, orders);
      SaveThenLoad(ids[..n], rest);
      ValuesAgree(ids[..n], orders, rest);
      var vs := Values(ids, orders);
      assert vs == Values(ids[..n], orders) + [orders[k]];
      assert vs[..n] == Values(ids[..n], rest);
      assert vs[n] == orders[k] && orders[k].id == k;
      LoadMapStep(vs);
      MapRestore(orders, k);
      assert LoadIds([], vs) == SetKey(LoadIds([], vs[..n]), k);
      assert ids[..n] + [k] == ids;
    }
  }

  /** Appending a fresh key adds its order at the end of the values and
      leaves the earlier values as they were. */
  lemma ValuesAfterFreshSet(ids: seq<string>, orders: map<string, Order>, o: Order)
    requires Indexed(ids, orders) && o.id !in orders
    ensures Values(SetKey(ids, o.id), orders[o.id := o]) == Values(ids, orders) + [o]
  {
    var ids' := SetKey(ids, o.id);
    var vs := Values(ids', orders[o.id := o]);
    assert ids' == ids + [o.id];
    assert forall i :: 0 <= i < |ids| ==> ids[i] != o.id;
    assert vs == Values(ids, orders) + [o];
  }

  class MemStorage {
    var orders: map<string, Order>
    /** The keys of `orders` in insertion order (JavaScript `Map` iteration order). */
    var ids: seq<string>

    ghost predicate Valid()
      reads this
    {
      Indexed(ids, orders)
    }

    /** `new MemStorage()`, whose `loadOrders` reads the saved array. */
    constructor (saved: seq<Order>)
      ensures Valid()
      ensures orders == LoadMap(map[], saved) && ids == LoadIds([], saved)
    {
      orders := map[];
      ids := [];
      new;
      LoadOrders(saved);
    }

    /** `ordersArray.forEach(order => this.orders.set(order.id, order))` */
    method LoadOrders(arr: seq<Order>)
      requires Valid()
      modifies this
      ensures Valid()
      ensures orders == LoadMap(old(orders), arr) && ids == LoadIds(old(ids), arr)
    {
      ghost var orders0, ids0 := orders, ids;
      var i := 0;
      while i < |arr|
        invariant 0 <= i <= |arr|
        invariant orders == LoadMap(orders0, arr[..i]) && ids == LoadIds(ids0, arr[..i])
        invariant Valid()
      {
        var o := arr[i];
        assert arr[..i + 1][..i] == arr[..i];
        LoadIndexed(ids0, orders0, arr[..i + 1]);
        orders := orders[o.id := o];
        ids := SetKey(ids, o.id);
        i := i + 1;
      }
      assert arr[..i] == arr;
    }

    /** `getOrder(id)`: the order filed under `id`, or `undefined`. */
    function GetOrder(id: string): (r: Option<Order>)
      reads this
      requires Valid()
      ensures r.Some? <==> id in orders
      ensures r.Some? ==> r.value == orders[id] && r.value.id == id
    {
      if id in orders then Some(orders[id]) else None
    }

    /** `getAllOrders()`, which is also the array `saveOrders` writes: the
        stored orders in insertion order, each exactly once. */
    function GetAllOrders(): (r: seq<Order>)
      reads this
      requires Valid()
      ensures |r| == |ids|
      ensures forall o: Order :: o in r <==> o.id in orders && orders[o.id] == o
    {
      var r := Values(ids, orders);
      assert forall o: Order :: o in r ==> o.id in orders && orders[o.id] == o;
      assert forall o: Order :: o.id in orders && orders[o.id] == o ==> o in r by {
        forall o: Order | o.id in orders && orders[o.id] == o ensures o in r {
          var i :| 0 <= i < |ids| && ids[i] == o.id;
          assert r[i] == o;
        }
      }
      r
    }

    /** `createOrder(orderData)`: files the data under the id `randomUUID`
        produced, stamped with the creation time, and returns it. A fresh id
        adds exactly one order at the end and leaves every earlier order as
        it was. */
    method CreateOrder(data: OrderData, id: string, createdAt: string) returns (o: Order)
      requires Valid()
      modifies this
      ensures Valid()
      ensures o == Stamp(data, id, createdAt)
      ensures orders == old(orders)[id := o] && ids == SetKey(old(ids), id)
      ensures GetOrder(o.id) == Some(o)
      ensures forall k :: k in old(orders) && k != id ==> k in orders && orders[k] == old(orders)[k]
      ensures id !in old(orders) ==> GetAllOrders() == old(GetAllOrders()) + [o]
    {
      o := Stamp(data, id, createdAt);
      IndexedSet(ids, orders, o);
      if id !in orders {
        ValuesAfterFreshSet(ids, orders, o);
      }
      orders := orders[id := o];
      ids := SetKey(ids, id);
    }
  }
}
