/** One side of an order book, in the order a BTreeMap keyed by price and id iterates over it. */
module Orders {
  import opened Types

  datatype OrderKey = OrderKey(price: int, id: nat)

  function KeyOf(o: Order): OrderKey
  {
    OrderKey(o.price, o.id)
  }

  /** Asks: the lower price first.  Bids: the higher price first.  Then the lower id. */
  predicate Before(side: OrderSide, a: OrderKey, b: OrderKey)
  {
    if a.price == b.price then a.id < b.id
    else if side == ASK then a.price < b.price
    else b.price < a.price
  }

  ghost predicate Sorted(side: OrderSide, s: seq<Order>)
  {
    forall i, j | 0 <= i < j < |s| :: Before(side, KeyOf(s[i]), KeyOf(s[j]))
  }

  ghost predicate DistinctIds(s: seq<Order>)
  {
    forall i, j | 0 <= i < j < |s| :: s[i].id != s[j].id
  }

  function Insert(side: OrderSide, s: seq<Order>, o: Order): seq<Order>
  {
    if s == [] || Before(side, KeyOf(o), KeyOf(s[0])) then [o] + s
    else [s[0]] + Insert(side, s[1..], o)
  }

  function IndexOf(s: seq<Order>, id: nat): (i: nat)
    ensures i <= |s|
    ensures i < |s| ==> s[i].id == id
    ensures forall j | 0 <= j < i :: s[j].id != id
  {
    if s == [] || s[0].id == id then 0 else 1 + IndexOf(s[1..], id)
  }

  function Without(s: seq<Order>, id: nat): seq<Order>
  {
    var i := IndexOf(s, id);
    if i < |s| then s[..i] + s[i + 1..] else s
  }

  ghost function FrozenOf(s: seq<Order>, user: Uuid): int
  {
    if s == [] then 0 else FrozenOf(s[..|s| - 1], user) + FrozenBy(s[|s| - 1], user)
  }

  ghost function FrozenBy(o: Order, user: Uuid): int
  {
    if o.user == user then o.frozen else 0
  }

  function CountOf(s: seq<Order>, user: Uuid): nat
  {
    if s == [] then 0 else CountOf(s[..|s| - 1], user) + if s[|s| - 1].user == user then 1 else 0
  }

  function SortIn(ids: seq<nat>, id: nat): seq<nat>
  {
    if ids == [] || id < ids[0] then [id] + ids else [ids[0]] + SortIn(ids[1..], id)
  }

  /** The ids of a user's orders, ascending. */
  function IdsOfUser(s: seq<Order>, user: Uuid): seq<nat>
  {
    if s == [] then []
    else
      var ids := IdsOfUser(s[..|s| - 1], user);
      if s[|s| - 1].user == user then SortIn(ids, s[|s| - 1].id) else ids
  }

  ghost predicate Ascending(ids: seq<nat>)
  {
    forall i, j | 0 <= i < j < |ids| :: ids[i] < ids[j]
  }

  lemma {:induction false} SortInAscends(ids: seq<nat>, id: nat)
    requires Ascending(ids) && id !in ids
    ensures Ascending(SortIn(ids, id)) && |SortIn(ids, id)| == |ids| + 1
    ensures forall x :: x in SortIn(ids, id) <==> x == id || x in ids
  {
    if ids != [] && ids[0] <= id {
      SortInAscends(ids[1..], id);
      var r := SortIn(ids[1..], id);
      forall j | 0 <= j < |r|
        ensures ids[0] < r[j]
      {
        assert r[j] == id || r[j] in ids[1..];
      }
      assert ids == [ids[0]] + ids[1..];
    }
  }

  ghost predicate IsOfUser(s: seq<Order>, user: Uuid, id: nat)
  {
    exists i :: 0 <= i < |s| && s[i].user == user && s[i].id == id
  }

  lemma OfUserInParts(s: seq<Order>, t: seq<Order>, user: Uuid, id: nat)
    ensures IsOfUser(s + t, user, id) <==> IsOfUser(s, user, id) || IsOfUser(t, user, id)
  {
    if i :| 0 <= i < |s| && s[i].user == user && s[i].id == id {
      assert (s + t)[i] == s[i];
    }
    if i :| 0 <= i < |t| && t[i].user == user && t[i].id == id {
      assert (s + t)[|s| + i] == t[i];
    }
    if i :| 0 <= i < |s + t| && (s + t)[i].user == user && (s + t)[i].id == id {
      assert (s + t)[i] == if i < |s| then s[i] else t[i - |s|];
    }
  }

  /** The ids of a user's orders: each of them once, in ascending order. */
  lemma {:induction false} IdsOfUserAscend(s: seq<Order>, user: Uuid)
    requires DistinctIds(s)
    ensures Ascending(IdsOfUser(s, user)) && |IdsOfUser(s, user)| == CountOf(s, user)
    ensures forall id :: id in IdsOfUser(s, user) <==> IsOfUser(s, user, id)
  {
    if s != [] {
      var front, last := s[..|s| - 1], s[|s| - 1];
      IdsOfUserAscend(front, user);
      forall id
        ensures IsOfUser(s, user, id) <==> IsOfUser(front, user, id) || (last.user == user && last.id == id)
      {
        assert IsOfUser(front, user, id) ==> exists i :: 0 <= i < |front| && s[i].user == user && s[i].id == id;
        assert last.user == user && last.id == id ==> s[|s| - 1].id == id;
      }
      if last.user == user {
        assert !IsOfUser(front, user, last.id);
        SortInAscends(IdsOfUser(front, user), last.id);
      }
    }
  }

  /** Two ascending sequences of the same ids are equal. */
  lemma {:induction false} AscendingIsUnique(a: seq<nat>, b: seq<nat>)
    requires Ascending(a) && Ascending(b)
    requires forall id :: id in a <==> id in b
    ensures a == b
  {
    assert |b| > 0 ==> b[0] in b;
    if a != [] {
      assert a[0] in b && b[0] in a;
      assert a[0] == b[0];
      assert a == [a[0]] + a[1..] && b == [b[0]] + b[1..];
      forall id
        ensures id in a[1..] <==> id in b[1..]
      {
        assert id in a[1..] ==> id in a && id != a[0];
        assert id in b[1..] ==> id in b && id != b[0];
      }
      AscendingIsUnique(a[1..], b[1..]);
    }
  }

  lemma {:induction false} FrozenOfConcat(s: seq<Order>, t: seq<Order>, user: Uuid)
    ensures FrozenOf(s + t, user) == FrozenOf(s, user) + FrozenOf(t, user)
    ensures CountOf(s + t, user) == CountOf(s, user) + CountOf(t, user)
  {
    if t == [] {
      assert s + t == s;
    } else {
      FrozenOfConcat(s, t[..|t| - 1], user);
      assert (s + t)[..|s + t| - 1] == s + t[..|t| - 1];
    }
  }

  lemma FrozenOfOne(o: Order, user: Uuid)
    ensures FrozenOf([o], user) == FrozenBy(o, user)
    ensures CountOf([o], user) == if o.user == user then 1 else 0
  {
    assert [o][..0] == [];
  }

  lemma {:induction false} FrozenOfAtLeast(s: seq<Order>, i: nat, user: Uuid)
    requires i < |s|
    requires forall o | o in s :: 0 <= o.frozen
    ensures FrozenBy(s[i], user) <= FrozenOf(s, user)
  {
    FrozenNonNegative(s[..|s| - 1], user);
    if i < |s| - 1 {
      FrozenOfAtLeast(s[..|s| - 1], i, user);
    }
  }

  lemma {:induction false} FrozenNonNegative(s: seq<Order>, user: Uuid)
    requires forall o | o in s :: 0 <= o.frozen
    ensures 0 <= FrozenOf(s, user)
  {
    if s != [] {
      FrozenNonNegative(s[..|s| - 1], user);
    }
  }

  /** Where `Insert` puts the order: before everything it goes before, after all the rest. */
  lemma {:induction false} InsertSplits(side: OrderSide, s: seq<Order>, o: Order) returns (i: nat)
    ensures i <= |s|
    ensures Insert(side, s, o) == s[..i] + [o] + s[i..]
    ensures i < |s| ==> Before(side, KeyOf(o), KeyOf(s[i]))
    ensures forall j | 0 <= j < i :: !Before(side, KeyOf(o), KeyOf(s[j]))
  {
    if s == [] || Before(side, KeyOf(o), KeyOf(s[0])) {
      i := 0;
    } else {
      i := InsertSplits(side, s[1..], o);
      i := i + 1;
      assert s[..i] == [s[0]] + s[1..][..i - 1];
    }
  }

  lemma InsertKeepsSorted(side: OrderSide, s: seq<Order>, o: Order)
    requires Sorted(side, s)
    requires forall i | 0 <= i < |s| :: s[i].id != o.id
    ensures Sorted(side, Insert(side, s, o))
  {
    var i := InsertSplits(side, s, o);
    var r := s[..i] + [o] + s[i..];
    forall j, k | 0 <= j < k < |r|
      ensures Before(side, KeyOf(r[j]), KeyOf(r[k]))
    {
      if j == i {
        assert r[k] == s[k - 1];
        assert i < k - 1 ==> Before(side, KeyOf(s[i]), KeyOf(s[k - 1]));
      } else if k == i {
        assert r[j] == s[j] && s[j].id != o.id;
      } else {
        assert r[j] == s[if j < i then j else j - 1] && r[k] == s[if k < i then k else k - 1];
      }
    }
  }

  lemma InsertAddsOrder(side: OrderSide, s: seq<Order>, o: Order)
    ensures multiset(Insert(side, s, o)) == multiset(s) + multiset{o}
  {
    var i := InsertSplits(side, s, o);
    assert s == s[..i] + s[i..];
  }

  lemma InsertAddsFrozen(side: OrderSide, s: seq<Order>, o: Order, user: Uuid)
    ensures FrozenOf(Insert(side, s, o), user) == FrozenOf(s, user) + FrozenBy(o, user)
    ensures CountOf(Insert(side, s, o), user) == CountOf(s, user) + if o.user == user then 1 else 0
  {
    var i := InsertSplits(side, s, o);
    assert s == s[..i] + s[i..];
    FrozenOfConcat(s[..i], s[i..], user);
    FrozenOfConcat(s[..i] + [o], s[i..], user);
    FrozenOfConcat(s[..i], [o], user);
    FrozenOfOne(o, user);
  }

  lemma WithoutSplits(s: seq<Order>, id: nat, i: nat)
    requires i < |s| && s[i].id == id
    requires DistinctIds(s)
    ensures IndexOf(s, id) == i
    ensures Without(s, id) == s[..i] + s[i + 1..]
    ensures multiset(s) == multiset(Without(s, id)) + multiset{s[i]}
    ensures forall x :: x in Without(s, id) <==> x in s && x.id != id
  {
    assert s == s[..i] + [s[i]] + s[i + 1..];
  }

  lemma WithoutSubtractsFrozen(s: seq<Order>, i: nat, user: Uuid)
    requires i < |s|
    ensures FrozenOf(s[..i] + s[i + 1..], user) == FrozenOf(s, user) - FrozenBy(s[i], user)
    ensures CountOf(s[..i] + s[i + 1..], user) == CountOf(s, user) - if s[i].user == user then 1 else 0
  {
    assert s == s[..i] + [s[i]] + s[i + 1..];
    FrozenOfConcat(s[..i], s[i + 1..], user);
    FrozenOfConcat(s[..i] + [s[i]], s[i + 1..], user);
    FrozenOfConcat(s[..i], [s[i]], user);
    FrozenOfOne(s[i], user);
  }

  /** A sorted side is determined by which orders it holds. */
  lemma {:induction false} SortedIsUnique(side: OrderSide, s: seq<Order>, t: seq<Order>)
    requires Sorted(side, s) && Sorted(side, t)
    requires forall o :: o in s <==> o in t
    ensures s == t
  {
    assert |s| > 0 ==> s[0] in s;
    assert |t| > 0 ==> t[0] in t;
    if s != [] {
      SortedSameHead(side, s, t);
      assert s == [s[0]] + s[1..] && t == [t[0]] + t[1..];
      forall o
        ensures o in s[1..] <==> o in t[1..]
      {
        InTail(side, s, o);
        InTail(side, t, o);
      }
      SortedIsUnique(side, s[1..], t[1..]);
    }
  }

  lemma InTail(side: OrderSide, s: seq<Order>, o: Order)
    requires Sorted(side, s) && s != []
    ensures o in s[1..] <==> o in s && o != s[0]
  {
    assert s == [s[0]] + s[1..];
    forall i | 0 <= i < |s| - 1
      ensures s[1..][i] != s[0]
    {
      assert Before(side, KeyOf(s[0]), KeyOf(s[i + 1]));
    }
  }

  lemma SortedSameHead(side: OrderSide, s: seq<Order>, t: seq<Order>)
    requires s != [] && Sorted(side, s) && Sorted(side, t)
    requires forall o :: o in s <==> o in t
    ensures t != [] && s[0] == t[0]
  {
    assert s[0] in t;
    assert t[0] in s;
    var i :| 0 <= i < |t| && t[i] == s[0];
    var j :| 0 <= j < |s| && s[j] == t[0];
  }
}
