/** What Car.update (assets/car.js) selects from the objects registry: the
    obstacles it bounces off and the coins it collects.  The geometric
    overlap test lives in ColliderObject (collider-object.js, not modelled
    here); here it is the set of objects the car's rectangle touches this
    tick. */
module Collisions {

  import opened World

  /** The obstacle filter: a collider that is not a car (so never the car
      itself, and never another car). */
  predicate Solid(o: Thing) {
    !o.isCar && o.isCollider
  }

  /** The obstacles of the registry, in registry order. */
  function Obstacles(items: seq<Thing>): (r: seq<Thing>)
    ensures forall o :: o in r ==> o in items
    ensures forall o :: o in items ==> (o in r <==> Solid(o))
    ensures |r| <= |items|
    decreases |items|
  {
    if |items| == 0 then []
    else if Solid(items[0]) then [items[0]] + Obstacles(items[1..])
    else Obstacles(items[1..])
  }

  /** The bounce test: some obstacle overlaps the car. */
  predicate Bumped(items: seq<Thing>, touching: set<Thing>) {
    exists o :: o in Obstacles(items) && o in touching
  }

  /** A coin the car touches this tick. */
  predicate Consumed(o: Thing, touching: set<Thing>) {
    o.isCoin && o in touching
  }

  /** The coins filter followed by the overlap filter: every touched coin,
      in registry order, once per occurrence. */
  function CollidingCoins(items: seq<Thing>, touching: set<Thing>): (r: seq<Thing>)
    ensures forall o :: o in r ==> o in items
    ensures forall o :: o in items ==> (o in r <==> Consumed(o, touching))
    ensures |r| <= |items|
    decreases |items|
  {
    if |items| == 0 then []
    else if Consumed(items[0], touching) then [items[0]] + CollidingCoins(items[1..], touching)
    else CollidingCoins(items[1..], touching)
  }

  /** The registry as update leaves it: every object but the touched coins,
      in the original order. */
  function Remaining(items: seq<Thing>, touching: set<Thing>): (r: seq<Thing>)
    ensures forall o :: o in r ==> o in items
    ensures forall o :: o in items ==> (o in r <==> !Consumed(o, touching))
    ensures |r| <= |items|
    decreases |items|
  {
    if |items| == 0 then []
    else if Consumed(items[0], touching) then Remaining(items[1..], touching)
    else [items[0]] + Remaining(items[1..], touching)
  }

  /** Every registry entry is either collected or remains, never both and
      never neither. */
  lemma {:induction false} CoinsPartition(items: seq<Thing>, touching: set<Thing>)
    ensures multiset(Remaining(items, touching)) + multiset(CollidingCoins(items, touching)) == multiset(items)
    ensures |Remaining(items, touching)| + |CollidingCoins(items, touching)| == |items|
    decreases |items|
  {
    if |items| > 0 {
      assert items == [items[0]] + items[1..];
      CoinsPartition(items[1..], touching);
    }
  }

  /** Removing a touched coin does not change what remains. */
  lemma {:induction false} RemoveConsumedKeepsRemaining(s: seq<Thing>, x: Thing, touching: set<Thing>)
    requires Consumed(x, touching)
    ensures Remaining(RemoveFirst(s, x), touching) == Remaining(s, touching)
    decreases |s|
  {
    if |s| > 0 && s[0] != x {
      var t := RemoveFirst(s[1..], x);
      assert RemoveFirst(s, x) == [s[0]] + t;
      assert ([s[0]] + t)[0] == s[0] && ([s[0]] + t)[1..] == t;
      RemoveConsumedKeepsRemaining(s[1..], x, touching);
    }
  }

  /** Removing a touched coin takes exactly one copy of it off the coins
      still to collect. */
  lemma {:induction false} RemoveConsumedDropsOne(s: seq<Thing>, x: Thing, touching: set<Thing>)
    requires Consumed(x, touching)
    ensures multiset(CollidingCoins(RemoveFirst(s, x), touching)) == multiset(CollidingCoins(s, touching)) - multiset{x}
    decreases |s|
  {
    if |s| > 0 && s[0] != x {
      var t := RemoveFirst(s[1..], x);
      assert RemoveFirst(s, x) == [s[0]] + t;
      assert ([s[0]] + t)[0] == s[0] && ([s[0]] + t)[1..] == t;
      RemoveConsumedDropsOne(s[1..], x, touching);
      if Consumed(s[0], touching) {
        var c := CollidingCoins(s[1..], touching);
        assert multiset([s[0]] + c) == multiset{s[0]} + multiset(c);
        assert multiset([s[0]] + CollidingCoins(t, touching))
            == multiset{s[0]} + multiset(CollidingCoins(t, touching));
      }
    }
  }

  /** A registry without touched coins is its own remainder. */
  lemma {:induction false} NothingToCollect(s: seq<Thing>, touching: set<Thing>)
    requires CollidingCoins(s, touching) == []
    ensures Remaining(s, touching) == s
    decreases |s|
  {
    if |s| > 0 {
      assert !Consumed(s[0], touching);
      NothingToCollect(s[1..], touching);
      assert s == [s[0]] + s[1..];
    }
  }

  /** One round of the coin loop over `coins`, the touched coins of the
      registry `start`: when the coins still to collect from `items` are
      coins[i..], removing coins[i] keeps what remains and leaves
      coins[i + 1..] to collect. */
  lemma CollectStep(start: seq<Thing>, items: seq<Thing>, touching: set<Thing>, i: nat)
    requires i < |CollidingCoins(start, touching)|
    requires multiset(CollidingCoins(items, touching)) == multiset(CollidingCoins(start, touching)[i..])
    ensures var next := RemoveFirst(items, CollidingCoins(start, touching)[i]);
      && Remaining(next, touching) == Remaining(items, touching)
      && multiset(CollidingCoins(next, touching)) == multiset(CollidingCoins(start, touching)[i + 1..])
  {
    var coins := CollidingCoins(start, touching);
    assert coins[i] in coins;
    assert coins[i..] == [coins[i]] + coins[i + 1..];
    RemoveConsumedKeepsRemaining(items, coins[i], touching);
    RemoveConsumedDropsOne(items, coins[i], touching);
  }

  /** The coin loop's exit: nothing left to collect means the registry is
      what remains. */
  lemma CollectDone(items: seq<Thing>, touching: set<Thing>)
    requires multiset(CollidingCoins(items, touching)) == multiset{}
    ensures items == Remaining(items, touching)
  {
    assert |CollidingCoins(items, touching)| == 0;
    NothingToCollect(items, touching);
  }

  /** The tail of a sequence without duplicates has none either, and does
      not hold the head. */
  lemma DistinctTail<T>(s: seq<T>)
    requires Distinct(s) && |s| > 0
    ensures Distinct(s[1..]) && s[0] !in s[1..]
  {
    var t := s[1..];
    forall i, j | 0 <= i < j < |t| ensures t[i] != t[j] {
      assert t[i] == s[i + 1] && t[j] == s[j + 1];
    }
  }

  /** The touched coins of a registry, as a set. */
  function TouchedCoins(items: seq<Thing>, touching: set<Thing>): set<Thing> {
    set o | o in items && Consumed(o, touching)
  }

  /** Peeling one object off the registry adds it to the touched coins
      exactly when it is one. */
  lemma TouchedCoinsCons(items: seq<Thing>, touching: set<Thing>)
    requires |items| > 0
    ensures TouchedCoins(items, touching)
         == TouchedCoins(items[1..], touching) + (if Consumed(items[0], touching) then {items[0]} else {})
  {
    assert items == [items[0]] + items[1..];
  }

  /** In a registry holding each object once, update scores exactly one
      point per distinct coin the car touches. */
  lemma {:induction false} ScoreCountsTouchedCoins(items: seq<Thing>, touching: set<Thing>)
    requires Distinct(items)
    ensures |CollidingCoins(items, touching)| == |TouchedCoins(items, touching)|
    decreases |items|
  {
    if |items| > 0 {
      DistinctTail(items);
      ScoreCountsTouchedCoins(items[1..], touching);
      TouchedCoinsCons(items, touching);
    } else {
      assert TouchedCoins(items, touching) == {};
    }
  }

  /** A coin that is itself a collider is an obstacle as well: touching it
      bounces the car in the same tick as it is collected. */
  lemma CoinColliderBounces(items: seq<Thing>, touching: set<Thing>, coin: Thing)
    requires coin in items && coin in touching
    requires coin.isCoin && coin.isCollider && !coin.isCar
    ensures Consumed(coin, touching) && Bumped(items, touching)
  {
    assert coin in Obstacles(items);
  }

  /** Conversely, with no obstacle in the registry nothing bounces. */
  lemma NoObstacleNoBounce(items: seq<Thing>, touching: set<Thing>)
    requires forall o :: o in items ==> !Solid(o)
    ensures !Bumped(items, touching)
  {
  }
}
