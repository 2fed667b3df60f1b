/** The scene objects a Car shares with the rest of the game: the objects
    registry it scans and edits, the player whose score it raises, and
    removeItemByValue from assets/utils.js. */
module World {

  /** A scene object, reduced to the three class tests that
      update makes on it: `instanceof Car`, `instanceof ColliderObject`,
      `instanceof Coin`.  Identity is object identity.  A car is always a
      collider and never a coin, since Car extends ColliderObject. */
  class Thing {
    const isCar: bool
    const isCollider: bool
    const isCoin: bool

    constructor(isCar: bool, isCollider: bool, isCoin: bool)
      requires isCar ==> isCollider && !isCoin
      ensures this.isCar == isCar && this.isCollider == isCollider && this.isCoin == isCoin
    {
      this.isCar := isCar;
      this.isCollider := isCollider;
      this.isCoin := isCoin;
    }
  }

  /** The shared, mutable array of scene objects. */
  class Registry {
    var items: seq<Thing>

    constructor(items: seq<Thing>)
      ensures this.items == items
    {
      this.items := items;
    }
  }

  /** The player owning a car; only its score is touched by the car. */
  class Player {
    var score: int

    constructor(score: int)
      ensures this.score == score
    {
      this.score := score;
    }

    /** incrementScore: one more point. */
    method IncrementScore()
      modifies this
      ensures score == old(score) + 1
    {
      score := score + 1;
    }
  }

  /** No object occurs twice. */
  predicate Distinct<T(==)>(s: seq<T>) {
    forall i, j :: 0 <= i < j < |s| ==> s[i] != s[j]
  }

  /** The index of the first occurrence of x in s. */
  function IndexOf<T(==)>(s: seq<T>, x: T): (k: nat)
    requires x in s
    ensures k < |s| && s[k] == x && x !in s[..k]
    decreases |s|
  {
    if s[0] == x then 0
    else
      var k := 1 + IndexOf(s[1..], x);
      assert s[..k] == [s[0]] + s[1..][..k - 1];
      k
  }

  /** s without its first occurrence of x; s itself when x does not occur. */
  function RemoveFirst<T(==)>(s: seq<T>, x: T): (r: seq<T>)
    ensures x !in s ==> r == s
    ensures x in s ==> |r| == |s| - 1
    decreases |s|
  {
    if |s| == 0 then s
    else if s[0] == x then s[1..]
    else [s[0]] + RemoveFirst(s[1..], x)
  }

  /** The element removed is the first occurrence, and the rest keeps its
      order: RemoveFirst cuts s at IndexOf(s, x). */
  lemma {:induction false} RemoveFirstSplits<T>(s: seq<T>, x: T)
    requires x in s
    ensures RemoveFirst(s, x) == s[..IndexOf(s, x)] + s[IndexOf(s, x) + 1..]
    decreases |s|
  {
    if s[0] != x {
      var t := s[1..];
      var k := IndexOf(t, x);
      assert IndexOf(s, x) == k + 1;
      assert RemoveFirst(s, x) == [s[0]] + RemoveFirst(t, x);
      RemoveFirstSplits(t, x);
      assert s[..k + 1] == [s[0]] + t[..k];
      assert s[k + 2..] == t[k + 1..];
    }
  }

  /** RemoveFirst takes exactly one copy of x out of the multiset of s, and
      nothing else. */
  lemma {:induction false} RemoveFirstMultiset<T>(s: seq<T>, x: T)
    ensures multiset(RemoveFirst(s, x)) == multiset(s) - multiset{x}
    decreases |s|
  {
    if |s| > 0 {
      assert s == [s[0]] + s[1..];
      if s[0] != x {
        RemoveFirstMultiset(s[1..], x);
      }
    }
  }

  /** removeItemByValue: deletes the first occurrence of value from the
      shared array in place, and does nothing when value is not in it. */
  method RemoveItemByValue(objects: Registry, value: Thing)
    modifies objects
    ensures objects.items == RemoveFirst(old(objects.items), value)
  {
    objects.items := RemoveFirst(objects.items, value);
  }
}
