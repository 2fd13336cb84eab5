/**
 * The roster of remote users kept by the multi-user sketches (`otherMouses`,
 * `otherUsers`, `otherPoses`, `allPoses`): an array of `{userId, <value>, color}`
 * records, updated by the same loop in every sketch. The loop overwrites the value
 * of every record whose `userId` is `===` to the incoming one and, when none
 * matched, pushes one new record.
 */
module Roster {
  import opened Json

  /** The result of reading a property: `None` is `undefined`. */
  type Key = Option<Json>

  /** `a === b` on two property values: `undefined` equals itself, and decoded
      values compare as `StrictEquals` says. */
  predicate SameKey(a: Key, b: Key)
  {
    (a.None? && b.None?) || (a.Some? && b.Some? && StrictEquals(a.value, b.value))
  }

  /** A `userId` read from an envelope, with the envelope it was read from. Reading
      the same property of the same held envelope twice gives the same object, so
      an object or array id is `===` only to ids read from that one envelope. */
  datatype Id = Id(key: Key, origin: nat)

  /** `a === b` on two ids: `undefined` and primitives compare by value, objects
      and arrays by reference. */
  predicate SameId(a: Id, b: Id)
  {
    SameKey(a.key, b.key) || (a.key == b.key && a.origin == b.origin)
  }

  /** A key that is `===` to itself: `undefined` or a primitive (the socket ids are strings). */
  predicate Comparable(k: Key)
  {
    k.None? || k.value.JNull? || k.value.JBool? || k.value.JNum? || k.value.JStr?
  }

  /** `v.key` on a decoded value; the caller has excluded `null`. */
  function Prop(v: Json, key: string): Key
  {
    Lookup(v, key)
  }

  datatype Entry = Entry(userId: Id, value: Key, color: int)

  predicate HasUser(es: seq<Entry>, id: Id)
  {
    exists i :: 0 <= i < |es| && SameId(id, es[i].userId)
  }

  /** Every record whose id matches takes the new value; the others are kept. */
  function UpdateMatching(es: seq<Entry>, id: Id, v: Key): (r: seq<Entry>)
    ensures |r| == |es|
    ensures forall i :: 0 <= i < |es| ==> r[i] == if SameId(id, es[i].userId) then es[i].(value := v) else es[i]
  {
    if es == [] then []
    else
      var n := |es| - 1;
      UpdateMatching(es[..n], id, v) + [if SameId(id, es[n].userId) then es[n].(value := v) else es[n]]
  }

  /** The roster after one pass of the loop and the push that follows it. */
  function Upserted(es: seq<Entry>, id: Id, v: Key, color: int): seq<Entry>
  {
    var u := UpdateMatching(es, id, v);
    if HasUser(es, id) then u else u + [Entry(id, v, color)]
  }

  /** The sketches' roster array. */
  class RosterTable {
    var entries: seq<Entry>

    constructor ()
      ensures entries == []
    {
      entries := [];
    }

    /** The update loop with its `foundMatch` flag, then the push of a new record. */
    method Upsert(id: Id, v: Key, color: int)
      modifies this
      ensures entries == Upserted(old(entries), id, v, color)
    {
      var foundMatch := false;
      var i := 0;
      while i < |entries|
        invariant 0 <= i <= |entries| == |old(entries)|
        invariant foundMatch <==> exists j :: 0 <= j < i && SameId(id, old(entries)[j].userId)
        invariant forall j :: 0 <= j < |entries| ==>
                    entries[j] == if j < i && SameId(id, old(entries)[j].userId) then old(entries)[j].(value := v) else old(entries)[j]
      {
        if SameId(id, entries[i].userId) {
          entries := entries[i := entries[i].(value := v)];
          foundMatch := true;
        }
        i := i + 1;
      }
      if !foundMatch {
        entries := entries + [Entry(id, v, color)];
      }
    }

    /** `allPoses[0].pose = v` */
    method SetFirstValue(v: Key)
      requires entries != []
      modifies this
      ensures entries == old(entries)[0 := old(entries)[0].(value := v)]
    {
      entries := entries[0 := entries[0].(value := v)];
    }

    /** `push` of one record. */
    method Push(e: Entry)
      modifies this
      ensures entries == old(entries) + [e]
    {
      entries := entries + [e];
    }
  }

  /** One pass changes only the values of matching records, in place, and appends
      exactly one record when nothing matched. */
  lemma UpsertShape(es: seq<Entry>, id: Id, v: Key, color: int)
    ensures var r := Upserted(es, id, v, color);
      && |r| == |es| + (if HasUser(es, id) then 0 else 1)
      && (forall i :: 0 <= i < |es| && SameId(id, es[i].userId) ==> r[i] == es[i].(value := v))
      && (forall i :: 0 <= i < |es| && !SameId(id, es[i].userId) ==> r[i] == es[i])
      && (!HasUser(es, id) ==> r[|es|] == Entry(id, v, color))
  {
  }

  /** Applying the same data again leaves the roster as the first application left it.
      This holds for an object id too, as long as it is read from the same envelope. */
  lemma UpsertIdempotent(es: seq<Entry>, id: Id, v: Key, color: int, color': int)
    ensures Upserted(Upserted(es, id, v, color), id, v, color') == Upserted(es, id, v, color)
  {
    var r := Upserted(es, id, v, color);
    if !HasUser(es, id) {
      assert SameId(id, r[|es|].userId);
    } else {
      var i :| 0 <= i < |es| && SameId(id, es[i].userId);
      assert SameId(id, r[i].userId);
    }
    assert HasUser(r, id);
    var r2 := Upserted(r, id, v, color');
    assert |r2| == |r|;
    forall i | 0 <= i < |r| ensures r2[i] == r[i] {
      if i < |es| && SameId(id, es[i].userId) {
        assert r[i] == es[i].(value := v);
      }
    }
  }

  /** No two records have `===` ids. */
  predicate DistinctKeys(es: seq<Entry>)
  {
    forall i, j :: 0 <= i < j < |es| ==> !SameId(es[i].userId, es[j].userId)
  }

  /** The roster stays keyed: one record per `===`-distinct id. */
  lemma UpsertKeepsKeysDistinct(es: seq<Entry>, id: Id, v: Key, color: int)
    requires DistinctKeys(es)
    ensures DistinctKeys(Upserted(es, id, v, color))
  {
    var r := Upserted(es, id, v, color);
    forall i, j | 0 <= i < j < |r| ensures !SameId(r[i].userId, r[j].userId) {
      if j == |es| {
        assert !HasUser(es, id);
        assert !SameId(id, es[i].userId);
        assert r[j].userId == id && r[i].userId == es[i].userId;
      } else {
        assert r[i].userId == es[i].userId && r[j].userId == es[j].userId;
      }
    }
  }

  /** An object id read from an envelope no record came from matches no record,
      even when an equal object is held: a new record is pushed. */
  lemma NewObjectIdAppends(es: seq<Entry>, id: Id, v: Key, color: int)
    requires !Comparable(id.key)
    requires forall i :: 0 <= i < |es| ==> es[i].userId.origin != id.origin
    ensures Upserted(es, id, v, color) == es + [Entry(id, v, color)]
  {
    UpsertShape(es, id, v, color);
    forall i | 0 <= i < |es| ensures !SameId(id, es[i].userId) {
      assert !SameKey(id.key, es[i].userId.key);
    }
  }

  /** One incoming message: the sender's id, its data and the colour drawn for a new record. */
  datatype Arrival = Arrival(id: Id, data: Key, color: int)

  /** The roster after a sequence of arrivals, starting empty. */
  function Run(arrivals: seq<Arrival>): seq<Entry>
  {
    if arrivals == [] then []
    else
      var a := arrivals[|arrivals| - 1];
      Upserted(Run(arrivals[..|arrivals| - 1]), a.id, a.data, a.color)
  }

  function IdsSeen(arrivals: seq<Arrival>): set<Key>
  {
    set i | 0 <= i < |arrivals| :: arrivals[i].id.key
  }

  function KeySet(es: seq<Entry>): set<Key>
  {
    set i | 0 <= i < |es| :: es[i].userId.key
  }

  /** A pass adds the incoming id to the roster's ids and removes none. */
  lemma UpsertKeySet(es: seq<Entry>, id: Id, v: Key, color: int)
    requires Comparable(id.key)
    ensures KeySet(Upserted(es, id, v, color)) == KeySet(es) + {id.key}
    ensures forall i :: 0 <= i < |Upserted(es, id, v, color)| ==>
              Upserted(es, id, v, color)[i].userId == id || Upserted(es, id, v, color)[i].userId.key in KeySet(es)
  {
    UpsertShape(es, id, v, color);
    var r := Upserted(es, id, v, color);
    if HasUser(es, id) {
      var k :| 0 <= k < |es| && SameId(id, es[k].userId);
      assert es[k].userId.key == id.key;
      assert forall i :: 0 <= i < |r| ==> r[i].userId == es[i].userId;
    } else {
      assert r[|es|].userId == id;
      assert forall i :: 0 <= i < |es| ==> r[i].userId == es[i].userId;
    }
  }

  /** The ids in the roster are exactly the ids that arrived, without repeats. */
  lemma {:induction false} RunKeys(arrivals: seq<Arrival>)
    requires forall i :: 0 <= i < |arrivals| ==> Comparable(arrivals[i].id.key)
    ensures DistinctKeys(Run(arrivals))
    ensures KeySet(Run(arrivals)) == IdsSeen(arrivals)
  {
    if arrivals != [] {
      var prefix := arrivals[..|arrivals| - 1];
      var a := arrivals[|arrivals| - 1];
      RunKeys(prefix);
      UpsertKeepsKeysDistinct(Run(prefix), a.id, a.data, a.color);
      UpsertKeySet(Run(prefix), a.id, a.data, a.color);
      IdsSeenSnoc(arrivals);
    }
  }

  lemma IdsSeenSnoc(arrivals: seq<Arrival>)
    requires arrivals != []
    ensures IdsSeen(arrivals) == IdsSeen(arrivals[..|arrivals| - 1]) + {arrivals[|arrivals| - 1].id.key}
  {
    var prefix := arrivals[..|arrivals| - 1];
    forall x | x in IdsSeen(arrivals) ensures x in IdsSeen(prefix) + {arrivals[|arrivals| - 1].id.key} {
      var i :| 0 <= i < |arrivals| && arrivals[i].id.key == x;
      if i < |prefix| {
        assert prefix[i] == arrivals[i];
      }
    }
    forall x | x in IdsSeen(prefix) ensures x in IdsSeen(arrivals) {
      var i :| 0 <= i < |prefix| && prefix[i].id.key == x;
      assert arrivals[i] == prefix[i];
    }
    assert arrivals[|arrivals| - 1].id.key in IdsSeen(arrivals);
  }

  /** Every id held is comparable when every id that arrived is. */
  lemma AllComparable(arrivals: seq<Arrival>)
    requires forall i :: 0 <= i < |arrivals| ==> Comparable(arrivals[i].id.key)
    ensures forall i :: 0 <= i < |Run(arrivals)| ==> Comparable(Run(arrivals)[i].userId.key)
  {
    RunKeys(arrivals);
    forall i | 0 <= i < |Run(arrivals)| ensures Comparable(Run(arrivals)[i].userId.key) {
      assert Run(arrivals)[i].userId.key in IdsSeen(arrivals);
    }
  }

  /** A roster without repeated comparable ids has one record per distinct id. */
  lemma {:induction false} DistinctKeysCount(es: seq<Entry>)
    requires DistinctKeys(es)
    requires forall i :: 0 <= i < |es| ==> Comparable(es[i].userId.key)
    ensures |KeySet(es)| == |es|
  {
    if es != [] {
      var p := es[..|es| - 1];
      var last := es[|es| - 1];
      DistinctKeysCount(p);
      assert KeySet(es) == KeySet(p) + {last.userId.key};
      forall k | 0 <= k < |p| ensures p[k].userId.key != last.userId.key {
        assert !SameId(es[k].userId, es[|es| - 1].userId);
      }
    }
  }

  /** The roster never holds more records than distinct ids have arrived. */
  lemma RunSize(arrivals: seq<Arrival>)
    requires forall i :: 0 <= i < |arrivals| ==> Comparable(arrivals[i].id.key)
    ensures |Run(arrivals)| == |IdsSeen(arrivals)|
  {
    RunKeys(arrivals);
    AllComparable(arrivals);
    DistinctKeysCount(Run(arrivals));
  }

  /** The self record `{userId: 1}` at index 0 is never matched by a socket id. */
  lemma SelfStaysFirst(es: seq<Entry>, id: string, origin: nat, v: Key, color: int)
    requires es != [] && es[0].userId.key == Some(JNum(1))
    ensures Upserted(es, Id(Some(JStr(id)), origin), v, color)[0] == es[0]
  {
    UpsertShape(es, Id(Some(JStr(id)), origin), v, color);
  }
}
