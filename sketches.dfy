/**
 * The data-plane side of the multi-user sketches: what each `draw`, `gotData`,
 * `getPose` and `getOtherPoses` does to the roster, and the "hands up" check of
 * the example8 sketches.
 *
 * The calls into the peer facade are parameters: `started` is what
 * `isConnectionStarted()` / `isPeerStarted()` returned, `incoming` is what
 * `getData()` returned (`None` for `undefined`, `Some(JNull)` for `null`), `origin`
 * names the object it returned (the same number for the same object, so that an
 * object `userId` is `===` to ids read from that object only), and
 * every value handed to `send` / `sendData` is appended to `sent`. The colour
 * `random(...)` draws is a parameter too. Drawing itself is not modelled: a
 * `drawn` result says whether the frame reached the drawing code.
 */
module Sketches {
  import opened Json
  import T = Transport
  import opened Roster

  /** A value whose property access throws: `undefined` or `null`. */
  predicate Nullish(k: Key)
  {
    k.None? || k.value.JNull?
  }

  /** The body of the update loop shared by all the sketches, given the envelope
      `{data, userId}` that arrived: upsert by `userId`. Reading `userId` of
      `undefined` or `null` throws before anything changes. */
  method ReceiveEnvelope(roster: RosterTable, nd: Key, origin: nat, color: int) returns (outcome: T.Outcome)
    modifies roster
    ensures outcome == T.TypeError <==> Nullish(nd)
    ensures outcome == T.TypeError || outcome == T.Completed
    ensures Nullish(nd) ==> roster.entries == old(roster.entries)
    ensures !Nullish(nd) ==>
              roster.entries == Upserted(old(roster.entries), Id(Prop(nd.value, "userId"), origin), Prop(nd.value, "data"), color)
  {
    if Nullish(nd) {
      return T.TypeError;
    }
    roster.Upsert(Id(Prop(nd.value, "userId"), origin), Prop(nd.value, "data"), color);
    return T.Completed;
  }

  /** `getOtherPoses()` (example7, example8): nothing happens on `null`. */
  method GetOtherPoses(roster: RosterTable, incoming: Key, origin: nat, color: int) returns (outcome: T.Outcome)
    modifies roster
    ensures incoming == Some(JNull) ==> outcome == T.Completed && roster.entries == old(roster.entries)
    ensures incoming.None? ==> outcome == T.TypeError && roster.entries == old(roster.entries)
    ensures !Nullish(incoming) ==>
              outcome == T.Completed
              && roster.entries == Upserted(old(roster.entries), Id(Prop(incoming.value, "userId"), origin), Prop(incoming.value, "data"), color)
  {
    if incoming == Some(JNull) {
      return T.Completed;
    }
    outcome := ReceiveEnvelope(roster, incoming, origin, color);
  }

  /** After one upsert the roster is never empty: the length checks that follow
      the loop in the mouse sketches always pass once data has been applied. */
  lemma UpsertedNonEmpty(es: seq<Entry>, id: Id, v: Key, color: int)
    ensures |Upserted(es, id, v, color)| >= 1
    ensures |Upserted(es, id, v, color)| >= |es|
  {
    UpsertShape(es, id, v, color);
    if HasUser(es, id) {
      var k :| 0 <= k < |es| && SameId(id, es[k].userId);
    }
  }

  /** An upsert keeps the id of every record it had, so the record at index 0
      stays the own one. */
  lemma UpsertKeepsIds(es: seq<Entry>, id: Id, v: Key, color: int)
    ensures forall i :: 0 <= i < |es| ==> Upserted(es, id, v, color)[i].userId == es[i].userId
  {
    UpsertShape(es, id, v, color);
  }

  /** examples/ex2_mouse_multiple: the envelope delivered by the `data` event is
      kept in `newData` and applied on every frame. */
  class MouseSketch {
    const roster: RosterTable
    var newData: Key
    /** How many envelopes `gotData` has received: each is a newly decoded object,
        and `newData` is the last one. */
    var envelopes: nat
    var sent: seq<Json>

    constructor ()
      ensures fresh(roster) && roster.entries == [] && newData == None && envelopes == 0 && sent == []
    {
      roster := new RosterTable();
      newData := None;
      envelopes := 0;
      sent := [];
    }

    /** `gotData(data)`: the envelope is a new object. */
    method GotData(data: Json)
      modifies this
      ensures newData == Some(data) && envelopes == old(envelopes) + 1 && sent == old(sent)
    {
      newData := Some(data);
      envelopes := envelopes + 1;
    }

    /** `draw()`: send this client's mouse, then fold the stored envelope into
        `otherMouses`; `drawn` is whether the frame gets past the length check. */
    method Draw(started: bool, mouse: Json, color: int) returns (outcome: T.Outcome, drawn: bool)
      modifies this, roster
      ensures newData == old(newData) && envelopes == old(envelopes)
      ensures !started ==> outcome == T.Completed && !drawn && sent == old(sent) && roster.entries == old(roster.entries)
      ensures started ==> sent == old(sent) + [mouse]
      ensures started && newData.None? ==> outcome == T.Completed && !drawn && roster.entries == old(roster.entries)
      ensures started && newData == Some(JNull) ==> outcome == T.TypeError && !drawn && roster.entries == old(roster.entries)
      ensures started && !Nullish(newData) ==>
                && outcome == T.Completed && drawn
                && roster.entries == Upserted(old(roster.entries), Id(Prop(newData.value, "userId"), envelopes), Prop(newData.value, "data"), color)
    {
      if !started {
        return T.Completed, false;
      }
      sent := sent + [mouse];
      if newData.None? {
        return T.Completed, false;
      }
      outcome := ReceiveEnvelope(roster, newData, envelopes, color);
      if outcome == T.TypeError {
        return outcome, false;
      }
      UpsertedNonEmpty(old(roster.entries), Id(Prop(newData.value, "userId"), envelopes), Prop(newData.value, "data"), color);
      drawn := |roster.entries| >= 1;
    }
  }

  /** browser_client/examples/example3_mouse_multiple and example6_mouse_multiple:
      the envelope is pulled with `getData()` on every frame. Example6 has no
      `mirror` switch and behaves as example3 with `mirror` false. */
  class MouseRoomSketch {
    const roster: RosterTable
    var sent: seq<Json>

    constructor ()
      ensures fresh(roster) && roster.entries == [] && sent == []
    {
      roster := new RosterTable();
      sent := [];
    }

    method Draw(started: bool, mirror: bool, incoming: Key, origin: nat, mouse: Json, color: int) returns (outcome: T.Outcome, drawn: bool)
      modifies this, roster
      ensures !started ==> outcome == T.Completed && !drawn && sent == old(sent) && roster.entries == old(roster.entries)
      ensures started ==> sent == old(sent) + [mouse]
      ensures started && mirror ==> outcome == T.Completed && roster.entries == old(roster.entries) && (drawn <==> roster.entries != [])
      ensures started && !mirror && incoming == Some(JNull) ==> outcome == T.Completed && !drawn && roster.entries == old(roster.entries)
      ensures started && !mirror && incoming.None? ==> outcome == T.TypeError && !drawn && roster.entries == old(roster.entries)
      ensures started && !mirror && !Nullish(incoming) ==>
                && outcome == T.Completed && drawn
                && roster.entries == Upserted(old(roster.entries), Id(Prop(incoming.value, "userId"), origin), Prop(incoming.value, "data"), color)
    {
      if !started {
        return T.Completed, false;
      }
      sent := sent + [mouse];
      if !mirror {
        if incoming == Some(JNull) {
          return T.Completed, false;
        }
        outcome := ReceiveEnvelope(roster, incoming, origin, color);
        if outcome == T.TypeError {
          return outcome, false;
        }
        UpsertedNonEmpty(old(roster.entries), Id(Prop(incoming.value, "userId"), origin), Prop(incoming.value, "data"), color);
      } else {
        outcome := T.Completed;
      }
      drawn := |roster.entries| >= 1;
    }
  }

  /** `poses[0]`: `undefined` for an empty result. */
  function FirstPose(poses: seq<Json>): (r: Key)
    ensures r.None? <==> poses == []
    ensures r.Some? ==> r.value == poses[0]
  {
    if poses == [] then None else Some(poses[0])
  }

  /** browser_client/examples/example7_posenet_multiple */
  class PoseSketch {
    const roster: RosterTable
    var myPose: Key
    var sent: seq<Key>

    /** `myPose` starts as `{}`. */
    constructor ()
      ensures fresh(roster) && roster.entries == [] && myPose == Some(JObj([])) && sent == []
    {
      roster := new RosterTable();
      myPose := Some(JObj([]));
      sent := [];
    }

    /** `getPose(poses)`: keep the first pose; send it only while the peer is started. */
    method GetPose(poses: seq<Json>, started: bool)
      modifies this
      ensures myPose == FirstPose(poses)
      ensures sent == old(sent) + (if started then [FirstPose(poses)] else [])
    {
      myPose := FirstPose(poses);
      if started {
        sent := sent + [myPose];
      }
    }

    /** `draw()`: pull other poses, then draw once this client has a pose and one partner. */
    method Draw(started: bool, incoming: Key, origin: nat, color: int) returns (outcome: T.Outcome, drawn: bool)
      modifies roster
      ensures !started ==> outcome == T.Completed && !drawn && roster.entries == old(roster.entries)
      ensures started && incoming.None? ==> outcome == T.TypeError && !drawn && roster.entries == old(roster.entries)
      ensures started && incoming == Some(JNull) ==> roster.entries == old(roster.entries)
      ensures started && !Nullish(incoming) ==>
                roster.entries == Upserted(old(roster.entries), Id(Prop(incoming.value, "userId"), origin), Prop(incoming.value, "data"), color)
      ensures started && incoming.Some? ==>
                && (outcome == T.TypeError <==> Nullish(myPose))
                && (drawn <==> !Nullish(myPose) && Prop(myPose.value, "pose").Some? && roster.entries != [])
    {
      if !started {
        return T.Completed, false;
      }
      outcome := GetOtherPoses(roster, incoming, origin, color);
      if outcome == T.TypeError {
        return outcome, false;
      }
      if Nullish(myPose) {
        return T.TypeError, false;
      }
      if Prop(myPose.value, "pose").None? {
        return T.Completed, false;
      }
      drawn := |roster.entries| >= 1;
    }
  }

  /** Reading one property after another: `Threw` once a step reads a property
      of `undefined` or `null`. */
  datatype Read = Threw | Got(k: Key)

  function Step(r: Read, key: string): (s: Read)
    ensures s.Threw? <==> r.Threw? || Nullish(r.k)
  {
    match r
    case Threw => Threw
    case Got(k) => if Nullish(k) then Threw else Got(Lookup(k.value, key))
  }

  /** `pose.pose.<wrist>.y` */
  function WristY(pose: Key, wrist: string): Read
  {
    Step(Step(Step(Got(pose), "pose"), wrist), "y")
  }

  /** `y > 100` for a decoded value: only a number above 100 is; `undefined`,
      `null`, booleans and objects compare false. */
  predicate Above100(k: Key)
  {
    k.Some? && k.value.JNum? && k.value.n > 100
  }

  /** The result of `checkHands`, or the TypeError it throws. */
  datatype Check = Raised | Returned(atTop: bool)

  /** `checkHands(pose)` */
  function CheckHands(pose: Key): (r: Check)
    ensures r.Raised? <==> WristY(pose, "leftWrist").Threw? || WristY(pose, "rightWrist").Threw?
  {
    match WristY(pose, "leftWrist")
    case Threw => Raised
    case Got(l) =>
      match WristY(pose, "rightWrist")
      case Threw => Raised
      case Got(r) => Returned(!(Above100(l) || Above100(r)))
  }

  /** A PoseNet result `{pose: {leftWrist: {y}, rightWrist: {y}}}`. */
  function WristPose(leftY: int, rightY: int): Json
  {
    JObj([Member("pose", JObj([
      Member("leftWrist", JObj([Member("y", JNum(leftY))])),
      Member("rightWrist", JObj([Member("y", JNum(rightY))]))]))])
  }

  /** Hands are at the top exactly when both wrists are at `y <= 100`. */
  lemma CheckHandsOnWrists(leftY: int, rightY: int)
    ensures CheckHands(Some(WristPose(leftY, rightY))) == Returned(leftY <= 100 && rightY <= 100)
  {
    var l := JObj([Member("y", JNum(leftY))]);
    var r := JObj([Member("y", JNum(rightY))]);
    var wrists := [Member("leftWrist", l), Member("rightWrist", r)];
    assert Step(Got(Some(WristPose(leftY, rightY))), "pose") == Got(Some(JObj(wrists)));
    assert "leftWrist" != "rightWrist" by { assert "leftWrist"[0] != "rightWrist"[0]; }
    assert wrists[..1] == [Member("leftWrist", l)];
    assert LookupMember(wrists, "leftWrist") == Some(l);
    assert LookupMember(wrists, "rightWrist") == Some(r);
    assert WristY(Some(WristPose(leftY, rightY)), "leftWrist") == Got(Some(JNum(leftY)));
    assert WristY(Some(WristPose(leftY, rightY)), "rightWrist") == Got(Some(JNum(rightY)));
  }

  /** A record that is nullish, has no `pose`, or whose pose lacks a wrist makes
      `checkHands` throw. */
  lemma CheckHandsWithoutWrists(pose: Key)
    ensures Nullish(pose) ==> CheckHands(pose) == Raised
    ensures !Nullish(pose) && Lookup(pose.value, "pose").None? ==> CheckHands(pose) == Raised
    ensures !Nullish(pose) && Lookup(pose.value, "pose").Some? ==>
              var p := Lookup(pose.value, "pose").value;
              Lookup(p, "leftWrist").None? || Lookup(p, "rightWrist").None? ==> CheckHands(pose) == Raised
  {
  }

  /** The `handsAtTop` fold of `drawAllPoses`: `checkHands` runs on each record in
      order while the flag is still true; a throw ends the frame. */
  function HandsUp(es: seq<Entry>): Check
  {
    if es == [] then Returned(true)
    else
      var c := CheckHands(es[0].value);
      if c == Returned(true) then HandsUp(es[1..]) else c
  }

  /** How many times the fold calls `checkHands`. */
  function Checked(es: seq<Entry>): nat
  {
    if es == [] then 0
    else if CheckHands(es[0].value) == Returned(true) then 1 + Checked(es[1..])
    else 1
  }

  /** The fold is true exactly when every record's hands are up; otherwise its
      result is that of the first record whose check is not true, and that record
      is the last one checked. */
  lemma {:induction false} HandsUpFold(es: seq<Entry>)
    ensures HandsUp(es) == Returned(true) <==> forall i :: 0 <= i < |es| ==> CheckHands(es[i].value) == Returned(true)
    ensures Checked(es) <= |es|
    ensures forall i :: 0 <= i < Checked(es) - 1 ==> CheckHands(es[i].value) == Returned(true)
    ensures HandsUp(es) != Returned(true) ==>
              0 < Checked(es) && HandsUp(es) == CheckHands(es[Checked(es) - 1].value)
    ensures HandsUp(es) == Returned(true) ==> Checked(es) == |es|
  {
    if es != [] {
      HandsUpFold(es[1..]);
      if CheckHands(es[0].value) == Returned(true) {
        forall i | 0 <= i < |es| && i > 0 ensures es[i] == es[1..][i - 1] { }
      }
    }
  }

  /** browser_client/examples/example8_posenet_multiple_handsup and its copy under
      examples/: `allPoses` holds this client's own record first, with the
      arbitrary id 1. */
  class HandsUpSketch {
    const roster: RosterTable
    var sent: seq<Key>

    constructor ()
      ensures fresh(roster) && roster.entries == [] && sent == []
    {
      roster := new RosterTable();
      sent := [];
    }

    /** The own record is the first one. */
    ghost predicate SelfFirst()
      reads this, roster
    {
      roster.entries != [] ==> roster.entries[0].userId.key == Some(JNum(1))
    }

    /** `getPose(poses)`: create the own record on the first pose, afterwards only
        replace its pose; send it while the peer is started. */
    method GetPose(poses: seq<Json>, started: bool, color: int)
      requires SelfFirst()
      modifies this, roster
      ensures SelfFirst() && roster.entries != []
      ensures old(roster.entries) == [] ==> roster.entries == [Entry(Id(Some(JNum(1)), 0), FirstPose(poses), color)]
      ensures old(roster.entries) != [] ==>
                roster.entries == old(roster.entries)[0 := old(roster.entries)[0].(value := FirstPose(poses))]
      ensures sent == old(sent) + (if started then [FirstPose(poses)] else [])
    {
      if |roster.entries| == 0 {
        roster.Push(Entry(Id(Some(JNum(1)), 0), FirstPose(poses), color));
      } else {
        roster.SetFirstValue(FirstPose(poses));
      }
      if started {
        sent := sent + [roster.entries[0].value];
      }
    }

    /** `drawAllPoses`'s `handsAtTop` fold, and the number of `checkHands` calls. */
    method HandsAtTop() returns (r: Check, calls: nat)
      ensures r == HandsUp(roster.entries) && calls == Checked(roster.entries)
    {
      var es := roster.entries;
      var handsAtTop := true;
      calls := 0;
      var i := 0;
      while i < |es|
        invariant 0 <= i <= |es|
        invariant handsAtTop ==> HandsUp(es) == HandsUp(es[i..]) && calls + Checked(es[i..]) == Checked(es)
        invariant !handsAtTop ==> HandsUp(es) == Returned(false) && calls == Checked(es)
      {
        assert es[i..][1..] == es[i + 1..];
        if handsAtTop {
          var c := CheckHands(es[i].value);
          calls := calls + 1;
          if c.Raised? {
            return Raised, calls;
          }
          handsAtTop := c.atTop;
        }
        i := i + 1;
      }
      r := Returned(handsAtTop);
    }

    /** The gate before `drawAllPoses` and its fold: two records are needed, and
        a throwing `checkHands` ends the frame. */
    method DrawAllPoses() returns (outcome: T.Outcome, drawn: bool, celebrate: bool)
      ensures drawn <==> |roster.entries| >= 2 && HandsUp(roster.entries).Returned?
      ensures outcome == T.TypeError <==> |roster.entries| >= 2 && HandsUp(roster.entries).Raised?
      ensures outcome == T.TypeError || outcome == T.Completed
      ensures drawn ==> celebrate == HandsUp(roster.entries).atTop
    {
      if |roster.entries| < 2 {
        return T.Completed, false, false;
      }
      var hands, _ := HandsAtTop();
      if hands.Raised? {
        return T.TypeError, false, false;
      }
      return T.Completed, true, hands.atTop;
    }

    /** `draw()`: wait for the peer and the own pose, pull other poses, then draw. */
    method Draw(started: bool, incoming: Key, origin: nat, color: int) returns (outcome: T.Outcome, drawn: bool, celebrate: bool)
      requires SelfFirst()
      modifies roster
      ensures SelfFirst()
      ensures !started || old(roster.entries) == [] ==>
                outcome == T.Completed && !drawn && roster.entries == old(roster.entries)
      ensures started && old(roster.entries) != [] && incoming.None? ==>
                outcome == T.TypeError && !drawn && roster.entries == old(roster.entries)
      ensures started && old(roster.entries) != [] && incoming == Some(JNull) ==> roster.entries == old(roster.entries)
      ensures started && old(roster.entries) != [] && !Nullish(incoming) ==>
                roster.entries == Upserted(old(roster.entries), Id(Prop(incoming.value, "userId"), origin), Prop(incoming.value, "data"), color)
      ensures started && old(roster.entries) != [] && incoming.Some? ==>
                && (drawn <==> |roster.entries| >= 2 && HandsUp(roster.entries).Returned?)
                && (outcome == T.TypeError <==> |roster.entries| >= 2 && HandsUp(roster.entries).Raised?)
                && (drawn ==> celebrate == HandsUp(roster.entries).atTop)
    {
      if !started || |roster.entries| == 0 {
        return T.Completed, false, false;
      }
      outcome := GetOtherPoses(roster, incoming, origin, color);
      if outcome == T.TypeError {
        return outcome, false, false;
      }
      if !Nullish(incoming) {
        UpsertKeepsIds(old(roster.entries), Id(Prop(incoming.value, "userId"), origin), Prop(incoming.value, "data"), color);
      }
      outcome, drawn, celebrate := DrawAllPoses();
    }
  }
}
